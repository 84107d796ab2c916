/** Locking on: entered anywhere in an endless repetition of a telegram, the receiver finds a true header. */
module SelfSync {
  import opened Words
  import opened Crc
  import opened Results
  import opened Wire
  import CrcCode

  // ---------------------------------------------------------------------------
  // Bits: control bits keep every run of zeros outside a header short
  // ---------------------------------------------------------------------------

  lemma {:induction false} ShortRun(w: Bits, c: nat, rest: Bits)
    requires |w| + c <= 9
    ensures ScanBits(w + [true] + rest, c) == ScanBits(rest, 0)
    decreases |w|
  {
    var s := w + [true] + rest;
    if w == [] {
      assert s[1..] == rest;
    } else {
      assert s[1..] == w[1..] + [true] + rest;
      ShortRun(w[1..], if w[0] then 0 else c + 1, rest);
    }
  }

  /** No header lies inside the frames, not even one begun by a stray zero before them. */
  lemma {:induction false} NoHeaderInFrames(data: seq<u8>, m: nat, c: nat, rest: Bits)
    requires m <= 9 * |data| && c <= 1
    ensures exists c' :: 0 <= c' <= 1 && ScanBits(Frames(data)[m..] + rest, c) == ScanBits(rest, c')
    decreases |data|
  {
    var f := Frames(data);
    if m == |f| {
      assert f[m..] + rest == rest;
      assert 0 <= c <= 1 && ScanBits(f[m..] + rest, c) == ScanBits(rest, c);
    } else if m >= 9 {
      assert f[m..] == Frames(data[1..])[m - 9..];
      NoHeaderInFrames(data[1..], m - 9, c, rest);
    } else {
      var w, after := ByteBits(data[0])[m..], Frames(data[1..])[0..];
      assert f[m..] + rest == w + [true] + (after + rest);
      ShortRun(w, c, after + rest);
      NoHeaderInFrames(data[1..], 0, 0, rest);
    }
  }

  /** From any bit of a telegram, the first header found is its own or the next one's. */
  lemma FirstHeaderIsTrue(data: seq<u8>, m: nat, c: nat)
    requires m <= |Telegram(data)| && c <= 1
    ensures var t, p := Telegram(data), Frames(data);
            var r := ScanBits(t[m..] + t, c);
            r == Found(p + t) || r == Found(p)
  {
    var t, p := Telegram(data), Frames(data);
    if m >= 11 {
      assert t[m..] == p[m - 11..];
      NoHeaderInFrames(data, m - 11, c, t);
      var c' :| 0 <= c' <= 1 && ScanBits(p[m - 11..] + t, c) == ScanBits(t, c');
      ScanHeader(p, c');
    } else {
      var n := 10 - m;
      assert t[m..] + t == Zeros(n) + ([true] + (p + t));
      ScanZeros(n, c, [true] + (p + t));
      assert ([true] + (p + t))[1..] == p + t;
      if c + n < 10 {
        NoHeaderInFrames(data, 0, 0, t);
        assert p[0..] == p;
        var c' :| 0 <= c' <= 1 && ScanBits(p[0..] + t, 0) == ScanBits(t, c');
        ScanHeader(p, c');
      }
    }
  }

  // ---------------------------------------------------------------------------
  // Gaps: half a bit out of step, the first full period brings the receiver back
  // ---------------------------------------------------------------------------

  /** Where an entry point falls: before bit n, or halfway through the 0 that is bit n - 1. */
  datatype Entry = Boundary(n: nat) | Halfway(n: nat)

  ghost predicate EntersAt(spans: Spans, ds: Deltas, bits: Bits, e: Entry) {
    match e
    case Boundary(n) => n <= |bits| && Carries(spans, ds, bits[n..])
    case Halfway(n) => 0 < n <= |bits| && !bits[n - 1] && |ds| > 0 && spans(ds[0]) == 1 && Carries(spans, ds[1..], bits[n..])
  }

  lemma {:induction false} EveryEdgeIsAnEntry(spans: Spans, ds: Deltas, bits: Bits, k: nat) returns (e: Entry)
    requires Carries(spans, ds, bits) && k <= |ds|
    ensures EntersAt(spans, ds[k..], bits, e)
    decreases |bits|
  {
    if k == 0 {
      e := Boundary(0);
      assert ds[0..] == ds && bits[0..] == bits;
    } else {
      var n := if bits[0] then 1 else 2;
      if k == 1 && n == 2 {
        e := Halfway(1);
        assert ds[1..][1..] == ds[2..];
      } else {
        var f := EveryEdgeIsAnEntry(spans, ds[n..], bits[1..], k - n);
        assert ds[n..][k - n..] == ds[k..];
        match f
        case Boundary(m) =>
          assert bits[1..][m..] == bits[m + 1..];
          e := Boundary(m + 1);
        case Halfway(m) =>
          assert bits[1..][m..] == bits[m + 1..];
          e := Halfway(m + 1);
      }
    }
  }

  /**
   * Out of step, zeros are read from the wrong halves until a 1 comes: its full period spoils the
   * bit, clears the count and leaves the receiver in step.
   */
  lemma {:induction false} Realigns(spans: Spans, ds: Deltas, bits: Bits, c: nat, tail: Deltas) returns (n: nat)
    requires |ds| > 0 && spans(ds[0]) == 1 && Carries(spans, ds[1..], bits)
    requires exists i :: 0 <= i < |bits| && bits[i]
    ensures 0 < n <= |bits| && bits[n - 1] && forall i :: 0 <= i < n - 1 ==> !bits[i]
    ensures 1 + GapCount(bits[..n]) <= |ds|
    ensures Carries(spans, ds[1 + GapCount(bits[..n])..], bits[n..])
    ensures FindHeader(spans, ds + tail, c) == FindHeader(spans, ds[1 + GapCount(bits[..n])..] + tail, 0)
    decreases |bits|
  {
    hide FindHeader, ReadBit, Carries, GapCount;
    CarriesNext(spans, ds[1..], bits);
    if bits[0] {
      n := 1;
      assert bits[..1] == [true];
      OneGap();
      DropTwice(ds, 1, 1);
      FullSpoils(spans, ds, c, tail);
    } else {
      ZeroSkips(spans, ds, c, tail);
      DropTwice(ds, 2, 1);
      DropTwice(ds, 1, 2);
      var i :| 0 <= i < |bits| && bits[i];
      assert bits[1..][i - 1];
      var m := Realigns(spans, ds[2..], bits[1..], if c < 10 then c + 1 else c, tail);
      n := m + 1;
      OneBitFurther(bits, m);
      DropTwice(ds, 2, 1 + GapCount(bits[1..][..m]));
      forall j | 0 < j < n - 1
        ensures !bits[j]
      {
        assert bits[j] == bits[1..][j - 1];
      }
    }
  }

  lemma CarriesNext(spans: Spans, ds: Deltas, bits: Bits)
    requires bits != [] && Carries(spans, ds, bits)
    ensures if bits[0] then |ds| >= 1 && spans(ds[0]) == 2 && Carries(spans, ds[1..], bits[1..])
            else |ds| >= 2 && spans(ds[0]) == 1 && spans(ds[1]) == 1 && Carries(spans, ds[2..], bits[1..])
  {}

  lemma OneGap()
    ensures GapCount([true]) == 1
  {}

  lemma FullSpoils(spans: Spans, ds: Deltas, c: nat, tail: Deltas)
    requires |ds| >= 2 && spans(ds[0]) == 1 && spans(ds[1]) == 2
    ensures FindHeader(spans, ds + tail, c) == FindHeader(spans, ds[2..] + tail, 0)
  {
    DropInto(ds, tail, 2);
  }

  lemma ZeroSkips(spans: Spans, ds: Deltas, c: nat, tail: Deltas)
    requires |ds| >= 2 && spans(ds[0]) == 1 && spans(ds[1]) == 1
    ensures FindHeader(spans, ds + tail, c) == FindHeader(spans, ds[2..] + tail, if c < 10 then c + 1 else c)
  {
    DropInto(ds, tail, 2);
  }

  lemma OneBitFurther(bits: Bits, m: nat)
    requires bits != [] && m <= |bits| - 1
    ensures GapCount(bits[..m + 1]) == (if bits[0] then 1 else 2) + GapCount(bits[1..][..m])
    ensures bits[1..][m..] == bits[m + 1..]
  {
    assert bits[..m + 1][1..] == bits[1..][..m];
  }

  /** The two places a first header may end: in the first telegram or in the second. */
  ghost predicate TrueHeaderEnd(data: seq<u8>, e1: Deltas, e2: Deltas, tail: Deltas, found: Option<Deltas>) {
    var p := GapCount(Frames(data));
    p <= |e1| && p <= |e2|
    && (found == Some(e1[|e1| - p..] + e2 + tail) || found == Some(e2[|e2| - p..] + tail))
  }

  /** Two copies of a telegram, entered at edge k of the first; `ds` is what is left of them. */
  ghost predicate Repeated(spans: Spans, data: seq<u8>, e1: Deltas, e2: Deltas, k: nat, ds: Deltas) {
    && Carries(spans, e1, Telegram(data)) && Carries(spans, e2, Telegram(data))
    && k <= |e1| && ds == e1[k..] + e2
  }

  lemma CountFromEnd(spans: Spans, e: Deltas, x: Bits, y: Bits)
    requires Carries(spans, e, x + y)
    ensures GapCount(y) <= |e| && Carries(spans, e[|e| - GapCount(y)..], y)
  {
    hide Carries, GapCount;
    CarriesSplit(spans, e, x, y);
    CarriesCount(spans, e[GapCount(x)..], y);
  }

  /** What is left behind the first header, from bit m of the first copy on. */
  lemma FoundInStep(spans: Spans, data: seq<u8>, e1: Deltas, e2: Deltas, k: nat, ds: Deltas, m: nat, c: nat, tail: Deltas) returns (n: nat)
    requires Repeated(spans, data, e1, e2, k, ds) && c <= 1
    requires m <= |Telegram(data)| && Carries(spans, e1[k..], Telegram(data)[m..])
    ensures n == GapCount(Frames(data)) + GapCount(Telegram(data)) || n == GapCount(Frames(data))
    ensures n <= |ds| && FindHeader(spans, ds + tail, c) == Some(ds[|ds| - n..] + tail)
  {
    hide Carries, GapCount, Telegram, Frames, FindHeader, ScanBits;
    var t, p := Telegram(data), Frames(data);
    CarriesJoin(spans, e1[k..], e2, t[m..], t);
    FirstHeaderIsTrue(data, m, c);
    FindHeaderAligned(spans, ds, t[m..] + t, c, tail);
    GapCountConcat(p, t);
    n := if ScanBits(t[m..] + t, c) == Found(p + t) then GapCount(p) + GapCount(t) else GapCount(p);
  }

  /** In step at bit m of the first copy. */
  lemma InStep(spans: Spans, data: seq<u8>, e1: Deltas, e2: Deltas, k: nat, ds: Deltas, m: nat, c: nat, tail: Deltas)
    requires Repeated(spans, data, e1, e2, k, ds) && c <= 1
    requires m <= |Telegram(data)| && Carries(spans, e1[k..], Telegram(data)[m..])
    ensures TrueHeaderEnd(data, e1, e2, tail, FindHeader(spans, ds + tail, c))
  {
    hide Carries, GapCount, Frames, FindHeader;
    var t, p := Telegram(data), Frames(data);
    var n := FoundInStep(spans, data, e1, e2, k, ds, m, c, tail);
    CountFromEnd(spans, e1, HEADER, p);
    CountFromEnd(spans, e2, HEADER, p);
    CarriesCount(spans, e2, t);
    LastOf(e1, e2, k, GapCount(p), GapCount(t));
  }

  lemma LastOf(e1: Deltas, e2: Deltas, k: nat, g: nat, n: nat)
    requires k <= |e1| && n == |e2| && g <= |e1| && g <= |e2|
    ensures var ds := e1[k..] + e2;
            && (g + n <= |ds| ==> ds[|ds| - (g + n)..] == e1[|e1| - g..] + e2)
            && ds[|ds| - g..] == e2[|e2| - g..]
  {}

  lemma {:induction false} GapCountConcat(a: Bits, b: Bits)
    ensures GapCount(a + b) == GapCount(a) + GapCount(b)
  {
    if a == [] {
      assert a + b == b;
    } else {
      assert (a + b)[1..] == a[1..] + b;
      GapCountConcat(a[1..], b);
    }
  }

  lemma TelegramEndsHigh(data: seq<u8>)
    requires data != []
    ensures var t := Telegram(data); t[|t| - 1]
  {
    var last := data[|data| - 1];
    assert data == data[..|data| - 1] + [last];
    FramesConcat(data[..|data| - 1], [last]);
    assert Frames([last]) == Frame(last);
  }

  /** Out of step at edge k of the first copy. */
  lemma OutOfStep(spans: Spans, data: seq<u8>, e1: Deltas, e2: Deltas, k: nat, ds: Deltas, m: nat, c: nat, tail: Deltas)
    requires data != [] && Repeated(spans, data, e1, e2, k, ds)
    requires EntersAt(spans, e1[k..], Telegram(data), Halfway(m))
    ensures TrueHeaderEnd(data, e1, e2, tail, FindHeader(spans, ds + tail, c))
  {
    hide Carries, GapCount, Frames, FindHeader;
    TelegramEndsHigh(data);
    var n, g := BackInStep(spans, e1[k..], Telegram(data), m, c, e2 + tail);
    Assoc(e1[k..], e2, tail);
    DropTwice(e1, k, g);
    Assoc(e1[k + g..], e2, tail);
    InStep(spans, data, e1, e2, k + g, e1[k + g..] + e2, n, 0, tail);
  }

  lemma BackInStep(spans: Spans, ds: Deltas, bits: Bits, m: nat, c: nat, tail: Deltas) returns (n: nat, g: nat)
    requires EntersAt(spans, ds, bits, Halfway(m)) && bits[|bits| - 1]
    ensures n <= |bits| && g <= |ds| && Carries(spans, ds[g..], bits[n..])
    ensures FindHeader(spans, ds + tail, c) == FindHeader(spans, ds[g..] + tail, 0)
  {
    assert bits[m..][|bits| - m - 1];
    var k := Realigns(spans, ds, bits[m..], c, tail);
    n, g := m + k, 1 + GapCount(bits[m..][..k]);
    assert bits[m..][k..] == bits[n..];
  }

  lemma FromAnyEdge(spans: Spans, data: seq<u8>, e1: Deltas, e2: Deltas, k: nat, ds: Deltas, c: nat, tail: Deltas)
    requires data != [] && Repeated(spans, data, e1, e2, k, ds) && c <= 1
    ensures TrueHeaderEnd(data, e1, e2, tail, FindHeader(spans, ds + tail, c))
  {
    var e := EveryEdgeIsAnEntry(spans, e1, Telegram(data), k);
    match e
    case Boundary(m) => InStep(spans, data, e1, e2, k, ds, m, c, tail);
    case Halfway(m) => OutOfStep(spans, data, e1, e2, k, ds, m, c, tail);
  }

  /** One gap of any length before the entry costs at most one more edge and counts as at most one zero. */
  lemma AfterStrayGap(spans: Spans, stray: u8, ds: Deltas) returns (n: nat, c: nat)
    requires ds != []
    ensures n <= 1 && c <= 1 && FindHeader(spans, [stray] + ds, 0) == FindHeader(spans, ds[n..], c)
  {
    var s := [stray] + ds;
    assert s[1..] == ds && s[2..] == ds[1..] && s[1] == ds[0];
    n := if spans(stray) == 1 then 1 else 0;
    c := if spans(stray) == 1 && spans(ds[0]) == 1 then 1 else 0;
    assert ds[0..] == ds;
  }

  /**
   * Self-synchronisation. Two consecutive copies of a telegram, entered at any of the first one's
   * edges, even halfway through a bit, and behind at most one stray gap: the first header found is
   * the end of a true header, and the receiver hands on the sent bytes before the second copy ends,
   * with success exactly when their checksum is right.
   */
  lemma SelfSynchronises(spans: Spans, data: seq<u8>, e1: Deltas, e2: Deltas, k: nat, stray: Deltas, tail: Deltas)
    requires |data| == 13 && Carries(spans, e1, Telegram(data)) && Carries(spans, e2, Telegram(data))
    requires k < |e1| && |stray| <= 1
    ensures var ds := stray + (e1[k..] + e2 + tail);
            && TrueHeaderEnd(data, e1, e2, tail, FindHeader(spans, ds, 0))
            && HandsOn(data, ReadTag(spans, ds), tail)
  {
    var both := e1[k..] + e2;
    var ds := stray + (both + tail);
    if stray == [] {
      assert ds == both + tail;
      FromAnyEdge(spans, data, e1, e2, k, both, 0, tail);
    } else {
      assert stray == [stray[0]];
      var n, c := AfterStrayGap(spans, stray[0], both + tail);
      DropInto(e1[k..], e2, n);
      DropTwice(e1, k, n);
      DropInto(both, tail, n);
      FromAnyEdge(spans, data, e1, e2, k + n, both[n..], c, tail);
    }
    ReadsOn(spans, data, e1, e2, ds, tail);
  }

  lemma ReadsOn(spans: Spans, data: seq<u8>, e1: Deltas, e2: Deltas, ds: Deltas, tail: Deltas)
    requires |data| == 13 && Carries(spans, e1, Telegram(data)) && Carries(spans, e2, Telegram(data))
    requires TrueHeaderEnd(data, e1, e2, tail, FindHeader(spans, ds, 0))
    ensures HandsOn(data, ReadTag(spans, ds), tail)
  {
    hide Carries, Frames, GapCount, ReadBody, FindHeader;
    var p := Frames(data);
    var g := GapCount(p);
    CountFromEnd(spans, e1, HEADER, p);
    CountFromEnd(spans, e2, HEADER, p);
    if FindHeader(spans, ds, 0) == Some(e1[|e1| - g..] + e2 + tail) {
      Assoc(e1[|e1| - g..], e2, tail);
      PayloadRead(spans, data, e1[|e1| - g..], e2 + tail);
    } else {
      PayloadRead(spans, data, e2[|e2| - g..], tail);
    }
  }

  /** The telegram's bytes, with the verdict of their checksum, and at least the tail left unread. */
  ghost predicate HandsOn(data: seq<u8>, r: TagRead, tail: Deltas)
    requires |data| == 13
  {
    r.Checked? && r.ok == CrcCode.Accepted(data) && r.data == Wanted(data) && |r.rest| >= |tail|
  }

  lemma PayloadRead(spans: Spans, data: seq<u8>, payload: Deltas, rest: Deltas)
    requires |data| == 13 && Carries(spans, payload, Frames(data))
    ensures HandsOn(data, ReadBody(spans, payload + rest), rest)
  {
    ReadAfterHeader(spans, data, payload, rest);
  }
}
