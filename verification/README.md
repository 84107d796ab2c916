# A claw machine with real prizes, verified

This project models the parts of a claw machine on which prizes and money depend, and proves what they promise:
the receiver that reads the tag in a fallen ball, the chute that turns a fall into one verdict, and the central server
that turns a verdict into a prize and a prize into money. `dafny verify dfyconfig.toml` checks all of it.

**The tag receiver** (`Words`, `Crc`, `CrcCode`, `CrcDivision`, `Burst`, `Fifo`, `Wire`, `WireSound`, `SelfSync`, `Decoder`,
`Parser`, `Line`, `Timing`, `Reception`, `Tag`). Edges of the demodulated signal become 8-bit gaps in a ring, gaps become
bits by biphase decoding, bits become framed bytes, and a checksum accepts or rejects them: the telegram of ISO 11785 with
the code of ISO 11784. `Wire` holds the receiver as functions on a stream of gaps and the tag's encoder beside it; the classes
`Fifo`, `Decoder` and `Parser` have the source's loops and fields and are proved to compute these functions on the gaps
that reach them, while edges interrupt between any two looks at the ring (`Line`). The round
trip, the self-synchronisation and the error bounds are lemmas about them; `WireSound` is the converse, that nothing is
accepted which was not sent. `Wire` leaves open how long a half period
is (`Spans`), so its results hold for every carrier; `Timing` fixes 134.2 kHz, and `Reception` puts
reader, interrupt and a tag that repeats itself together. In `Crc` a register is a polynomial
over GF(2), as the set of its exponents, and `Words` defines the word operators digit by digit.

**The chute** (`Sensors`, `Chute`, `ChuteRuns`, `ChuteClock`, `ChuteTurns`). `Chute` gives each message, edge, tag and pass of the
loop as a function on the state, and a class with the source's variables that computes it. The state keeps a history
of arms, edges, tags heard, serials read and messages sent; `ChuteRuns` says what holds of it in every run,
`ChuteClock` bounds the time to a verdict on the 32-bit millisecond clock, and `ChuteTurns` says exactly what each pass of
the loop tells, from what happened and how long the chute has waited.

**The central server** (`Tables`, `Prizes`, `Inventory`, `Payments`, `Ledger`, `Holds`, `Withdrawals`, `Transactions`,
`Settlements`, `Turns`, `Store`, `AutoResell`, `Central`, `CentralMoney`, `CentralTurns`, `CentralRuns`, `CentralPromises`,
`Handover`). Tables are maps; each transaction is a
function that yields new tables or the reason it refuses, in which case it is rolled back; unique columns and foreign
keys are checks that refuse. `Store`, `AutoResell` and `Turns` have the code that changes rows in place. `Central` puts
everything into one machine whose steps are the committed transactions, the blocks between two waits of the turn
handlers, and the single reads of a withdrawal, in any interleaving. `CentralRuns` proves, in every reachable state, the
seven truths that the repository's simulator checks after each scenario, and `CentralPromises` what players rely on beyond
them. `Settlements` and `Holds` tell from the tables alone where prizes and money go and what is held back; `Handover`
follows a verdict to its end. `EndToEnd` joins server and chute.

A run is *orderly* (`Transactions.Allowed`) if three things hold that the code leaves to its operators or to chance: the
prize of a ball is not bound again while its win is being recorded, no card is bound as a single prize that lies in an
opened booster, and the random key of a new turn is new. `Inventory.ClaimKeepsFreeExactly` and `Inventory.OpenKeepsExactly`
say exactly when the first two matter, and `CentralRuns.RebindingInFlightBreaks` reaches a state in which the first one does.

## Where code and documentation differ

The model follows the code.

- esp/src/fsm.cpp:66-68 promises that a verdict never reports the serial of an earlier turn. An arm forgets the serial it
  captured but not the one waiting in the reader's mailbox; `ChuteRuns.FreshExactlyWhenDrained` gives the exact condition.
- esp/src/fsm.h:12-13 describes a wait for the exit beam after the release; an exit edge since the arm already counts.
  `ChuteRuns.ExitAwaitedExactlyWhenClear` says when the description holds: exactly when none is flagged at the release.
- esp/src/Decoder.cpp:28-32 calls a gap above 255 us garbage; it reads as a 1 whenever at least 179 us of it are left
  modulo 2^16 (`Timing.SilenceReadsAsOne`).
- An enrollment window longer than 2^31 ms ends when it opens (`ChuteClock.LongWindowsAreOver`).
- central/fastapi/app/win_transitions.py:80-88 promises that every ball the fitness check passes can be won. A ball won
  before, bound again and loaded passes but can never be won, as its first win stays; the same goes for a single card that
  was won and returned to the pool (`Inventory.FitnessIsExact`).
- central/fastapi/app/pi_client.py:453-456 takes an exhausted pool for unreachable. It is reached exactly if the ball had no
  booster when it fell or its SKU is out of stock by the time of the claim (`CentralRuns.ExhaustedOnlyByStock`).
- pi_client.py:217-219 promises that the queue stops when the chute is jammed. An error of `_record_win` or of a message to
  the player ends the handler before it sets the fault, and `turn_end` goes on (`CentralRuns.UnfitVerdictCanBeLost`);
  `CentralRuns.FaultExactlyWhenReported` gives the exact condition.
- win_transitions.py:139 says `reserve_win` is atomic; it commits the grab first (`CentralRuns.GrabbedStaysOut`,
  `CentralRuns.ClaimIsAllOrNothing`).
- win_transitions.py:481 says voiding releases the prize; it is free already (`Inventory.VoidChangesNoInventory`).
- central/fastapi/app/stripe_rail.py:10-13 calls the webhook a safety net for crashes after the charge. Any error of the
  charge call fails the payment, and a success reported later then does nothing (`Transactions.LateSuccessIsLost`); it
  yields its play exactly while the payment is pending (`Transactions.SuccessPlaysExactlyWhenPending`).
- central/fastapi/app/helpers.py:52-54 names its own gap (`CentralRuns.KeptCardsEscapeTheHold`).

## Model

| member | source | states |
|---|---|---|
| Fifo.Fifo.constructor | esp/src/Fifo.cpp:3-6 | a ring over `size` bytes starts empty and can hold `size - 1` |
| Fifo.Fifo.Push | esp/src/Fifo.cpp:12-42 | the ring whose indices count down behaves as a queue that drops its oldest value when full |
| Fifo.Fifo.Peek | esp/src/Fifo.cpp:26-31 | hands out the oldest value if there is one, and leaves the caller's variable alone if not |
| Fifo.Fifo.Pop | esp/src/Fifo.cpp:19-24 | removes exactly the oldest value, and nothing from an empty ring |
| Fifo.ContentsAreLatest | esp/src/Fifo.cpp:3-42 | after any run of pushes and pops the contents are the latest undelivered values, in order, as many as fit |
| Fifo.NothingLost | esp/src/FdxB.h:13-22 | a run that never holds more than the capacity delivers every value pushed, in order, each once |
| Decoder.Decoder.PutStateChange | esp/src/Decoder.cpp:16-37 | the 16-bit difference, one microsecond short across a rollover and capped at 255, is pushed and the timestamp kept |
| Decoder.Decoder.Interrupt | esp/src/Decoder.cpp:16-37 | one more edge of the line outside: its gap goes into the ring |
| Decoder.Decoder.GetDelta | esp/src/Decoder.cpp:61-73 | waits while the ring is empty, edges coming before and meanwhile in any number, and takes exactly the next gap delivered |
| Decoder.Decoder.GetBit | esp/src/Decoder.cpp:39-59 | reads one biphase bit off the gaps delivered, whenever they come, or fails having consumed the gaps it looked at |
| Parser.Parser.FindHeader | esp/src/Parser.cpp:19-44 | stops exactly behind the first ten zeros and a one, any number of zeros before them, while edges keep coming |
| Parser.Parser.GetByte | esp/src/Parser.cpp:46-71 | the shifts and ors leave the number whose binary digits are the eight bits read, lowest first, edges coming meanwhile; true only with a control bit 1 |
| Parser.Parser.GetData | esp/src/Parser.cpp:90-115 | fills the buffer with ten bytes, three more if announced, touches nothing beyond them, and reports the checksum's verdict |
| Parser.Parser.GetTag | esp/src/Parser.cpp:15-17 | reads a whole telegram off the gaps delivered during the call as the stream reader does |
| Parser.CheckIsAccepted | esp/src/Parser.cpp:113-114 | the number compared with the stored checksum is the code's register word, so the comparison decides acceptance |
| Crc.Crc16k | esp/src/Parser.cpp:74-88 | the byte loop leaves the register that a bit-serial division of the same bits leaves; 0 for no memory |
| Crc.ShiftIsStep | esp/src/Parser.cpp:83-84 | one shift of the word is one step of polynomial division by x^16+x^12+x^5+1 |
| Crc.FeedHead | esp/src/Parser.cpp:82 | adding up to sixteen bits to the register at once and shifting is the same as feeding them one by one |
| CrcDivision.RegisterIsRemainder | esp/src/Parser.cpp:74-88 | a polynomial is a remainder of message * x^16 modulo the generator if and only if it is the register |
| CrcDivision.AcceptedIsRemainder | esp/src/Parser.cpp:113-114 | the check passes if and only if the stored checksum is that remainder |
| CrcCode.AcceptedIsZeroResidue | esp/src/Parser.cpp:113-114 | the check passes if and only if the checksum run over all ten bytes leaves 0 |
| CrcCode.MinimumDistance | esp/src/Parser.cpp:74-114 | two different accepted blocks differ in at least four bits |
| CrcCode.BurstDetected | esp/src/Parser.cpp:74-114 | two different accepted blocks never agree outside sixteen consecutive bits |
| Burst.AirBurstDetected | esp/src/Parser.cpp:46-114 | nor, with the control bits that go on the air, outside eighteen consecutive ones |
| CrcDivision.BoundsAreTight | esp/src/Parser.cpp:74-88 | two accepted blocks at distance exactly four inside seventeen bits: neither bound can be improved |
| CrcCode.FeedParity | esp/src/Parser.cpp:83-84 | the register keeps the parity of the bits fed |
| CrcCode.FeedInjective | esp/src/Parser.cpp:83-84 | different registers stay different under the same further bits |
| Wire.RoundTrip | esp/src/Parser.cpp:90-115 | whatever a tag sends, however its gaps jitter within their bands, is handed on, with success exactly if its checksum is right |
| Wire.FindHeaderAligned | esp/src/Parser.cpp:19-44 | on aligned gaps the header search sees exactly the bits sent |
| WireSound.ReadBitExactly | esp/src/Decoder.cpp:39-59 | whatever follows: a bit is read off gaps if and only if they carry it, and fails if and only if a gap is neither a half nor a full period, or a half one lacks its second half |
| WireSound.FindHeaderIsSound | esp/src/Parser.cpp:19-44 | on any gaps at all the header search stops only right behind gaps that carry ten zeros and a one |
| WireSound.ReadTagIsSound | esp/src/Parser.cpp:90-115 | on any gaps at all: what is handed on, with its verdict, was sent in the gaps right before the stop, header and framing included; a telegram is given up only where a bit or a control bit fails behind a header |
| SelfSync.FirstHeaderIsTrue | esp/src/Parser.cpp:19-44 | from any bit of a repeated telegram the first header found is a true one, as control bits keep zero runs short |
| SelfSync.Realigns | esp/src/Decoder.cpp:39-59 | entered halfway through a zero, the receiver is back in step at the next full period, having found no header |
| SelfSync.SelfSynchronises | esp/src/Parser.cpp:19-115 | entered at any edge, even mid-bit, and behind a stray gap, the sent bytes are handed on before two telegrams have passed |
| Timing.Bands | esp/src/Decoder.cpp:7-46 | at 134.2 kHz gaps of 60 to 178 us are half periods and 179 to 255 full ones |
| Timing.DeltaOfGap | esp/src/Decoder.cpp:22-34 | from true times: what an edge pushes is the true gap, one less across a rollover, at most 255 |
| Timing.TelegramFits | esp/src/FdxB.h:13-22 | no telegram takes more than the 242 gaps that a 243-byte ring holds |
| Timing.RoundTripThroughTiming | esp/src/Decoder.cpp:16-59 | for every tag and all true gaps within the bands, a microsecond to spare, timestamping, ring and parser return the tag |
| Timing.SilenceReadsAsOne | esp/src/Decoder.cpp:22-46 | a gap of any length reads as a 1 if and only if at least 179 us of it are seen, modulo 2^16 and less one on a rollover |
| Line.EveryGapDelivered | esp/src/Decoder.cpp:61-73 | however edges and looks at the ring interleave, if no edge finds it full the reader is handed every gap, in order |
| Reception.TagStable | esp/src/Parser.cpp:90-115 | gaps that come after a telegram, read or rejected, change nothing and stay for the next |
| Reception.RepeatedTelegramIsRead | esp/src/Parser.cpp:15-115 | true edge times of a repeated telegram, entered at any edge, read while they come in any interleaving without overflow: the sent bytes come out |
| Reception.ReceiveRepeated | esp/src/Parser.cpp:15-17 | the parser's code fills the tag buffer with them, with success exactly if their checksum is right |
| Reception.ReceiveSoundly | esp/src/Parser.cpp:15-17 | the parser's code accepts only what was sent: the gaps taken end in a header and the framed bytes now in the tag buffer, whose checksum is right |
| Tag.TagToHex | esp/src/fdxb_reader.cpp:30-41 | writes sixteen digits and a terminator and nothing else |
| Tag.HexIdentifies | esp/src/fdxb_reader.cpp:30-41 | two tags have the same serial if and only if identifier, country and flags agree |
| Tag.HexReadsBack | esp/src/fdxb_reader.cpp:30-41 | read as hexadecimal, two digits at a time, the serial gives the eight bytes back in order |
| Tag.FieldsAreTheirs | esp/src/FdxB.h:26-29 | an identifier of 38 bits, a country of 10 and 16 flags, packed lowest first, come out as they went in |
| Tag.DataFlagIsFlagBit | esp/src/FdxB.h:26-37 | the bit that announces three more bytes is the lowest of the packed flags field |
| Tag.Mailbox.Deliver | esp/src/fdxb_reader.cpp:55-61 | a new tag overwrites an unread one |
| Tag.Mailbox.TryReadOnce | esp/src/fdxb_reader.cpp:99-110 | hands out the waiting serial once and empties the slot |
| Sensors.Beam.OnEdge | esp/src/sensors.cpp:17-29 | an edge raises the flag unless it comes within 5 ms, modulo 2^32 us, of the last one taken |
| Sensors.Beam.Take | esp/src/sensors.cpp:38-52 | reads and clears the flag |
| Sensors.BurstIsOneEdge | esp/src/sensors.cpp:10-29 | a burst of edges within 5 ms of its first raises the flag once, across rollovers of the clock |
| Sensors.FirstOfBurstCounts | esp/src/sensors.cpp:17-29 | the first edge of a burst raises the flag and starts the debounce time; the rest of the burst changes nothing |
| Sensors.IgnoredExactly | esp/src/sensors.cpp:19 | an edge is ignored if and only if its true distance is below 5 ms up to a multiple of 2^32 us |
| Chute.Machine.constructor | esp/src/fsm.cpp:33-41 | boots idle, without fault, solenoid released, flags down |
| Chute.Machine.OnInbound | esp/src/fsm.cpp:43-93 | the whole effect of each message in each state: arms only when idle, a fault and nothing else when blocked, silence when busy |
| Chute.Machine.Tick | esp/src/fsm.cpp:95-163 | the whole effect of one pass of the loop in each state |
| Chute.Machine.LatchBlocked | esp/src/fsm.cpp:27-31 | latching releases the solenoid and sends nothing |
| Chute.Machine.EmitVerdict | esp/src/protocol.cpp:51-60 | one message, with an explicit null for an empty serial |
| ChuteRuns.ChuteSafety | esp/src/fsm.cpp:20-31 | in every reachable state: solenoid on iff clearing, fault iff blocked, verdicts = arms accepted less the turn that is on |
| ChuteRuns.VerdictTellsTurn | esp/src/protocol.h:11-20 | in every run each verdict names exactly what happened since its arm, and a serial iff one was read, and that one |
| ChuteRuns.TurnHasCause | esp/src/fsm.cpp:103-147 | falls and exits rest on edges since the arm; a serial read is the last heard since the arm or the one that waited at it |
| ChuteRuns.FreshExactlyWhenDrained | esp/src/fsm.cpp:64-73 | no run from an arm to the next one reports a serial heard before that arm if and only if the mailbox is empty at it, whatever earlier turns reported |
| ChuteRuns.ExitAwaitedExactlyWhenClear | esp/src/fsm.cpp:116-140 | at the release of a prize: every later exit rests on an edge since then if and only if no exit edge is flagged |
| ChuteRuns.FlaggedSinceArm | esp/src/fsm.cpp:63-65 | before the release an exit edge is flagged if and only if one came since the arm |
| ChuteClock.DueIsUnbounded | esp/src/fsm.cpp:109 | the signed 32-bit comparison is the comparison of true times while they are less than 2^31 ms apart |
| ChuteClock.BoundedResponse | esp/src/fsm.cpp:95-147 | with a pass of the loop at least every d ms each accepted arm gets its verdict in less than 7000 + 3d ms, across rollovers |
| ChuteClock.LongWindowsAreOver | esp/src/fsm.cpp:75-87 | an enrollment window is over at the instant it opens if and only if it is longer than 2^31 ms |
| ChuteTurns.PassTellsExactly | esp/src/fsm.cpp:95-147 | in every run: what a pass tells of a turn, and the state it leaves, follow from what happened since the arm and from the true time its phase has waited, 3000 or 2000 ms, and from nothing else |
| ChuteTurns.NeverTooSoon | esp/src/fsm.cpp:63-147 | in every run, across rollovers: no_fall comes at least 3000 ms after its arm, no_read at least 2000 ms after the pass that noted the fall and with nothing heard since the arm, no_exit at least 2000 ms after the serial was read |
| ChuteTurns.SerialInTimeIsReported | esp/src/fsm.cpp:116-147 | a serial that is there before the turn is given up ends it as ok or no_exit, on every run, however late the next pass |
| ChuteTurns.EnrollmentExactly | esp/src/fsm.cpp:75-161 | a pass reports the last tag heard since the window opened, never an earlier one, and else ends the window if and only if its time, 10 s unless asked otherwise, is over |
| ChuteTurns.FaultIsLastVerdicts | esp/src/fsm.cpp:27-57 | in every run the fault of a blocked chute, and the one an arm is answered with, is that of the last verdict |
| ChuteTurns.BlockedUntilCleared | esp/src/fsm.cpp:48-57 | a blocked chute keeps its fault and answers arms with it until it is cleared; then the next arm is accepted |
| ChuteTurns.DeafWhileBusy | esp/src/fsm.cpp:58-101 | during a turn or an enrollment arms, enrollments and clearing change nothing; at rest a pass of the loop does nothing |
| ChuteTurns.PongsAnswerPings | esp/src/fsm.cpp:44-46 | in every run the pongs sent are the pings received, by number and in order |
| EndToEnd.VerdictIsUnderstood | central/fastapi/app/pi_client.py:202-211 | the server reads every verdict the chute can send as the chute meant it: won, fit and the name of the fault |
| Store.Database.UnclaimableLoadedBalls | central/fastapi/app/win_transitions.py:77-120 | lists each loaded ball whose prize cannot be handed over, once, with the reason, and no other |
| Store.Database.ReserveWin | central/fastapi/app/win_transitions.py:125-250 | the ball is grabbed whatever becomes of its prize; the rest happens as a whole or is undone |
| Store.Database.ClaimBooster | central/fastapi/app/win_transitions.py:180-222 | reserve, check stock, insert the win, name it on the booster; undone at each point of failure |
| Store.Database.ClaimCard | central/fastapi/app/win_transitions.py:224-250 | the same for a single card |
| Store.Database.InsertWin | central/fastapi/app/models.py:360-373 | a win is inserted if and only if its foreign keys exist and its unique columns are unused |
| Store.Database.LoadPendingWin | central/fastapi/app/win_transitions.py:542-557 | already settled before wrong kind, in this order |
| Store.Database.BoosterOf | central/fastapi/app/models.py:386 | the one booster whose unique column names the win |
| Store.Database.OpenBoosterWin | central/fastapi/app/win_transitions.py:266-288 | consumes the booster, moves its cards to the winner, settles the win |
| Store.Database.ShipBoosterWin | central/fastapi/app/win_transitions.py:295-320 | frees the booster and settles the win |
| Store.Database.SettleBoosterAsResell | central/fastapi/app/win_transitions.py:323-346 | frees the booster, credits the snapshotted price, settles the win |
| Store.Database.KeepCardWin | central/fastapi/app/win_transitions.py:351-364 | the card goes to the winner's collection |
| Store.Database.ShipCardWin | central/fastapi/app/win_transitions.py:371-397 | the card is shipped past the collection |
| Store.Database.SettleCardAsResell | central/fastapi/app/win_transitions.py:400-421 | the card returns to the pool and its price is credited |
| Store.Database.ShipCardFromCollection | central/fastapi/app/win_transitions.py:426-450 | only the owner, only from the collection, with the errors in the source's order |
| Store.Database.ResellCardFromCollection | central/fastapi/app/win_transitions.py:453-475 | the same, with a credit that names no win |
| Store.Database.VoidLoadedBall | central/fastapi/app/win_transitions.py:480-503 | a loaded ball leaves the machine and its prize is set free |
| Store.Database.BindBall | central/fastapi/app/admin/router.py:112-171 | creates or rebinds a ball that is out of the machine or unbound, to a free, complete booster no other ball has |
| Store.Database.BindBallCard | central/fastapi/app/admin/router.py:204-256 | the same for a card of the pool |
| Store.Database.CreateUnboundBall | central/fastapi/app/admin/router.py:377-394 | a new loaded ball without a prize |
| Store.Database.PatchStock | central/fastapi/app/admin/router.py:643-653 | the stock flag flips even under loaded balls |
| Store.Database.InitiatePayment | central/fastapi/app/payments.py:36-50 | one pending row |
| Store.Database.ConfirmPayment | central/fastapi/app/payments.py:53-69 | confirmed row and play together or, if the reference is used, neither |
| Store.Database.ConfirmCardPayment | central/fastapi/app/stripe_rail.py:100-119 | only a pending row is confirmed |
| Store.Database.FailCardPayment | central/fastapi/app/stripe_rail.py:122-138 | only a pending row fails, and keeps its reference unless there is an intent |
| Store.Database.PayByTransfer | central/fastapi/app/socket/events_queue.py:238-268 | by a player not in the queue, a verified, unused transfer, or nothing at all in bypass mode, buys one play; else nothing changes |
| Store.Database.Withdraw | central/fastapi/app/socket/events_queue.py:113-159 | uninterrupted: all that is not held leaves with a hash, or the ledger is as before |
| Inventory.BoosterReservedExactly | central/fastapi/app/win_transitions.py:182-221 | under the invariant a booster is reserved iff a pending booster win holds it, only one does, and it holds no other |
| Inventory.CardReservedExactly | central/fastapi/app/win_transitions.py:231-249 | a card is reserved iff a pending card win holds it, and only one does |
| Inventory.PendingWinHasPrize | central/fastapi/app/win_transitions.py:542-557 | every pending win can still be honoured |
| Inventory.VoidChangesNoInventory | central/fastapi/app/win_transitions.py:490-501 | voiding any ball changes neither boosters nor cards |
| Inventory.ClaimBoosterKeeps | central/fastapi/app/win_transitions.py:180-222 | a claimed booster keeps the inventory invariant, the prizes of other balls in flight included, whatever its ball is bound to by now |
| Inventory.ClaimCardKeeps | central/fastapi/app/win_transitions.py:224-250 | so does a claimed card |
| Inventory.BoosterSettlementKeeps | central/fastapi/app/win_transitions.py:266-346 | so does every settlement of a booster win |
| Inventory.CardSettlementKeeps | central/fastapi/app/win_transitions.py:351-421 | so does every settlement of a card win |
| Inventory.OpenKeepsExactly | central/fastapi/app/win_transitions.py:277-285 | opening leaves all other prizes alone if and only if no card filmed in the booster is also a single prize |
| Inventory.ClaimKeepsFreeExactly | central/fastapi/app/win_transitions.py:180-250 | a claim leaves every loaded prize free if and only if no loaded ball, its own included, has been bound to its prize since the grab |
| Inventory.FitnessIsExact | central/fastapi/app/win_transitions.py:77-120 | in any state of the tables: a listed ball exhausts the pool; one not listed is won if and only if ball, play and card have no earlier win |
| Inventory.ExhaustedExactly | central/fastapi/app/win_transitions.py:180-245 | under the invariant a claim finds the pool exhausted if and only if its ball had no booster when it fell or that booster's SKU is out of stock |
| Settlements.BalanceMovesExactly | central/fastapi/app/win_transitions.py:323-475 | a sale adds its price to the balance of the winner, or of the card's owner, and moves no other; no other transaction moves any |
| Settlements.OpenedIsTheWinners | central/fastapi/app/win_transitions.py:266-288 | after opening, only the winner can act on the cards filmed in the booster, no other card changes, and no ball can be bound to it |
| Settlements.SettledBoosterIsFree | central/fastapi/app/win_transitions.py:295-346 | shipping or selling frees the filmed booster and records which of the two it was, and by whom |
| Settlements.KeptIsTheWinners | central/fastapi/app/win_transitions.py:351-364 | a kept card can be shipped or sold by its winner and by nobody else |
| Settlements.ShippedIsGone | central/fastapi/app/win_transitions.py:371-397 | a shipped card is its winner's and nobody can act on it any more |
| Settlements.SoldCardIsFree | central/fastapi/app/win_transitions.py:400-421 | a sold card is back in the pool as it was |
| Settlements.OwnerActsOnce | central/fastapi/app/win_transitions.py:426-475 | a card leaves a collection by its owner's hand only, and once |
| Settlements.ClaimSnapshots | central/fastapi/app/win_transitions.py:180-250 | a win is good for 30 days and worth what its prize costs at the claim |
| Settlements.RarerIsDearer | central/fastapi/app/win_transitions.py:259-261 | of two cards the rarer is worth more, and one of unknown rarity nothing |
| Settlements.StockDecides | central/fastapi/app/admin/router.py:643-653 | the stock flag decides over exactly the balls with a free booster of that SKU |
| Settlements.VoidFreesPrize | central/fastapi/app/win_transitions.py:480-503 | in any tables a voided ball's prize is free |
| Settlements.BoundIsFit | central/fastapi/app/admin/router.py:112-256 | a ball just bound can be won unless its SKU is out of stock; its prize is complete and bound to no other ball; a loaded ball with a prize is never bound again |
| Settlements.FitIsBound | central/fastapi/app/admin/router.py:112-256 | and whatever can be bound like this is |
| Settlements.CreatedIsBlank | central/fastapi/app/admin/router.py:377-394 | a new ball has no prize, cannot be won, and can be bound |
| Settlements.ProblemSaysWhy | central/fastapi/app/win_transitions.py:77-120 | each reported problem is what is wrong with the ball, and no problem means nothing is |
| Transactions.TxKeepsInventory | central/fastapi/app/win_transitions.py:264-503 | every transaction keeps the inventory invariant |
| Transactions.TxKeepsFunded | central/fastapi/app/payments.py:53-69 | every transaction keeps payments and plays in bijection and references unique |
| Transactions.TxKeepsConserved | central/fastapi/app/win_transitions.py:323-421 | every transaction credits a win exactly its price, exactly when it sells it |
| Transactions.TxAccrues | central/fastapi/app/helpers.py:28-68 | no transaction but a withdrawal debits, and none holds more than it credits |
| Transactions.SettledPaymentIsFinal | central/fastapi/app/stripe_rail.py:110-133 | a settled payment never changes; a success reported after a failure does nothing |
| Transactions.SuccessPlaysExactlyWhenPending | central/fastapi/app/stripe_rail.py:100-119 | a reported success yields its play if and only if the payment is still pending |
| Transactions.LateSuccessIsLost | central/fastapi/app/socket/events_payments.py:85-107 | begun, failed by any error of the charge, then reported as succeeded: no play |
| Transactions.PlayIsBought | central/fastapi/app/payments.py:53-69 | a bought play is its payer's, queued under the new key, and funded by this payment from now on |
| Transactions.RefIsStored | central/fastapi/app/stripe_rail.py:100-138 | a payment that is confirmed or failed under a reference carries exactly that reference |
| Transactions.StoredRefIsRefused | central/fastapi/app/stripe_rail.py:100-138 | whatever is reported under a stored reference, for whichever payment and on either rail, changes no table |
| Transactions.TxKeepsWins | central/fastapi/app/win_transitions.py:542-557 | a settled win never changes, and of a pending one only the status |
| Payments.OnePaymentPerPlay | central/fastapi/app/models.py:460-470 | each play has exactly one payment, confirmed, by the player whose turn it is |
| Payments.ReplayIsRefused | central/fastapi/app/socket/events_queue.py:253-257 | a used hash is refused even by a handler whose check came before the hash was used |
| Payments.TransferBuysExactly | central/fastapi/app/socket/events_queue.py:238-268 | a play is bought if and only if the player has none queued or on and, unless bypassed, the hash is given, verified and unused |
| Ledger.JoinsOnce | central/fastapi/app/helpers.py:57-67 | the query's join counts no credit twice |
| Ledger.HeldWithinCredits | central/fastapi/app/helpers.py:45-68 | what is held is part of what was credited |
| Ledger.HoldsEnd | central/fastapi/app/helpers.py:56-66 | holds only shrink as time passes |
| Holds.HeldIsFreshCard | central/fastapi/app/helpers.py:45-68 | the held sum is the sum of the credits won on plays paid for by card and confirmed less than seven days ago, told from the tables alone |
| Holds.CreditIsHeldExactly | central/fastapi/app/helpers.py:45-68 | a credit raises the held sum by exactly its cents if its play was paid for by card less than seven days ago, and else by nothing |
| Withdrawals.ReadKeepsSolvent | central/fastapi/app/helpers.py:71-75 | each separate read leaves a withdrawal on the safe side of what is true now |
| Withdrawals.CommitKeepsSolvent | central/fastapi/app/socket/events_queue.py:115-131 | the debit leaves at least what is held |
| Withdrawals.DebitIsCovered | central/fastapi/app/socket/events_queue.py:118-130 | the debit is within balance less holds at the commit, whatever was committed since the reads |
| Withdrawals.AloneItTakesAll | central/fastapi/app/socket/events_queue.py:113-131 | with nothing in between, a withdrawal debits all that is not held, or nothing if there is nothing |
| Withdrawals.AnswerKeepsAccounted | central/fastapi/app/socket/events_queue.py:133-144 | what was sent stays equal to the debits that are gone |
| Withdrawals.ResolveKeepsAccounted | central/fastapi/app/socket/events_queue.py:146-156 | finalizing and reversing keep it so |
| Withdrawals.NeverOverdrawn | central/fastapi/app/socket/events_queue.py:101-107 | sent and held together never exceed what was credited |
| AutoResell.Snapshot | central/fastapi/app/win_transitions.py:515-520 | exactly the pending wins that have expired |
| AutoResell.SaleWorksExactly | central/fastapi/app/win_transitions.py:323-421 | in any state a sale by the clock succeeds if and only if the win is pending and, for a booster win, some booster names it |
| AutoResell.ClaimedExpires | central/fastapi/app/win_transitions.py:515-520 | a win expires exactly 30 days after its claim |
| AutoResell.NoBadRows | central/fastapi/app/win_transitions.py:323-333 | under the inventory invariant some booster names every pending booster win |
| AutoResell.RunAutoResellExpired | central/fastapi/app/win_transitions.py:508-537 | in any state, with players settling between its transactions: returns the number of sales it posted, sells only expired wins, leaves pending of its snapshot exactly the bad rows; none under the invariant |
| Turns.State.TurnEnd | central/fastapi/app/pi_client.py:308-312 | the turn that is on becomes the one that awaits a verdict |
| Turns.State.TakeVerdict | central/fastapi/app/pi_client.py:221-237 | hands the snapshot to this verdict and clears it; the table gives won and fit |
| Turns.State.ReportVerdict | central/fastapi/app/pi_client.py:249-257 | an unfit chute sets the fault by its outcome |
| Turns.State.ReleaseTurnEnd | central/fastapi/app/pi_client.py:254-257 | the wait of the turn end is over |
| Turns.State.GiveUpTurn | central/fastapi/app/pi_client.py:335-341 | a silent cabinet is a fault unless there is one |
| Turns.State.FinishTurn | central/fastapi/app/pi_client.py:343-344 | key and player are gone together |
| Turns.State.StartTurn | central/fastapi/app/pi_client.py:279-284 | key and player of one play |
| Turns.JudgedOnce | central/fastapi/app/pi_client.py:225-228 | between two verdicts given to turns there is the end of the second one's turn: no turn end is judged twice |
| Central.StepKeepsStock | central/fastapi/app/win_transitions.py:125-503 | every step of the server, withdrawals and turns included, keeps inventory, payments and keys in order |
| CentralMoney.StepKeepsMoney | central/fastapi/app/helpers.py:28-75 | every step keeps the ledger conserved, transfers accounted for and players solvent |
| CentralTurns.StepKeepsAttribution | central/fastapi/app/pi_client.py:214-477 | every step keeps each win, and each verdict on its way to one, with its play, its player and its turn |
| CentralRuns.EveryWinIsPaidFor | sim/harness/world.py:205-214 | in every reachable state: one confirmed payment, by the winner, behind every win |
| CentralRuns.NothingIsPaidTwice | sim/harness/world.py:216-230 | no play with two payments, no reference used twice |
| CentralRuns.NothingIsWonTwice | sim/harness/world.py:232-237 | no ball, play or card with two wins |
| CentralRuns.InventoryHolds | sim/harness/world.py:239-246 | reserved iff held by a pending win, for boosters and cards; loaded prizes free; voiding harmless |
| CentralRuns.NobodyIsOverdrawn | sim/harness/world.py:248-270 | balance at least what is held and never negative; sent plus held within credits; no final withdrawal without a hash |
| CentralRuns.CreditsAreThePrice | central/fastapi/app/win_transitions.py:335-340 | credits under a win: its price if sold, else 0 |
| CentralRuns.WinsGoToTheTurnThatEnded | central/fastapi/app/pi_client.py:303-312 | every win: a winning verdict on its ball for its play's key, which was on, with its player, when the turn end before it fired |
| CentralRuns.SettledForGood | central/fastapi/app/stripe_rail.py:15-18 | along every run settled payments and settled wins keep their rows |
| CentralRuns.GrabbedStaysOut | central/fastapi/app/win_transitions.py:164-178 | a grabbed ball is never in the machine again, nor won again, until an operator binds it |
| CentralRuns.ClaimIsAllOrNothing | central/fastapi/app/win_transitions.py:178-250 | the second transaction leaves one new pending win with its prize reserved, or wins and inventory as they were |
| CentralRuns.ExhaustedOnlyByStock | central/fastapi/app/pi_client.py:453-456 | the same in every reachable state, whatever is committed between grab and claim |
| CentralRuns.UnfitUntilCleared | central/fastapi/app/pi_client.py:249-351 | once an unfit verdict is reported, or the wait for one given up, there is a fault that lasts through every run until it is cleared |
| CentralRuns.FaultExactlyWhenReported | central/fastapi/app/pi_client.py:239-257 | on a run that clears no fault: a fault at the end if and only if there was one or some step reports an unfit verdict or gives up waiting |
| CentralRuns.UnfitVerdictCanBeLost | central/fastapi/app/pi_client.py:239-257 | from any house with one booster to win an orderly run leads to a finished turn whose verdict was unfit, with no fault |
| CentralRuns.RebindingInFlightBreaks | central/fastapi/app/admin/router.py:154-168 | from any house with one booster to win an orderly run leads to a state in which binding the grabbed ball to its own booster again is accepted and breaks the invariant |
| CentralRuns.KeptCardsEscapeTheHold | central/fastapi/app/helpers.py:52-54 | a kept card sold from the collection raises what can be withdrawn by its whole price, held or not |
| CentralPromises.SalesGoToTheWinner | central/fastapi/app/win_transitions.py:335-340 | in every reachable state, what is posted under a win is a sale credited to its winner |
| CentralPromises.CardWinningsStay | central/fastapi/app/helpers.py:45-75 | in every reachable state, what was sent to a player and what he won on card plays younger than seven days is together within his credits |
| CentralPromises.RefIsUsedOnce | central/fastapi/app/stripe_rail.py:100-138 | on every run, after anything was reported under an intent or a hash, nothing reported under it again changes any table |
| CentralPromises.TicketsHaveOnePrice | central/fastapi/app/payments.py:36-50 | in every reachable state every payment is of the ticket price unless the play is free, and what is unconfirmed is by card |
| CentralPromises.PlayIsHeldByItsRail | central/fastapi/app/helpers.py:45-68 | on every run from the payment to the sale: the credit is held if and only if the play was paid for by card less than seven days ago |
| CentralPromises.OpenedForGood | central/fastapi/app/win_transitions.py:266-288 | on every orderly run an opened booster stays opened |
| Handover.WinIsHandedOver | central/fastapi/app/pi_client.py:202-257 | a winning verdict, ok or jammed, on a fit ball: a pending win for the player of the turn that ended, prize reserved, play marked, ball out, and the fault of a jam exactly if it was one |
| Handover.LossIsTold | central/fastapi/app/pi_client.py:230-257 | any other verdict touches no table and leaves exactly the fault its outcome stands for |
| Handover.StrayVerdictIsIgnored | central/fastapi/app/pi_client.py:239-242 | a verdict that no turn awaits only ends the wait |
| Handover.HandlersEnd | central/fastapi/app/pi_client.py:239-257 | no handler hangs: from wherever it is, whatever fails, its remaining blocks end it and the turn end may go on |
| Handover.WaitIsReleasedByHandlers | central/fastapi/app/pi_client.py:312-335 | the wait of a turn end begins anew with it and is ended by a handler's end or by such a verdict only |
| Handover.SilenceIsAFault | central/fastapi/app/pi_client.py:335-341 | giving up the wait sets an internal error unless there is a fault; clearing takes any fault away |
| Handover.PlayedMakesRoom | central/fastapi/app/payments.py:22-33 | a play keeps its player from buying another while it is queued or on, and no longer |

## Left out

- The receiver's `float` arithmetic: bit periods are exact reals, so a gap that lies within a rounding error of a band's edge may be read differently.
- Carriers above 16 MHz, where the cast of a period count to eight bits is undefined; the constructors exclude them.
- A receiver that waits for an edge that never comes: its calls suppose that the edges to come hold what they read.
- `push` and `pop` of the ring are taken as atomic: interrupts come between looks at the ring, not inside one.
- The last timestamp of the decoder starts out undefined, as in the source; its first gap is the stray one of `SelfSync.SelfSynchronises`.
- Edges outside the bands at 134.2 kHz: in the round trip through timing true gaps stay below 65536 us and keep a microsecond to the lower edge of their band, since a rollover of the 16-bit clock costs one.
- A chute loop that hangs: the bound on its answer supposes that the loop comes around at least every d ms.
- Serial framing, JSON, the ready message, OTA, WiFi, GPIO and the diagnostic counters of the chute.
- The Raspberry Pi between chute and server, its own state machine and its mock: verdicts reach the server in any order the steps allow.
- `esp/fdxb/src`, the same receiver with a busy wait.
- Row locks: transactions on prizes are serial, as their module states; the settlements take no lock, so nothing is claimed for a weaker isolation. The handlers that wait inside a transaction (`pay_crypto`, `pay_card`, `pay_free`) commit whatever their earlier checks saw, and the reads of a withdrawal are single steps under the lock of its user.
- `withdraw` between its steps is modelled on values (`Withdrawals`), not in place; `Store.Database.Withdraw` is the code with nothing in between.
- The transfer of USDC, the verification of a transfer and the card charge answer yes or no; a yes means sent or charged once.
- `already_in_queue`, queue positions, and any claim that at most one turn is active: checks across waits, not invariants of this code.
- `machine.blocked` as a gate: a turn may start at any time here, which only adds runs. Faults that the Pi reports on its own are left out too.
- The switches that choose free play, bypass or card payments: each handler is modelled as if it were switched on.
- Rounds, multipliers, escrow, refunds of payments and cancelled plays: retired, never produced, or display.
- Users are their wallet addresses; the lazily created user row and its Stripe customer are not modelled.
- Shipments and timestamps other than expiry, confirmation and the clock.
- The catalogue: `is_complete` is a given flag of a booster or card; editing, deleting and reordering rows are left out.
- Identifiers are given to each operation and must be unused, as random UUIDs are; a used one is refused as the database would.
- The web front ends, the Telegram alerts, admin authentication, migrations and the simulator's drivers.
