/** The tables of the central server, as values. */
module Tables {
  import opened Results

  type Id = nat
  type Serial = string
  type Address = string
  type Key = string
  type Sku = string

  datatype PrizeKind = BoosterPair | SingleCard

  datatype BallStatus = Loaded | Grabbed | Voided

  datatype Ball = Ball(kind: PrizeKind, booster: Option<Id>, card: Option<Id>, status: BallStatus)

  datatype BoosterStatus = Available | Reserved | Consumed | Shipped | Retired

  /** A pack that was opened on film, with the cards found in it. */
  datatype Booster = Booster(sku: Sku, complete: bool, status: BoosterStatus, reservedBy: Option<Id>)

  datatype Rarity = Common | Uncommon | Rare | HoloRare | UltraRare | Chase

  datatype CardStatus = InPool | Reserved | InCollection | Shipped | Resold

  datatype Card = Card(booster: Option<Id>, rarity: Option<Rarity>, complete: bool, status: CardStatus, owner: Option<Address>)

  datatype WinStatus = Pending | SettledOpen | SettledResell | SettledShip | SettledKeep | Expired

  datatype Win = Win(user: Address, entry: Id, ball: Serial, kind: PrizeKind, status: WinStatus, expires: nat,
                     card: Option<Id>, price: nat)

  datatype PostingKind = Deposit | BetPlaced | BetRefund | Resell | AutoResell | CardResell | Withdrawal

  datatype Posting = Posting(id: Id, user: Address, kind: PostingKind, cents: nat, win: Option<Id>, tx: bool)

  datatype Rail = Crypto | CreditCard | Comp

  datatype PaymentStatus = Pending | Confirmed | Failed

  datatype Payment = Payment(address: Address, rail: Rail, cents: nat, status: PaymentStatus, ref: Option<string>,
                             entry: Option<Id>, confirmedAt: Option<nat>)

  datatype EntryStatus = Queued | Active | Played

  datatype Entry = Entry(address: Address, key: Key, status: EntryStatus, won: bool)

  datatype Db = Db(balls: map<Serial, Ball>, boosters: map<Id, Booster>, cards: map<Id, Card>, stock: map<Sku, bool>,
                   wins: map<Id, Win>, ledger: seq<Posting>, payments: map<Id, Payment>, queue: map<Id, Entry>)

  /** Why an operation refuses. Integrity is a constraint of the database; Crash an error the code does not foresee. */
  datatype Refusal =
    | BallNotAvailable
    | PoolExhausted
    | WinAlreadySettled
    | WinKindMismatch
    | NotOwner
    | CardNotActionable
    | NotFound
    | Conflict
    | Integrity
    | Crash

  type Outcome = Result<Db, Refusal>
}
