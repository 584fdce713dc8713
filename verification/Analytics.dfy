/**
 The weighted-average-cost journal (src/analytics_store.rs): swaps, cash flows, opening positions and
 oracle marks are journaled once each and projected into positions, cash totals and marks, with
 checked 64- and 128-bit arithmetic. A call that fails leaves every table as it was.
 */
module Analytics {
  import opened Basics
  import opened Arith
  import opened Sums

  type EventId = string
  type User = string
  type Asset = string
  type Time = nat

  datatype Key = Key(user: User, asset: Asset, quote: Asset)

  datatype Position = Position(
    quantity: nat, cost: nat, realized: int, volume: nat, fees: nat, fills: nat,
    requested: nat, filled: nat, quoted: nat)

  const FLAT := Position(0, 0, 0, 0, 0, 0, 0, 0, 0)

  datatype Cash = Cash(deposits: nat, initiated: nat, withdrawals: nat)

  datatype Mark = Mark(asset: Asset, quote: Asset, numerator: nat, scale: nat, time: Time)

  datatype FlowKind = Fund | InitRedeem | Redeem

  datatype Swap = Swap(
    user: User, assetIn: Asset, assetOut: Asset, quote: Asset, amountIn: nat, amountOut: nat, value: nat,
    lpFee: nat, protocolFee: nat, backstopFee: nat, volatilityFee: nat,
    requested: Option<nat>, quotedOut: Option<nat>, time: Time)

  datatype Event =
    | SwapEvent(swap: Swap)
    | FlowEvent(kind: FlowKind, user: User, asset: Asset, amount: nat, time: Time)
    | OpeningEvent(key: Key, quantity: nat, cost: nat, realized: int, time: Time)
    | MarkEvent(mark: Mark)

  type Positions = map<Key, Position>

  datatype Tables = Tables(positions: Positions, cash: map<(User, Asset), Cash>, marks: seq<Mark>)

  const NO_TABLES := Tables(map[], map[], [])

  datatype Entry = Entry(id: EventId, event: Event)

  datatype Book = Book(journal: seq<Entry>, tables: Tables)

  datatype Error =
    | SameAssets | ZeroScale | EmptyId | OutOfRange | Overflow | Replayed | Untracked | ExceedsPosition | LateOpening

  // ---- Checked arithmetic ----

  function Unsigned(x: nat): Result<nat, Error> { if x <= U128_MAX then Ok(x) else Err(Overflow) }

  function SignedRange(x: int): Result<int, Error> {
    if -(I128_MAX + 1) <= x <= I128_MAX then Ok(x) else Err(Overflow)
  }

  function OptionalAmount(x: Option<nat>): nat { if x.Some? then x.value else 0 }

  // ---- Positions ----

  function At(positions: Positions, k: Key): Position { if k in positions then positions[k] else FLAT }

  function Save(positions: Positions, k: Key, p: Position): Result<Positions, Error> {
    if p.quantity <= I64_MAX && p.fills <= I64_MAX then Ok(positions[k := p]) else Err(OutOfRange)
  }

  function Acquire(positions: Positions, k: Key, amount: nat, cost: nat): Result<Positions, Error>
  {
    var p := At(positions, k);
    if p.quantity + amount > U64_MAX then Err(Overflow)
    else
      var total :- Unsigned(p.cost + cost);
      Save(positions, k, p.(quantity := p.quantity + amount, cost := total))
  }

  /** The cost that leaves with the disposed quantity: all of it, or the floor of its share. */
  function Allocated(p: Position, amount: nat): (cost: nat)
    requires amount <= p.quantity
    ensures cost <= p.cost
  {
    if amount == p.quantity then p.cost
    else
      ShareBelow(p.cost, amount, p.quantity);
      Quotient(p.cost * amount, p.quantity)
  }

  lemma ShareBelow(c: nat, a: nat, q: nat)
    requires a <= q && q > 0
    ensures c * a / q <= c
  {
    MulMono(c, a, q);
    DivMono(c * a, c * q, q);
    DivUnique(c * q, q, c);
  }

  function Dispose(positions: Positions, k: Key, amount: nat, proceeds: nat, fee: nat): Result<Positions, Error>
  {
    if k !in positions then Err(Untracked)
    else
      var p := positions[k];
      if amount > p.quantity then Err(ExceedsPosition)
      else if amount != p.quantity && p.cost * amount > U128_MAX then Err(Overflow)
      else
        var cost := Allocated(p, amount);
        if proceeds > I128_MAX || fee > I128_MAX || cost > I128_MAX then Err(Overflow)
        else
          var net :- SignedRange(proceeds - fee);
          var delta :- SignedRange(net - cost);
          var realized :- SignedRange(p.realized + delta);
          Save(positions, k, p.(quantity := p.quantity - amount, cost := p.cost - cost, realized := realized))
  }

  // ---- Swaps ----

  function InKey(s: Swap): Key { Key(s.user, s.assetIn, s.quote) }

  function OutKey(s: Swap): Key { Key(s.user, s.assetOut, s.quote) }

  function Fee(s: Swap): nat { s.lpFee + s.protocolFee + s.backstopFee + s.volatilityFee }

  function TotalFee(s: Swap): Result<nat, Error> { Unsigned(Fee(s)) }

  /** The quantity a sell lacks, and the cost it is seeded with. */
  function Missing(positions: Positions, s: Swap): nat {
    var available := At(positions, InKey(s)).quantity;
    if available >= s.amountIn then 0 else s.amountIn - available
  }

  function SeedCost(positions: Positions, s: Swap): nat {
    if Missing(positions, s) == 0 then 0 else Quotient(s.value * Missing(positions, s), s.amountIn)
  }

  function SeedMissing(positions: Positions, s: Swap): Result<Positions, Error>
  {
    if Missing(positions, s) == 0 then Ok(positions)
    else if s.value * Missing(positions, s) > U128_MAX then Err(Overflow)
    else Acquire(positions, InKey(s), Missing(positions, s), SeedCost(positions, s))
  }

  function UpdateFills(positions: Positions, s: Swap): Result<Positions, Error>
  {
    if OutKey(s) !in positions then Err(Untracked)
    else
      var p := positions[OutKey(s)];
      var volume :- Unsigned(p.volume + s.value);
      var fees :- Unsigned(p.fees + Fee(s));
      var filled :- Unsigned(p.filled + s.amountOut);
      var requested :- Unsigned(p.requested + OptionalAmount(s.requested));
      var quoted :- Unsigned(p.quoted + OptionalAmount(s.quotedOut));
      if p.fills + 1 > U64_MAX then Err(Overflow)
      else
        Save(positions, OutKey(s),
             p.(volume := volume, fees := fees, fills := p.fills + 1, requested := requested, filled := filled, quoted := quoted))
  }

  function ProjectSwap(positions: Positions, s: Swap): Result<Positions, Error>
  {
    var fee :- TotalFee(s);
    var seeded :- SeedMissing(positions, s);
    var sold :- Dispose(seeded, InKey(s), s.amountIn, s.value, fee);
    var bought :- Acquire(sold, OutKey(s), s.amountOut, s.value);
    UpdateFills(bought, s)
  }

  // ---- Cash flows ----

  /** A mark of the asset, in the given currency or in any, at or before the time. */
  predicate Candidate(m: Mark, asset: Asset, quote: Option<Asset>, asOf: Time) {
    m.asset == asset && (quote.Some? ==> m.quote == quote.value) && m.time <= asOf
  }

  /** The newest candidate; the later of two with the same time. */
  function LatestMark(marks: seq<Mark>, asset: Asset, quote: Option<Asset>, asOf: Time): Option<Mark>
  {
    if marks == [] then None
    else
      var n := |marks| - 1;
      var before := LatestMark(marks[..n], asset, quote, asOf);
      if Candidate(marks[n], asset, quote, asOf) && (before.None? || marks[n].time >= before.value.time)
      then Some(marks[n]) else before
  }

  /** The amount at the mark, rounded down. Marks with scale zero are never stored. */
  function Worth(m: Mark, amount: nat): Result<nat, Error>
  {
    var product :- Unsigned(amount * m.numerator);
    Ok(if m.scale == 0 then 0 else Quotient(product, m.scale))
  }

  /** The currency and value of a flow: marked, or else in the asset itself. */
  function FlowValue(t: Tables, asset: Asset, amount: nat, time: Time): Result<(Asset, nat), Error>
  {
    match LatestMark(t.marks, asset, None, time)
    case None => Ok((asset, amount))
    case Some(m) =>
      var value :- Worth(m, amount);
      Ok((m.quote, value))
  }

  /** What a position would realize at its mark in its own currency, if it has one; the total with
      what it did realize must be representable too. */
  function Unrealized(marks: seq<Mark>, k: Key, p: Position, asOf: Time): Result<Option<int>, Error>
  {
    if asOf > I64_MAX then Err(OutOfRange)
    else
      match LatestMark(marks, k.asset, Some(k.quote), asOf)
      case None => Ok(None)
      case Some(m) =>
        var value :- Worth(m, p.quantity);
        if value > I128_MAX || p.cost > I128_MAX then Err(OutOfRange)
        else
          var gain :- SignedRange(value - p.cost);
          var total :- SignedRange(p.realized + gain);
          Ok(Some(gain))
  }

  function AddCash(cash: map<(User, Asset), Cash>, k: (User, Asset), kind: FlowKind, value: nat): Result<map<(User, Asset), Cash>, Error>
  {
    var c := if k in cash then cash[k] else Cash(0, 0, 0);
    match kind
    case Fund => var x :- Unsigned(c.deposits + value); Ok(cash[k := c.(deposits := x)])
    case InitRedeem => var x :- Unsigned(c.initiated + value); Ok(cash[k := c.(initiated := x)])
    case Redeem => var x :- Unsigned(c.withdrawals + value); Ok(cash[k := c.(withdrawals := x)])
  }

  function SeedFree(positions: Positions, k: Key, amount: nat): Result<Positions, Error>
  {
    var available := At(positions, k).quantity;
    if available < amount then Acquire(positions, k, amount - available, 0) else Ok(positions)
  }

  function FlowPositions(positions: Positions, k: Key, kind: FlowKind, amount: nat, value: nat): Result<Positions, Error>
  {
    match kind
    case InitRedeem => Ok(positions)
    case Fund => Acquire(positions, k, amount, value)
    case Redeem =>
      var seeded :- SeedFree(positions, k, amount);
      Dispose(seeded, k, amount, value, 0)
  }

  // ---- Projection and journal ----

  function Project(t: Tables, e: Event): Result<Tables, Error>
  {
    match e
    case SwapEvent(s) => var positions :- ProjectSwap(t.positions, s); Ok(t.(positions := positions))
    case FlowEvent(kind, user, asset, amount, time) =>
      var (quote, value) :- FlowValue(t, asset, amount, time);
      var cash :- AddCash(t.cash, (user, quote), kind, value);
      var positions :- FlowPositions(t.positions, Key(user, asset, quote), kind, amount, value);
      Ok(t.(cash := cash, positions := positions))
    case OpeningEvent(key, quantity, cost, realized, _) =>
      if key in t.positions then Err(LateOpening)
      else
        var positions :- Save(t.positions, key, FLAT.(quantity := quantity, cost := cost, realized := realized));
        Ok(t.(positions := positions))
    case MarkEvent(mark) => Ok(t.(marks := t.marks + [mark]))
  }

  function TimeOf(e: Event): Time {
    match e
    case SwapEvent(s) => s.time
    case FlowEvent(_, _, _, _, time) => time
    case OpeningEvent(_, _, _, _, time) => time
    case MarkEvent(mark) => mark.time
  }

  /** Input checks made before the journal is touched. */
  function Precheck(e: Event): Option<Error> {
    if e.SwapEvent? && e.swap.assetIn == e.swap.assetOut then Some(SameAssets)
    else if e.MarkEvent? && e.mark.scale == 0 then Some(ZeroScale)
    else None
  }

  function Find(journal: seq<Entry>, id: EventId): Option<Event>
  {
    if journal == [] then None
    else if journal[|journal| - 1].id == id then Some(journal[|journal| - 1].event)
    else Find(journal[..|journal| - 1], id)
  }

  /** Journals and projects an event once. An exact replay is accepted and changes nothing; a
      conflicting one, like any failure, is an error and changes nothing. */
  function Record(b: Book, id: EventId, e: Event): (Book, Result<bool, Error>)
  {
    if Precheck(e).Some? then (b, Err(Precheck(e).value))
    else if id == "" then (b, Err(EmptyId))
    else if TimeOf(e) > I64_MAX then (b, Err(OutOfRange))
    else
      match Find(b.journal, id)
      case Some(stored) => (b, if stored == e then Ok(false) else Err(Replayed))
      case None =>
        match Project(b.tables, e)
        case Err(error) => (b, Err(error))
        case Ok(tables) => (Book(b.journal + [Entry(id, e)], tables), Ok(true))
  }
}
