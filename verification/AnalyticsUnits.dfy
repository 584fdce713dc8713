/**
 What one event of the weighted-average-cost journal does to a position: the prices it uses, the units
 and cost it moves, and the P&L it realizes; and, over any calls, how many units each position holds.
 */
module AnalyticsUnits {
  import opened Basics
  import opened Arith
  import opened Analytics
  import opened AnalyticsLaws

  // ---- Prices ----

  /** A mark values an amount at its price, rounded down, unless the product is too large. */
  lemma WorthAtPrice(m: Mark, amount: nat)
    requires m.scale > 0
    ensures Worth(m, amount).Err? <==> amount * m.numerator > U128_MAX
    ensures Worth(m, amount).Ok? ==>
              var w := Worth(m, amount).value; w * m.scale <= amount * m.numerator < (w + 1) * m.scale
  {
    DivBounds(amount * m.numerator, m.scale);
    assert (amount * m.numerator / m.scale) * m.scale == m.scale * (amount * m.numerator / m.scale);
  }

  /** The missing units of a short sell are seeded at the price of the swap itself, rounded down. */
  lemma SeedAtPrice(positions: Positions, s: Swap)
    requires s.amountIn > 0
    ensures var held, cost := At(positions, InKey(s)).quantity, SeedCost(positions, s);
            var missing := if held >= s.amountIn then 0 else s.amountIn - held;
            cost * s.amountIn <= s.value * missing < (cost + 1) * s.amountIn
  {
    var x := s.value * Missing(positions, s);
    DivBounds(x, s.amountIn);
    assert (x / s.amountIn) * s.amountIn == s.amountIn * (x / s.amountIn);
    if Missing(positions, s) == 0 { assert SeedCost(positions, s) == 0; }
  }

  // ---- One disposal ----

  /** A disposal lowers the units by the amount and the cost by its share, rounded down, and realizes
      the rest of the net proceeds. */
  ghost predicate Sold(p: Position, next: Position, amount: nat, net: int) {
    && amount <= p.quantity && next.quantity == p.quantity - amount && next.cost <= p.cost
    && (p.cost - next.cost) * p.quantity <= p.cost * amount
    && (p.quantity > 0 ==> p.cost * amount < (p.cost - next.cost + 1) * p.quantity)
    && (amount == p.quantity ==> next.cost == 0)
    && next.realized == p.realized + net - (p.cost - next.cost)
  }

  lemma DisposeSells(positions: Positions, k: Key, amount: nat, proceeds: nat, fee: nat)
    requires Dispose(positions, k, amount, proceeds, fee).Ok?
    ensures k in positions && Sold(positions[k], At(Dispose(positions, k, amount, proceeds, fee).value, k), amount, proceeds - fee)
    ensures forall x | x != k :: At(Dispose(positions, k, amount, proceeds, fee).value, x) == At(positions, x)
  {
    var p := positions[k];
    if amount == p.quantity {
      assert (p.cost + 1) * p.quantity == p.cost * p.quantity + p.quantity;
    } else {
      ShareFloor(p.cost, amount, p.quantity);
    }
  }

  lemma ShareFloor(c: nat, a: nat, q: nat)
    requires a < q
    ensures (c * a / q) * q <= c * a < (c * a / q + 1) * q
  {
    DivBounds(c * a, q);
    assert (c * a / q) * q == q * (c * a / q);
  }

  lemma AcquireAdds(positions: Positions, k: Key, amount: nat, cost: nat)
    requires Acquire(positions, k, amount, cost).Ok?
    ensures var p, next := At(positions, k), Acquire(positions, k, amount, cost).value;
            && At(next, k) == p.(quantity := p.quantity + amount, cost := p.cost + cost)
            && forall x | x != k :: At(next, x) == At(positions, x)
  {
  }

  // ---- One swap ----

  /** The sold leg of a swap before its disposal: short units are seeded at the swap's price. */
  ghost predicate Seeded(p: Position, seeded: Position, amountIn: nat, value: nat) {
    && seeded.quantity == (if p.quantity >= amountIn then p.quantity else amountIn)
    && seeded.realized == p.realized && seeded.cost >= p.cost
    && (p.quantity >= amountIn ==> seeded == p)
    && (p.quantity < amountIn ==>
          (seeded.cost - p.cost) * amountIn <= value * (amountIn - p.quantity) < (seeded.cost - p.cost + 1) * amountIn)
  }

  lemma SeedMissingSeeds(positions: Positions, s: Swap)
    requires SeedMissing(positions, s).Ok?
    ensures Seeded(At(positions, InKey(s)), At(SeedMissing(positions, s).value, InKey(s)), s.amountIn, s.value)
    ensures forall x | x != InKey(s) :: At(SeedMissing(positions, s).value, x) == At(positions, x)
  {
    if s.amountIn > 0 { SeedAtPrice(positions, s); }
    if Missing(positions, s) != 0 { AcquireAdds(positions, InKey(s), Missing(positions, s), SeedCost(positions, s)); }
  }

  /** Everything a recorded swap moves: the sold leg is seeded and disposed of, the bought leg gains
      the amount out at the swap's value, and no other position changes. */
  lemma SwapMoves(positions: Positions, s: Swap)
    requires ProjectSwap(positions, s).Ok? && s.assetIn != s.assetOut
    ensures var next := ProjectSwap(positions, s).value;
            && (exists seeded :: Seeded(At(positions, InKey(s)), seeded, s.amountIn, s.value)
                                 && Sold(seeded, At(next, InKey(s)), s.amountIn, s.value - SwapField(s, FeeTotal)))
            && At(next, OutKey(s)).quantity == At(positions, OutKey(s)).quantity + s.amountOut
            && At(next, OutKey(s)).cost == At(positions, OutKey(s)).cost + s.value
            && At(next, OutKey(s)).realized == At(positions, OutKey(s)).realized
            && forall x | x != InKey(s) && x != OutKey(s) :: At(next, x) == At(positions, x)
  {
    var seeded := SeedMissing(positions, s).value;
    var sold := Dispose(seeded, InKey(s), s.amountIn, s.value, Fee(s)).value;
    SeedMissingSeeds(positions, s);
    DisposeSells(seeded, InKey(s), s.amountIn, s.value, Fee(s));
    AcquireAdds(sold, OutKey(s), s.amountOut, s.value);
  }

  /** Selling an asset never held realizes the fee as a loss and nothing else. */
  lemma UnheldSellRealizesFee(positions: Positions, s: Swap)
    requires ProjectSwap(positions, s).Ok? && s.assetIn != s.assetOut && s.amountIn > 0 && InKey(s) !in positions
    ensures var sold := At(ProjectSwap(positions, s).value, InKey(s));
            sold.quantity == 0 && sold.cost == 0 && sold.realized == 0 - (s.lpFee + s.protocolFee + s.backstopFee + s.volatilityFee)
  {
    SwapMoves(positions, s);
    var seeded :| Seeded(FLAT, seeded, s.amountIn, s.value)
                  && Sold(seeded, At(ProjectSwap(positions, s).value, InKey(s)), s.amountIn, s.value - Fee(s));
    WholeSeed(seeded.cost, s.amountIn, s.value);
  }

  lemma WholeSeed(c: nat, a: nat, v: nat)
    requires a > 0 && c * a <= v * a < (c + 1) * a
    ensures c == v
  {
    if c < v { MulMono(a, c + 1, v); }
    if c > v { MulStep(a, v, c); }
  }

  // ---- Units over whole runs ----

  /** The position an external flow goes to. */
  function FlowKey(t: Tables, user: User, asset: Asset, amount: nat, time: Time): Key {
    match FlowValue(t, asset, amount, time)
    case Ok((quote, _)) => Key(user, asset, quote)
    case Err(_) => Key(user, asset, asset)
  }

  /** What one event leaves of `held` units: sales and redemptions take what is there, never more. */
  function UnitsAfter(t: Tables, e: Event, k: Key, held: nat): nat {
    match e
    case SwapEvent(s) =>
      if k == InKey(s) then Max(0, held - s.amountIn)
      else if k == OutKey(s) then held + s.amountOut
      else held
    case FlowEvent(kind, user, asset, amount, time) =>
      if k != FlowKey(t, user, asset, amount, time) then held
      else (match kind case Fund => held + amount case InitRedeem => held case Redeem => Max(0, held - amount))
    case OpeningEvent(key, quantity, _, _, _) => if k == key then quantity else held
    case MarkEvent(_) => held
  }

  function Units(journal: seq<Entry>, k: Key): nat {
    if |journal| == 0 then 0
    else
      var n := |journal| - 1;
      UnitsAfter(Stored(journal[..n]), journal[n].event, k, Units(journal[..n], k))
  }

  lemma FlowUnits(positions: Positions, k: Key, kind: FlowKind, amount: nat, value: nat, x: Key)
    requires FlowPositions(positions, k, kind, amount, value).Ok?
    ensures var held, next := At(positions, x).quantity, At(FlowPositions(positions, k, kind, amount, value).value, x).quantity;
            next == if x != k then held
                    else (match kind case Fund => held + amount case InitRedeem => held case Redeem => Max(0, held - amount))
  {
    match kind
    case InitRedeem =>
    case Fund => AcquireAdds(positions, k, amount, value);
    case Redeem =>
      var available := At(positions, k).quantity;
      if available < amount { AcquireAdds(positions, k, amount - available, 0); }
      DisposeSells(SeedFree(positions, k, amount).value, k, amount, value, 0);
  }

  lemma ProjectUnits(t: Tables, e: Event, k: Key)
    requires Project(t, e).Ok? && Precheck(e).None?
    ensures At(Project(t, e).value.positions, k).quantity == UnitsAfter(t, e, k, At(t.positions, k).quantity)
  {
    match e
    case SwapEvent(s) => SwapMoves(t.positions, s);
    case FlowEvent(kind, user, asset, amount, time) =>
      var (quote, value) := FlowValue(t, asset, amount, time).value;
      FlowUnits(t.positions, Key(user, asset, quote), kind, amount, value, k);
    case OpeningEvent(_, _, _, _, _) =>
    case MarkEvent(_) =>
  }

  lemma {:induction false} ReplayUnits(journal: seq<Entry>, k: Key)
    requires Replay(journal).Ok? && Sound(journal)
    ensures At(Replay(journal).value.positions, k).quantity == Units(journal, k)
  {
    if |journal| > 0 {
      var n := |journal| - 1;
      ReplayUnits(journal[..n], k);
      assert SoundEntry(journal[n]);
      ProjectUnits(Stored(journal[..n]), journal[n].event, k);
    }
  }

  /** Over any calls a position holds what was opened, bought and funded, less what was sold and
      redeemed, where nothing is sold or redeemed below zero. */
  lemma QuantityIsUnits(calls: seq<Entry>, k: Key)
    ensures At(Run(calls).tables.positions, k).quantity == Units(Run(calls).journal, k)
  {
    RunConsistent(calls);
    RunSound(calls);
    ReplayUnits(Run(calls).journal, k);
  }

  // ---- Marks ----

  predicate Applies(m: Mark, asset: Asset, quote: Option<Asset>, asOf: Time) {
    m.asset == asset && (quote == None || quote == Some(m.quote)) && m.time <= asOf
  }

  /** The mark looked up is the newest of the asset, in the wanted currency, up to the time; there is
      none only if none applies. */
  lemma LatestMarkApplies(marks: seq<Mark>, asset: Asset, quote: Option<Asset>, asOf: Time)
    ensures match LatestMark(marks, asset, quote, asOf)
            case None => forall m | m in marks :: !Applies(m, asset, quote, asOf)
            case Some(latest) =>
              latest in marks && Applies(latest, asset, quote, asOf)
              && forall m | m in marks && Applies(m, asset, quote, asOf) :: m.time <= latest.time
  {
    LatestMarkIsNewest(marks, asset, quote, asOf);
    forall m | m in marks ensures Candidate(m, asset, quote, asOf) <==> Applies(m, asset, quote, asOf) {
    }
  }

  /** The marks recorded by a journal, in its order. */
  function MarksOf(journal: seq<Entry>): seq<Mark> {
    if |journal| == 0 then []
    else
      var n := |journal| - 1;
      MarksOf(journal[..n]) + if journal[n].event.MarkEvent? then [journal[n].event.mark] else []
  }

  lemma {:induction false} ReplayMarks(journal: seq<Entry>)
    requires Replay(journal).Ok?
    ensures Replay(journal).value.marks == MarksOf(journal)
  {
    if |journal| > 0 { ReplayMarks(journal[..|journal| - 1]); }
  }

  ghost predicate SoundEntry(entry: Entry) {
    && entry.id != "" && TimeOf(entry.event) <= I64_MAX
    && (entry.event.SwapEvent? ==> entry.event.swap.assetIn != entry.event.swap.assetOut)
    && (entry.event.MarkEvent? ==> entry.event.mark.scale > 0)
  }

  ghost predicate Sound(journal: seq<Entry>) { forall i | 0 <= i < |journal| :: SoundEntry(journal[i]) }

  lemma RecordSound(b: Book, id: EventId, e: Event)
    requires Sound(b.journal)
    ensures Sound(Record(b, id, e).0.journal)
  {
    if Record(b, id, e).1 == Ok(true) { assert SoundEntry(Entry(id, e)); }
  }

  lemma {:induction false} RunSound(calls: seq<Entry>)
    ensures Sound(Run(calls).journal)
  {
    if |calls| > 0 {
      var n := |calls| - 1;
      RunSound(calls[..n]);
      RecordSound(Run(calls[..n]), calls[n].id, calls[n].event);
    }
  }

  /** Over any calls every journaled entry has an id and a storable time, a swap trades two assets and a
      mark has a scale; and the marks are those of the journal, in its order. */
  lemma JournalSound(calls: seq<Entry>)
    ensures var b := Run(calls); (forall i | 0 <= i < |b.journal| :: SoundEntry(b.journal[i])) && b.tables.marks == MarksOf(b.journal)
  {
    RunSound(calls);
    RunConsistent(calls);
    ReplayMarks(Run(calls).journal);
  }

  lemma {:induction false} MarksScaled(journal: seq<Entry>)
    requires Sound(journal)
    ensures forall m | m in MarksOf(journal) :: m.scale > 0
  {
    if |journal| > 0 {
      MarksScaled(journal[..|journal| - 1]);
      assert SoundEntry(journal[|journal| - 1]);
    }
  }

  /** Over any calls a flow of an asset without a mark counts at its own amount, in the asset itself; any
      other at the latest mark, in its currency, rounded down, and fails only if the product is too
      large. */
  lemma FlowValued(calls: seq<Entry>, asset: Asset, amount: nat, time: Time)
    ensures var t := Run(calls).tables;
            match LatestMark(t.marks, asset, None, time)
            case None => FlowValue(t, asset, amount, time) == Ok((asset, amount))
            case Some(m) =>
              && (FlowValue(t, asset, amount, time).Err? <==> amount * m.numerator > U128_MAX)
              && (FlowValue(t, asset, amount, time).Ok? ==>
                    var (quote, value) := FlowValue(t, asset, amount, time).value;
                    quote == m.quote && value * m.scale <= amount * m.numerator < (value + 1) * m.scale)
  {
    var b := Run(calls);
    JournalSound(calls);
    MarksScaled(b.journal);
    LatestMarkApplies(b.tables.marks, asset, None, time);
    if LatestMark(b.tables.marks, asset, None, time).Some? { WorthAtPrice(LatestMark(b.tables.marks, asset, None, time).value, amount); }
  }

  /** Unrealized P&L: none exactly when no mark in the position's currency applies, else its units at the
      latest such mark, rounded down, less its cost. */
  ghost predicate ValuedAtMark(marks: seq<Mark>, k: Key, p: Position, asOf: Time) {
    var gain := Unrealized(marks, k, p, asOf);
    && (gain == Ok(None) <==> forall m | m in marks :: !Applies(m, k.asset, Some(k.quote), asOf))
    && (gain.Ok? && gain.value.Some? ==>
          && LatestMark(marks, k.asset, Some(k.quote), asOf).Some?
          && var m, worth := LatestMark(marks, k.asset, Some(k.quote), asOf).value, gain.value.value + p.cost;
             worth * m.scale <= p.quantity * m.numerator < (worth + 1) * m.scale)
  }

  lemma MarkedPosition(marks: seq<Mark>, k: Key, p: Position, asOf: Time)
    requires asOf <= I64_MAX && forall m | m in marks :: m.scale > 0
    ensures ValuedAtMark(marks, k, p, asOf)
  {
    LatestMarkApplies(marks, k.asset, Some(k.quote), asOf);
    UnrealizedIsWorth(marks, k, p, asOf);
    if LatestMark(marks, k.asset, Some(k.quote), asOf).Some? {
      WorthAtPrice(LatestMark(marks, k.asset, Some(k.quote), asOf).value, p.quantity);
    }
  }

  /** Over any calls a position is valued at the marks. */
  lemma UnrealizedAtMark(calls: seq<Entry>, k: Key, p: Position, asOf: Time)
    requires asOf <= I64_MAX
    ensures ValuedAtMark(Run(calls).tables.marks, k, p, asOf)
  {
    JournalSound(calls);
    MarksScaled(Run(calls).journal);
    MarkedPosition(Run(calls).tables.marks, k, p, asOf);
  }

  lemma UnrealizedIsWorth(marks: seq<Mark>, k: Key, p: Position, asOf: Time)
    requires asOf <= I64_MAX
    ensures var latest, gain := LatestMark(marks, k.asset, Some(k.quote), asOf), Unrealized(marks, k, p, asOf);
            && (gain == Ok(None) <==> latest.None?)
            && (gain.Ok? && gain.value.Some? ==> Worth(latest.value, p.quantity) == Ok(gain.value.value + p.cost))
  {
  }

  // ---- What fits is accepted ----

  const SMALL: nat := 0x1000_0000_0000_0000

  /** Nothing in the position is near the width of its column. */
  ghost predicate Roomy(p: Position) {
    && p.quantity <= SMALL && p.cost <= SMALL && 0 - SMALL <= p.realized <= SMALL && p.fills <= SMALL
    && p.volume <= SMALL && p.fees <= SMALL && p.requested <= SMALL && p.filled <= SMALL && p.quoted <= SMALL
  }

  ghost predicate RoomySwap(s: Swap) {
    && s.assetIn != s.assetOut && s.amountIn > 0 && s.amountIn <= SMALL && s.amountOut <= SMALL && s.value <= SMALL && Fee(s) <= SMALL
    && OptionalAmount(s.requested) <= SMALL && OptionalAmount(s.quotedOut) <= SMALL && s.time <= I64_MAX
  }

  lemma SmallProduct(a: nat, b: nat)
    requires a <= 2 * SMALL && b <= 2 * SMALL
    ensures a * b <= U128_MAX
  {
    MulMono(a, b, 2 * SMALL);
    MulMono(2 * SMALL, a, 2 * SMALL);
  }

  lemma SmallSeed(positions: Positions, s: Swap)
    requires RoomySwap(s) && Roomy(At(positions, InKey(s)))
    ensures SeedMissing(positions, s).Ok? && InKey(s) in SeedMissing(positions, s).value
    ensures At(SeedMissing(positions, s).value, InKey(s)).cost <= 2 * SMALL
    ensures var p, seeded := At(positions, InKey(s)), At(SeedMissing(positions, s).value, InKey(s));
            seeded == p.(quantity := Max(p.quantity, s.amountIn), cost := seeded.cost)
  {
    var missing := Missing(positions, s);
    SmallProduct(s.value, missing);
    if missing > 0 { ShareBelow(s.value, missing, s.amountIn); }
  }

  lemma SmallDispose(positions: Positions, k: Key, amount: nat, proceeds: nat, fee: nat)
    requires k in positions && amount <= positions[k].quantity <= SMALL && positions[k].cost <= 2 * SMALL
    requires proceeds <= SMALL && fee <= SMALL && 0 - SMALL <= positions[k].realized <= SMALL && positions[k].fills <= SMALL
    ensures Dispose(positions, k, amount, proceeds, fee).Ok?
  {
    SmallProduct(positions[k].cost, amount);
  }

  /** A swap whose amounts, and whose two positions, are far from the columns' widths is recorded. */
  lemma SmallSwapAccepted(b: Book, id: EventId, s: Swap)
    requires id != "" && Find(b.journal, id).None? && RoomySwap(s)
    requires Roomy(At(b.tables.positions, InKey(s))) && Roomy(At(b.tables.positions, OutKey(s)))
    ensures Record(b, id, SwapEvent(s)).1 == Ok(true)
  {
    var positions := b.tables.positions;
    SmallSeed(positions, s);
    var seeded := SeedMissing(positions, s).value;
    SeedMissingSeeds(positions, s);
    SmallDispose(seeded, InKey(s), s.amountIn, s.value, Fee(s));
    var sold := Dispose(seeded, InKey(s), s.amountIn, s.value, Fee(s)).value;
    DisposeSells(seeded, InKey(s), s.amountIn, s.value, Fee(s));
    SmallPurchase(sold, s);
  }

  lemma SmallPurchase(positions: Positions, s: Swap)
    requires RoomySwap(s) && Roomy(At(positions, OutKey(s)))
    ensures Acquire(positions, OutKey(s), s.amountOut, s.value).Ok?
    ensures UpdateFills(Acquire(positions, OutKey(s), s.amountOut, s.value).value, s).Ok?
  {
  }
}
