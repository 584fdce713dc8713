/**
 Laws of the weighted-average-cost journal: the tables are a fold over the deduplicated journal, the
 book is P&L-neutral to the last unit, summaries equal sums over the journaled swaps, and rounding
 drift stays below one unit per disposal.
 */
module AnalyticsLaws {
  import opened Basics
  import opened Arith
  import opened Sums
  import opened Analytics

  // ---- Sums over a user's positions ----

  datatype Field = Net | Realized | Volume | FeeTotal | Fills | Requested | Filled | Quoted

  function Read(p: Position, f: Field): int {
    match f
    case Net => p.realized - p.cost
    case Realized => p.realized
    case Volume => p.volume
    case FeeTotal => p.fees
    case Fills => p.fills
    case Requested => p.requested
    case Filled => p.filled
    case Quoted => p.quoted
  }

  predicate Mine(k: Key, u: User, q: Asset) { k.user == u && k.quote == q }

  function Selected(positions: Positions, u: User, q: Asset): set<Key> {
    set k | k in positions && Mine(k, u, q)
  }

  ghost function Tally(positions: Positions, u: User, q: Asset, f: Field): int {
    SumOver(Selected(positions, u, q), (k: Key) => Read(At(positions, k), f))
  }

  lemma TallySet(positions: Positions, k: Key, p: Position, u: User, q: Asset, f: Field)
    ensures Tally(positions[k := p], u, q, f)
            == Tally(positions, u, q, f) + if Mine(k, u, q) then Read(p, f) - Read(At(positions, k), f) else 0
  {
    var next := positions[k := p];
    var g := (x: Key) => Read(At(positions, x), f);
    var h := (x: Key) => Read(At(next, x), f);
    var keys := Selected(positions, u, q);
    if !Mine(k, u, q) {
      assert Selected(next, u, q) == keys;
      SumSame(keys, g, h);
    } else if k in positions {
      assert Selected(next, u, q) == keys;
      SumChange(keys, g, h, k);
    } else {
      assert Selected(next, u, q) == keys + {k};
      SumAdd(keys, h, k);
      SumSame(keys, g, h);
    }
  }

  lemma AcquireTally(positions: Positions, k: Key, amount: nat, cost: nat, u: User, q: Asset, f: Field)
    requires Acquire(positions, k, amount, cost).Ok?
    ensures Tally(Acquire(positions, k, amount, cost).value, u, q, f)
            == Tally(positions, u, q, f) - if Mine(k, u, q) && f.Net? then cost else 0
  {
    TallySet(positions, k, Acquire(positions, k, amount, cost).value[k], u, q, f);
  }

  /** Whatever the allocation rounds to, it leaves cost and enters realized P&L: the net moves by the
      proceeds less the fee. */
  lemma DisposeTally(positions: Positions, k: Key, amount: nat, proceeds: nat, fee: nat, u: User, q: Asset, f: Field)
    requires Dispose(positions, k, amount, proceeds, fee).Ok? && !f.Realized?
    ensures Tally(Dispose(positions, k, amount, proceeds, fee).value, u, q, f)
            == Tally(positions, u, q, f) + if Mine(k, u, q) && f.Net? then proceeds - fee else 0
  {
    TallySet(positions, k, Dispose(positions, k, amount, proceeds, fee).value[k], u, q, f);
  }

  // ---- What each event contributes ----

  /** What a journaled swap adds to a summary field. */
  function SwapField(s: Swap, f: Field): int {
    match f
    case Volume => s.value
    case FeeTotal => s.lpFee + s.protocolFee + s.backstopFee + s.volatilityFee
    case Fills => 1
    case Requested => OptionalAmount(s.requested)
    case Filled => s.amountOut
    case Quoted => OptionalAmount(s.quotedOut)
    case _ => 0
  }

  lemma SeedTally(positions: Positions, s: Swap, u: User, q: Asset, f: Field)
    requires SeedMissing(positions, s).Ok?
    ensures Tally(SeedMissing(positions, s).value, u, q, f)
            == Tally(positions, u, q, f) - if Mine(InKey(s), u, q) && f.Net? then SeedCost(positions, s) else 0
  {
    if Missing(positions, s) != 0 {
      AcquireTally(positions, InKey(s), Missing(positions, s), SeedCost(positions, s), u, q, f);
    }
  }

  lemma FillsTally(positions: Positions, s: Swap, u: User, q: Asset, f: Field)
    requires UpdateFills(positions, s).Ok? && !f.Realized?
    ensures Tally(UpdateFills(positions, s).value, u, q, f)
            == Tally(positions, u, q, f) + if Mine(OutKey(s), u, q) then SwapField(s, f) else 0
  {
    TallySet(positions, OutKey(s), UpdateFills(positions, s).value[OutKey(s)], u, q, f);
  }

  lemma SwapTally(positions: Positions, s: Swap, u: User, q: Asset, f: Field)
    requires ProjectSwap(positions, s).Ok? && !f.Realized?
    ensures Tally(ProjectSwap(positions, s).value, u, q, f)
            == Tally(positions, u, q, f)
               + if s.user == u && s.quote == q
                 then SwapField(s, f) - (if f.Net? then Fee(s) + SeedCost(positions, s) else 0) else 0
  {
    var seeded := SeedMissing(positions, s).value;
    var sold := Dispose(seeded, InKey(s), s.amountIn, s.value, Fee(s)).value;
    var bought := Acquire(sold, OutKey(s), s.amountOut, s.value).value;
    SeedTally(positions, s, u, q, f);
    DisposeTally(seeded, InKey(s), s.amountIn, s.value, Fee(s), u, q, f);
    AcquireTally(sold, OutKey(s), s.amountOut, s.value, u, q, f);
    FillsTally(bought, s, u, q, f);
  }

  /** The streams of value in one currency; all but announced redemptions move a user's net. */
  datatype Stream = Openings | SwapFees | SeededBasis | Funded | Redeemed | Announced

  function StreamOf(kind: FlowKind): Stream {
    match kind
    case Fund => Funded
    case InitRedeem => Announced
    case Redeem => Redeemed
  }

  /** What an event adds to a stream, given the tables it is projected onto. */
  function Amount(t: Tables, e: Event, u: User, q: Asset, stream: Stream): int {
    match e
    case SwapEvent(s) =>
      if s.user != u || s.quote != q then 0
      else if stream.SwapFees? then SwapField(s, FeeTotal)
      else if stream.SeededBasis? then SeedCost(t.positions, s)
      else 0
    case FlowEvent(kind, user, asset, amount, time) =>
      (match FlowValue(t, asset, amount, time)
       case Err(_) => 0
       case Ok((quote, value)) =>
         if user == u && quote == q && stream == StreamOf(kind) then value else 0)
    case OpeningEvent(key, _, cost, realized, _) =>
      if Mine(key, u, q) && stream.Openings? then realized - cost else 0
    case MarkEvent(_) => 0
  }

  function Balance(t: Tables, e: Event, u: User, q: Asset): int {
    Amount(t, e, u, q, Openings) - Amount(t, e, u, q, SwapFees) - Amount(t, e, u, q, SeededBasis)
    - Amount(t, e, u, q, Funded) + Amount(t, e, u, q, Redeemed)
  }

  function FieldAmount(e: Event, u: User, q: Asset, f: Field): int {
    if e.SwapEvent? && e.swap.user == u && e.swap.quote == q then SwapField(e.swap, f) else 0
  }

  lemma FlowTally(positions: Positions, k: Key, kind: FlowKind, amount: nat, value: nat, u: User, q: Asset, f: Field)
    requires FlowPositions(positions, k, kind, amount, value).Ok? && !f.Realized?
    ensures Tally(FlowPositions(positions, k, kind, amount, value).value, u, q, f)
            == Tally(positions, u, q, f)
               + if Mine(k, u, q) && f.Net? then (match kind case Fund => 0 - value case Redeem => value case InitRedeem => 0) else 0
  {
    match kind
    case InitRedeem =>
    case Fund => AcquireTally(positions, k, amount, value, u, q, f);
    case Redeem =>
      var available := At(positions, k).quantity;
      if available < amount { AcquireTally(positions, k, amount - available, 0, u, q, f); }
      DisposeTally(SeedFree(positions, k, amount).value, k, amount, value, 0, u, q, f);
  }

  /** A projected event moves the net by its streams and the summary fields by its own amounts. */
  lemma ProjectTally(t: Tables, e: Event, u: User, q: Asset, f: Field)
    requires Project(t, e).Ok? && !f.Realized?
    ensures Tally(Project(t, e).value.positions, u, q, f)
            == Tally(t.positions, u, q, f) + if f.Net? then Balance(t, e, u, q) else FieldAmount(e, u, q, f)
  {
    match e
    case SwapEvent(s) => SwapTally(t.positions, s, u, q, f);
    case FlowEvent(kind, user, asset, amount, time) =>
      var (quote, value) := FlowValue(t, asset, amount, time).value;
      FlowTally(t.positions, Key(user, asset, quote), kind, amount, value, u, q, f);
    case OpeningEvent(key, quantity, cost, realized, _) =>
      TallySet(t.positions, key, FLAT.(quantity := quantity, cost := cost, realized := realized), u, q, f);
    case MarkEvent(_) =>
  }

  // ---- The tables are a fold over the deduplicated journal ----

  function Replay(journal: seq<Entry>): Result<Tables, Error>
  {
    if |journal| == 0 then Ok(NO_TABLES)
    else
      var t :- Replay(journal[..|journal| - 1]);
      Project(t, journal[|journal| - 1].event)
  }

  ghost predicate Consistent(b: Book) {
    && Replay(b.journal) == Ok(b.tables)
    && (forall i, j | 0 <= i < j < |b.journal| :: b.journal[i].id != b.journal[j].id)
  }

  lemma {:induction false} FindSound(journal: seq<Entry>, id: EventId)
    ensures Find(journal, id).None? <==> forall i | 0 <= i < |journal| :: journal[i].id != id
    ensures Find(journal, id).Some? ==> Entry(id, Find(journal, id).value) in journal
  {
    if journal != [] {
      var n := |journal| - 1;
      FindSound(journal[..n], id);
      assert journal == journal[..n] + [journal[n]];
    }
  }

  /** Recording keeps the tables equal to the fold and the journal free of duplicates. */
  lemma RecordConsistent(b: Book, id: EventId, e: Event)
    requires Consistent(b)
    ensures Consistent(Record(b, id, e).0)
  {
    var next := Record(b, id, e).0;
    if next != b {
      FindSound(b.journal, id);
      assert next.journal[..|b.journal|] == b.journal;
    }
  }

  const EMPTY := Book([], NO_TABLES)

  /** The book after a sequence of calls, successful or not, with or without replays. */
  function Run(calls: seq<Entry>): Book
  {
    if |calls| == 0 then EMPTY
    else Record(Run(calls[..|calls| - 1]), calls[|calls| - 1].id, calls[|calls| - 1].event).0
  }

  lemma {:induction false} RunConsistent(calls: seq<Entry>)
    ensures Consistent(Run(calls))
  {
    if |calls| > 0 {
      var n := |calls| - 1;
      RunConsistent(calls[..n]);
      RecordConsistent(Run(calls[..n]), calls[n].id, calls[n].event);
    }
  }

  lemma FindKept(b: Book, id: EventId, e: Event, other: EventId)
    requires Find(b.journal, other).Some?
    ensures Find(Record(b, id, e).0.journal, other) == Find(b.journal, other)
  {
    var next := Record(b, id, e).0;
    if next != b { assert next.journal[..|b.journal|] == b.journal; }
  }

  lemma {:induction false} FoundForever(calls: seq<Entry>, more: seq<Entry>, id: EventId)
    requires Find(Run(calls).journal, id).Some?
    ensures Find(Run(calls + more).journal, id) == Find(Run(calls).journal, id)
    decreases |more|
  {
    if more == [] {
      assert calls + more == calls;
    } else {
      var n := |more| - 1;
      FoundForever(calls, more[..n], id);
      assert (calls + more)[..|calls| + n] == calls + more[..n];
      FindKept(Run(calls + more[..n]), more[n].id, more[n].event, id);
    }
  }

  lemma CallAppended(calls: seq<Entry>, id: EventId, e: Event)
    ensures Run(calls + [Entry(id, e)]) == Record(Run(calls), id, e).0
  {
    assert (calls + [Entry(id, e)])[..|calls|] == calls;
  }

  lemma AcceptedIsFound(b: Book, id: EventId, e: Event)
    requires Record(b, id, e).1 == Ok(true)
    ensures Find(Record(b, id, e).0.journal, id) == Some(e)
    ensures Precheck(e).None? && id != "" && TimeOf(e) <= I64_MAX
  {
  }

  lemma FoundAnswers(b: Book, id: EventId, e: Event, other: Event)
    requires Find(b.journal, id) == Some(e) && Precheck(e).None? && id != "" && TimeOf(e) <= I64_MAX
    ensures Record(b, id, e) == (b, Ok(false))
    ensures other != e ==> Record(b, id, other).0 == b && Record(b, id, other).1.Err?
  {
  }

  /** Once an event was recorded, every later exact replay is accepted without effect and every
      later use of its id with other content is refused without effect. */
  lemma ReplaysChangeNothing(calls: seq<Entry>, id: EventId, e: Event, more: seq<Entry>, other: Event)
    requires Record(Run(calls), id, e).1 == Ok(true)
    ensures var later := Run(calls + [Entry(id, e)] + more);
            && Record(later, id, e) == (later, Ok(false))
            && (other != e ==> Record(later, id, other).0 == later && Record(later, id, other).1.Err?)
  {
    var first := calls + [Entry(id, e)];
    CallAppended(calls, id, e);
    AcceptedIsFound(Run(calls), id, e);
    FoundForever(first, more, id);
    FoundAnswers(Run(first + more), id, e, other);
  }

  // ---- P&L neutrality ----

  function Stored(journal: seq<Entry>): Tables { if Replay(journal).Ok? then Replay(journal).value else NO_TABLES }

  function StreamTotal(journal: seq<Entry>, u: User, q: Asset, stream: Stream): int
  {
    if |journal| == 0 then 0
    else
      var n := |journal| - 1;
      StreamTotal(journal[..n], u, q, stream) + Amount(Stored(journal[..n]), journal[n].event, u, q, stream)
  }

  function FieldTotal(journal: seq<Entry>, u: User, q: Asset, f: Field): int
  {
    if |journal| == 0 then 0
    else FieldTotal(journal[..|journal| - 1], u, q, f) + FieldAmount(journal[|journal| - 1].event, u, q, f)
  }

  lemma {:induction false} ReplayTally(journal: seq<Entry>, u: User, q: Asset, f: Field)
    requires Replay(journal).Ok? && !f.Realized?
    ensures Tally(Replay(journal).value.positions, u, q, f)
            == if f.Net?
               then StreamTotal(journal, u, q, Openings) - StreamTotal(journal, u, q, SwapFees)
                    - StreamTotal(journal, u, q, SeededBasis) - StreamTotal(journal, u, q, Funded)
                    + StreamTotal(journal, u, q, Redeemed)
               else FieldTotal(journal, u, q, f)
  {
    if |journal| == 0 {
      assert Selected(map[], u, q) == {};
    } else {
      var n := |journal| - 1;
      ReplayTally(journal[..n], u, q, f);
      ProjectTally(Stored(journal[..n]), journal[n].event, u, q, f);
    }
  }

  /** Over any calls, the sum of realized P&L less cost of a user's positions in one currency is
      openings less fees, seeded basis and funded value, plus redeemed value: to the unit, whatever
      the floor divisions rounded. */
  lemma PnlNeutral(calls: seq<Entry>, u: User, q: Asset)
    ensures var b := Run(calls);
            Tally(b.tables.positions, u, q, Net)
            == StreamTotal(b.journal, u, q, Openings) - StreamTotal(b.journal, u, q, SwapFees)
               - StreamTotal(b.journal, u, q, SeededBasis) - StreamTotal(b.journal, u, q, Funded)
               + StreamTotal(b.journal, u, q, Redeemed)
  {
    RunConsistent(calls);
    ReplayTally(Run(calls).journal, u, q, Net);
  }

  /** Volume, fees, fills and the amount metrics of a user's positions equal the sums over the user's
      journaled swaps in that currency. */
  lemma SummaryMatchesJournal(calls: seq<Entry>, u: User, q: Asset, f: Field)
    requires !f.Net? && !f.Realized?
    ensures Tally(Run(calls).tables.positions, u, q, f) == FieldTotal(Run(calls).journal, u, q, f)
  {
    RunConsistent(calls);
    ReplayTally(Run(calls).journal, u, q, f);
  }

  // ---- Cash totals ----

  function CashTotal(cash: map<(User, Asset), Cash>, u: User, q: Asset, stream: Stream): int {
    if (u, q) !in cash then 0
    else match stream
      case Funded => cash[(u, q)].deposits
      case Announced => cash[(u, q)].initiated
      case Redeemed => cash[(u, q)].withdrawals
      case _ => 0
  }

  lemma ProjectCash(t: Tables, e: Event, u: User, q: Asset, stream: Stream)
    requires Project(t, e).Ok? && (stream.Funded? || stream.Announced? || stream.Redeemed?)
    ensures CashTotal(Project(t, e).value.cash, u, q, stream) == CashTotal(t.cash, u, q, stream) + Amount(t, e, u, q, stream)
  {
  }

  lemma {:induction false} ReplayCash(journal: seq<Entry>, u: User, q: Asset, stream: Stream)
    requires Replay(journal).Ok? && (stream.Funded? || stream.Announced? || stream.Redeemed?)
    ensures CashTotal(Replay(journal).value.cash, u, q, stream) == StreamTotal(journal, u, q, stream)
  {
    if |journal| > 0 {
      var n := |journal| - 1;
      ReplayCash(journal[..n], u, q, stream);
      ProjectCash(Stored(journal[..n]), journal[n].event, u, q, stream);
    }
  }

  /** Deposits, announced and settled withdrawals of a user equal the journaled flows, valued at
      their marks. */
  lemma CashMatchesJournal(calls: seq<Entry>, u: User, q: Asset, stream: Stream)
    requires stream.Funded? || stream.Announced? || stream.Redeemed?
    ensures CashTotal(Run(calls).tables.cash, u, q, stream) == StreamTotal(Run(calls).journal, u, q, stream)
  {
    RunConsistent(calls);
    ReplayCash(Run(calls).journal, u, q, stream);
  }

  /** The i-th mark is the newest candidate, the last among equals. */
  ghost predicate IsNewest(marks: seq<Mark>, i: nat, asset: Asset, quote: Option<Asset>, asOf: Time) {
    && i < |marks| && Candidate(marks[i], asset, quote, asOf)
    && forall j | 0 <= j < |marks| && Candidate(marks[j], asset, quote, asOf) ::
         if j <= i then marks[j].time <= marks[i].time else marks[j].time < marks[i].time
  }

  ghost predicate NoCandidate(marks: seq<Mark>, asset: Asset, quote: Option<Asset>, asOf: Time) {
    forall i | 0 <= i < |marks| :: !Candidate(marks[i], asset, quote, asOf)
  }

  lemma NewestOfOne(front: seq<Mark>, m: Mark, asset: Asset, quote: Option<Asset>, asOf: Time)
    requires NoCandidate(front, asset, quote, asOf)
    ensures if Candidate(m, asset, quote, asOf) then IsNewest(front + [m], |front|, asset, quote, asOf) else NoCandidate(front + [m], asset, quote, asOf)
  {
    assert forall j | 0 <= j < |front| :: (front + [m])[j] == front[j];
  }

  lemma NewestOfMore(front: seq<Mark>, m: Mark, i: nat, asset: Asset, quote: Option<Asset>, asOf: Time)
    requires IsNewest(front, i, asset, quote, asOf)
    ensures IsNewest(front + [m], if Candidate(m, asset, quote, asOf) && m.time >= front[i].time then |front| else i, asset, quote, asOf)
  {
    assert forall j | 0 <= j < |front| :: (front + [m])[j] == front[j];
  }

  /** The mark used is the newest candidate at or before the time, the last recorded among equals. */
  lemma {:induction false} LatestMarkIsNewest(marks: seq<Mark>, asset: Asset, quote: Option<Asset>, asOf: Time)
    ensures match LatestMark(marks, asset, quote, asOf)
            case None => NoCandidate(marks, asset, quote, asOf)
            case Some(m) => exists i: nat :: IsNewest(marks, i, asset, quote, asOf) && marks[i] == m
  {
    if marks != [] {
      var front, m := marks[..|marks| - 1], marks[|marks| - 1];
      LatestMarkIsNewest(front, asset, quote, asOf);
      assert marks == front + [m];
      if LatestMark(front, asset, quote, asOf).None? {
        NewestOfOne(front, m, asset, quote, asOf);
      } else {
        var i: nat :| IsNewest(front, i, asset, quote, asOf) && front[i] == LatestMark(front, asset, quote, asOf).value;
        NewestOfMore(front, m, i, asset, quote, asOf);
      }
    }
  }

  // ---- A swap's disposal ----

  /** After seeding, a sell never lacks quantity; it meets no position only if it sells nothing of an
      asset the user never held. */
  lemma DisposalNeverShort(positions: Positions, s: Swap)
    requires SeedMissing(positions, s).Ok?
    ensures var r := Dispose(SeedMissing(positions, s).value, InKey(s), s.amountIn, s.value, Fee(s));
            && r != Err(ExceedsPosition)
            && (r == Err(Untracked) <==> s.amountIn == 0 && InKey(s) !in positions)
  {
    var seeded := SeedMissing(positions, s).value;
    assert At(seeded, InKey(s)).quantity >= s.amountIn;
  }

  // ---- Rounding drift ----

  datatype Sale = Sale(amount: nat, proceeds: nat, fee: nat)

  function SellAll(positions: Positions, k: Key, sales: seq<Sale>): Result<Positions, Error>
  {
    if |sales| == 0 then Ok(positions)
    else
      var n := |sales| - 1;
      var before :- SellAll(positions, k, sales[..n]);
      Dispose(before, k, sales[n].amount, sales[n].proceeds, sales[n].fee)
  }

  /** One floor allocation keeps the remaining cost within one unit above its exact share. */
  lemma AllocationBounds(p: Position, a: nat)
    requires a < p.quantity
    ensures var q', c' := p.quantity - a, p.cost - Allocated(p, a);
            p.cost * q' <= c' * p.quantity < p.cost * q' + p.quantity
  {
    var q, c, x := p.quantity, p.cost, Allocated(p, a);
    assert q * x <= c * a < q * x + q;
    assert (c - x) * q == c * q - q * x;
    assert c * (q - a) == c * q - c * a;
  }

  lemma DriftStep(q0: nat, c0: nat, q: nat, c: nat, q': nat, c': nat, n: nat)
    requires 0 < q && q' <= q && c * q' <= c' * q < c * q' + q && q0 > 0
    requires c0 * q <= c * q0 <= c0 * q + n * q0
    ensures c0 * q' <= c' * q0 < c0 * q' + (n + 1) * q0
  {
    DriftLower(q0, c0, q, c, q', c');
    DriftUpper(q0, c0, q, c, q', c', n);
  }

  // Both bounds: multiply by q, then cancel it.

  lemma DriftLower(q0: nat, c0: nat, q: nat, c: nat, q': nat, c': nat)
    requires 0 < q && c * q' <= c' * q && c0 * q <= c * q0
    ensures c0 * q' <= c' * q0
  {
    MulMono(q', c0 * q, c * q0);
    MulMono(q0, c * q', c' * q);
    Swap3(q', c0, q);
    Swap3(q', c, q0);
    Swap3(q0, c', q);
    MulCancel(q, c0 * q', c' * q0);
  }

  lemma DriftUpper(q0: nat, c0: nat, q: nat, c: nat, q': nat, c': nat, n: nat)
    requires 0 < q && q' <= q && c' * q < c * q' + q && q0 > 0 && c * q0 <= c0 * q + n * q0
    ensures c' * q0 < c0 * q' + (n + 1) * q0
  {
    MulMono(q', c * q0, c0 * q + n * q0);
    MulMono(n * q0, q', q);
    StrictMul(q0, c' * q, c * q' + q);
    Swap3(q', c, q0);
    Swap3(q', c0, q);
    Swap3(q0, c', q);
    Spread(q', c0 * q, n * q0);
    Spread(q0, c * q', q);
    Spread(q, c0 * q', (n + 1) * q0);
    assert (n + 1) * q0 == n * q0 + q0;
    Spread(q, n * q0, q0);
    StrictCancel(q, c' * q0, c0 * q' + (n + 1) * q0);
  }

  lemma Swap3(x: nat, y: nat, z: nat)
    ensures x * (y * z) == z * (y * x)
  {
  }

  lemma Spread(x: nat, y: nat, z: nat)
    ensures x * (y + z) == x * y + x * z
  {
  }

  lemma StrictMul(p: nat, a: int, b: int)
    requires p > 0 && a < b
    ensures p * a < p * b
  {
    MulStep(p, a, b);
  }

  lemma StrictCancel(p: nat, a: int, b: int)
    requires p * a < p * b
    ensures a < b
  {
    if b <= a { MulMono(p, b, a); }
  }

  /** After n disposals without acquisitions, the remaining cost is at least its exact share of the
      original cost and exceeds it by less than n units (by nothing when n is zero). */
  lemma {:induction false} WacDrift(positions: Positions, k: Key, sales: seq<Sale>)
    requires k in positions && positions[k].quantity > 0 && SellAll(positions, k, sales).Ok?
    ensures k in SellAll(positions, k, sales).value
    ensures var p0, p, n := positions[k], SellAll(positions, k, sales).value[k], |sales|;
            && p0.cost * p.quantity <= p.cost * p0.quantity <= p0.cost * p.quantity + n * p0.quantity
            && (n > 0 ==> p.cost * p0.quantity < p0.cost * p.quantity + n * p0.quantity)
    decreases |sales|
  {
    if |sales| > 0 {
      var n := |sales| - 1;
      WacDrift(positions, k, sales[..n]);
      var p0, p := positions[k], SellAll(positions, k, sales[..n]).value[k];
      var p' := SellAll(positions, k, sales).value[k];
      if sales[n].amount == p.quantity {
        assert p'.quantity == 0 && p'.cost == 0;
        assert (n + 1) * p0.quantity > 0;
      } else {
        AllocationBounds(p, sales[n].amount);
        DriftStep(p0.quantity, p0.cost, p.quantity, p.cost, p'.quantity, p'.cost, n);
      }
    }
  }
}
