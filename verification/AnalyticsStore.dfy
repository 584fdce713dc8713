/**
 The analytics store as the object the program uses (src/analytics_store.rs): each call loads, changes
 and saves rows on working copies and commits them together with the journal entry.
 */
module AnalyticsStore {
  import opened Basics
  import opened Sums
  import opened Analytics
  import opened AnalyticsLaws

  /** The sums of a user summary. */
  datatype Summary = Summary(realized: int, volume: nat, fees: nat, fills: nat, requested: nat, filled: nat, quoted: nat)

  /** Unrealized and total P&L are absent while an open position has no mark. */
  datatype Report = Report(sums: Summary, unrealized: Option<int>, total: Option<int>)

  class Store {
    var journal: seq<Entry>
    var positions: map<Key, Position>
    var cash: map<(User, Asset), Cash>
    var marks: seq<Mark>

    function Value(): Book
      reads this
    {
      Book(journal, Tables(positions, cash, marks))
    }

    constructor ()
      ensures Value() == EMPTY
    {
      journal, positions, cash, marks := [], map[], map[], [];
    }

    /** Whether the event is new: `Ok(false)` is an exact replay. */
    method CheckEvent(id: EventId, e: Event) returns (r: Result<bool, Error>)
      ensures r == Ok(true) <==> id != "" && TimeOf(e) <= I64_MAX && Find(journal, id).None?
      ensures r != Ok(true) && Precheck(e).None? ==> Record(Value(), id, e) == (Value(), r)
    {
      if id == "" { return Err(EmptyId); }
      if TimeOf(e) > I64_MAX { return Err(OutOfRange); }
      var stored := Find(journal, id);
      if stored.Some? { return if stored.value == e then Ok(false) else Err(Replayed); }
      r := Ok(true);
    }

    method RecordSwap(id: EventId, s: Swap) returns (r: Result<bool, Error>)
      modifies this
      ensures (Value(), r) == Record(old(Value()), id, SwapEvent(s))
    {
      if s.assetIn == s.assetOut { return Err(SameAssets); }
      var isNew := CheckEvent(id, SwapEvent(s));
      if isNew != Ok(true) { return isNew; }
      var projected := ProjectSwapRows(s);
      if projected.Err? { return Err(projected.error); }
      positions := projected.value;
      journal := journal + [Entry(id, SwapEvent(s))];
      r := Ok(true);
    }

    /** Seeds the missing basis, disposes of the sold leg, acquires the bought leg, counts the fill. */
    method ProjectSwapRows(s: Swap) returns (r: Result<map<Key, Position>, Error>)
      ensures r == ProjectSwap(positions, s)
    {
      var fee :- TotalFee(s);
      var rows := positions;
      if s.amountIn != 0 {
        var available := At(rows, InKey(s)).quantity;
        if available < s.amountIn {
          var missing := s.amountIn - available;
          if s.value * missing > U128_MAX { return Err(Overflow); }
          rows :- Acquire(rows, InKey(s), missing, SeedCost(positions, s));
        }
      }
      rows :- Dispose(rows, InKey(s), s.amountIn, s.value, fee);
      rows :- Acquire(rows, OutKey(s), s.amountOut, s.value);
      rows :- UpdateFills(rows, s);
      r := Ok(rows);
    }

    method RecordCashFlow(id: EventId, kind: FlowKind, user: User, asset: Asset, amount: nat, time: Time)
      returns (r: Result<bool, Error>)
      modifies this
      ensures (Value(), r) == Record(old(Value()), id, FlowEvent(kind, user, asset, amount, time))
    {
      var e := FlowEvent(kind, user, asset, amount, time);
      var isNew := CheckEvent(id, e);
      if isNew != Ok(true) { return isNew; }
      var valued :- FlowValue(Tables(positions, cash, marks), asset, amount, time);
      var (quote, value) := valued;
      var totals :- AddCash(cash, (user, quote), kind, value);
      var rows, k := positions, Key(user, asset, quote);
      if kind.Fund? {
        rows :- Acquire(rows, k, amount, value);
      } else if kind.Redeem? {
        var available := At(rows, k).quantity;
        if available < amount { rows :- Acquire(rows, k, amount - available, 0); }
        rows :- Dispose(rows, k, amount, value, 0);
      }
      cash, positions, journal := totals, rows, journal + [Entry(id, e)];
      r := Ok(true);
    }

    method RecordOpeningPosition(id: EventId, k: Key, quantity: nat, cost: nat, realized: int, time: Time)
      returns (r: Result<bool, Error>)
      modifies this
      ensures (Value(), r) == Record(old(Value()), id, OpeningEvent(k, quantity, cost, realized, time))
    {
      var e := OpeningEvent(k, quantity, cost, realized, time);
      var isNew := CheckEvent(id, e);
      if isNew != Ok(true) { return isNew; }
      if k in positions { return Err(LateOpening); }
      var rows :- Save(positions, k, FLAT.(quantity := quantity, cost := cost, realized := realized));
      positions, journal := rows, journal + [Entry(id, e)];
      r := Ok(true);
    }

    method RecordMark(id: EventId, mark: Mark) returns (r: Result<bool, Error>)
      modifies this
      ensures (Value(), r) == Record(old(Value()), id, MarkEvent(mark))
    {
      if mark.scale == 0 { return Err(ZeroScale); }
      var isNew := CheckEvent(id, MarkEvent(mark));
      if isNew != Ok(true) { return isNew; }
      marks, journal := marks + [mark], journal + [Entry(id, MarkEvent(mark))];
      r := Ok(true);
    }

    /** Values each position of a user in one currency and adds them up; the unrealized and total
        figures appear only when every open position has a mark. */
    method UserSummary(u: User, q: Asset, asOf: Time) returns (r: Result<Report, Error>)
      ensures r.Ok? ==> Reports(r.value, Value().tables, u, q, asOf)
      ensures r.Err? ==> Unreportable(Value().tables, u, q, asOf)
    {
      var rest := Selected(positions, u, q);
      ghost var done, t := {}, Value().tables;
      var sum, gains, allMarked := Summary(0, 0, 0, 0, 0, 0, 0), 0, true;
      while rest != {}
        invariant done + rest == Selected(positions, u, q) && done * rest == {}
        invariant SumsOver(sum, positions, done) && InRange(sum)
        invariant gains == Gains(t, done, asOf) && SignedRange(gains).Ok?
        invariant Valued(t, done, asOf) && allMarked == MarkedAll(t, done, asOf)
        decreases rest
      {
        var k :| k in rest;
        var p := positions[k];
        var gain := Unrealized(marks, k, p, asOf);
        if gain.Err? { return Err(gain.error); }
        AddPosition(sum, positions, done, k);
        AddGain(t, done, k, asOf);
        sum := Summary(sum.realized + p.realized, sum.volume + p.volume, sum.fees + p.fees, sum.fills + p.fills,
                       sum.requested + p.requested, sum.filled + p.filled, sum.quoted + p.quoted);
        done, rest := done + {k}, rest - {k};
        if !InRange(sum) { return Err(Overflow); }
        if gain.value.Some? {
          gains := gains + gain.value.value;
          if SignedRange(gains).Err? { return Err(Overflow); }
        } else if p.quantity != 0 {
          allMarked := false;
        }
      }
      assert done == Selected(positions, u, q);
      if !allMarked { return Ok(Report(sum, None, None)); }
      assert Part(sum, Realized) == Tally(positions, u, q, Realized);
      if SignedRange(sum.realized + gains).Err? { return Err(Overflow); }
      r := Ok(Report(sum, Some(gains), Some(sum.realized + gains)));
    }
  }

  // ---- Valuations ----

  function Gain(t: Tables, k: Key, asOf: Time): int {
    match Unrealized(t.marks, k, At(t.positions, k), asOf)
    case Ok(Some(gain)) => gain
    case _ => 0
  }

  ghost function Gains(t: Tables, keys: set<Key>, asOf: Time): int { SumOver(keys, (k: Key) => Gain(t, k, asOf)) }

  ghost predicate Valued(t: Tables, keys: set<Key>, asOf: Time) {
    forall k | k in keys :: Unrealized(t.marks, k, At(t.positions, k), asOf).Ok?
  }

  /** Every position that holds anything has a mark in its currency. */
  ghost predicate MarkedAll(t: Tables, keys: set<Key>, asOf: Time) {
    forall k | k in keys && At(t.positions, k).quantity != 0 :: LatestMark(t.marks, k.asset, Some(k.quote), asOf).Some?
  }

  /** What a summary says: the sums, and the marked figures if they are complete. */
  ghost predicate Reports(report: Report, t: Tables, u: User, q: Asset, asOf: Time) {
    var keys := Selected(t.positions, u, q);
    && Valued(t, keys, asOf) && Summarises(report.sums, t.positions, u, q) && InRange(report.sums)
    && report.unrealized == (if MarkedAll(t, keys, asOf) then Some(Gains(t, keys, asOf)) else None)
    && report.total == (if MarkedAll(t, keys, asOf) then Some(report.sums.realized + Gains(t, keys, asOf)) else None)
    && (report.total.Some? ==> SignedRange(report.total.value).Ok?)
  }

  /** Why there is none: a position cannot be valued, the sums over some of the positions do not fit,
      or the total does not. */
  ghost predicate Unreportable(t: Tables, u: User, q: Asset, asOf: Time) {
    var keys := Selected(t.positions, u, q);
    || !Valued(t, keys, asOf)
    || (exists some, sum :: some <= keys && SumsOver(sum, t.positions, some) && !(InRange(sum) && SignedRange(Gains(t, some, asOf)).Ok?))
    || (MarkedAll(t, keys, asOf) && SignedRange(Tally(t.positions, u, q, Realized) + Gains(t, keys, asOf)).Err?)
  }

  lemma AddGain(t: Tables, done: set<Key>, k: Key, asOf: Time)
    requires k !in done
    ensures Gains(t, done + {k}, asOf) == Gains(t, done, asOf) + Gain(t, k, asOf)
  {
    SumAdd(done, (x: Key) => Gain(t, x, asOf), k);
  }

  /** The checked additions of one position all succeed. */
  predicate InRange(sum: Summary) {
    && SignedRange(sum.realized).Ok? && Unsigned(sum.volume).Ok? && Unsigned(sum.fees).Ok? && sum.fills <= U64_MAX
    && Unsigned(sum.requested).Ok? && Unsigned(sum.filled).Ok? && Unsigned(sum.quoted).Ok?
  }

  function Part(sum: Summary, f: Field): int {
    match f
    case Net => 0
    case Realized => sum.realized
    case Volume => sum.volume
    case FeeTotal => sum.fees
    case Fills => sum.fills
    case Requested => sum.requested
    case Filled => sum.filled
    case Quoted => sum.quoted
  }

  ghost predicate SumsOver(sum: Summary, positions: Positions, keys: set<Key>) {
    forall f: Field | !f.Net? :: Part(sum, f) == SumOver(keys, (k: Key) => Read(At(positions, k), f))
  }

  /** Every field of the summary is the sum over the user's positions. */
  ghost predicate Summarises(sum: Summary, positions: Positions, u: User, q: Asset) {
    forall f: Field | !f.Net? :: Part(sum, f) == Tally(positions, u, q, f)
  }

  lemma AddPosition(sum: Summary, positions: Positions, done: set<Key>, k: Key)
    requires SumsOver(sum, positions, done) && k !in done && k in positions
    ensures var p := positions[k];
            SumsOver(Summary(sum.realized + p.realized, sum.volume + p.volume, sum.fees + p.fees, sum.fills + p.fills,
                             sum.requested + p.requested, sum.filled + p.filled, sum.quoted + p.quoted),
                     positions, done + {k})
  {
    forall f: Field | !f.Net? ensures SumOver(done + {k}, (x: Key) => Read(At(positions, x), f))
                                      == Part(sum, f) + Read(positions[k], f) {
      SumAdd(done, (x: Key) => Read(At(positions, x), f), k);
    }
  }

  /** A summary computed on the store after any calls reports the journaled swaps. */
  lemma SummaryReportsJournal(calls: seq<Entry>, u: User, q: Asset, sum: Summary)
    requires Summarises(sum, Run(calls).tables.positions, u, q)
    ensures var journal := Run(calls).journal;
            && sum.volume == FieldTotal(journal, u, q, Volume) && sum.fees == FieldTotal(journal, u, q, FeeTotal)
            && sum.fills == FieldTotal(journal, u, q, Fills) && sum.requested == FieldTotal(journal, u, q, Requested)
            && sum.filled == FieldTotal(journal, u, q, Filled) && sum.quoted == FieldTotal(journal, u, q, Quoted)
  {
    forall f: Field | !f.Net? && !f.Realized? ensures Part(sum, f) == FieldTotal(Run(calls).journal, u, q, f) {
      SummaryMatchesJournal(calls, u, q, f);
    }
    assert Part(sum, Volume) == FieldTotal(Run(calls).journal, u, q, Volume);
    assert Part(sum, FeeTotal) == FieldTotal(Run(calls).journal, u, q, FeeTotal);
    assert Part(sum, Fills) == FieldTotal(Run(calls).journal, u, q, Fills);
    assert Part(sum, Requested) == FieldTotal(Run(calls).journal, u, q, Requested);
    assert Part(sum, Filled) == FieldTotal(Run(calls).journal, u, q, Filled);
    assert Part(sum, Quoted) == FieldTotal(Run(calls).journal, u, q, Quoted);
  }

  // ---- Total P&L ----

  /** A position at its mark; at cost, if it has none. */
  function Holding(t: Tables, k: Key, asOf: Time): int {
    var p := At(t.positions, k);
    match LatestMark(t.marks, k.asset, Some(k.quote), asOf)
    case None => p.cost
    case Some(m) => if Worth(m, p.quantity).Ok? then Worth(m, p.quantity).value else 0
  }

  ghost function Holdings(t: Tables, keys: set<Key>, asOf: Time): int { SumOver(keys, (k: Key) => Holding(t, k, asOf)) }

  /** Realized and unrealized P&L together are the holdings, less cost, plus what was realized. */
  lemma {:induction false} GainsAreHoldings(t: Tables, keys: set<Key>, asOf: Time)
    requires Valued(t, keys, asOf)
    ensures Gains(t, keys, asOf) + SumOver(keys, (k: Key) => Read(At(t.positions, k), Realized))
            == Holdings(t, keys, asOf) + SumOver(keys, (k: Key) => Read(At(t.positions, k), Net))
  {
    if keys != {} {
      var k :| k in keys;
      SumRemove(keys, (x: Key) => Gain(t, x, asOf), k);
      SumRemove(keys, (x: Key) => Read(At(t.positions, x), Realized), k);
      SumRemove(keys, (x: Key) => Holding(t, x, asOf), k);
      SumRemove(keys, (x: Key) => Read(At(t.positions, x), Net), k);
      GainsAreHoldings(t, keys - {k}, asOf);
    }
  }

  /** After any calls, the total P&L of a summary is what the user holds at the marks, plus what was
      redeemed, less what was funded, paid in fees and seeded, plus openings. */
  lemma TotalIsHoldingsLessFlows(calls: seq<Entry>, u: User, q: Asset, asOf: Time, report: Report)
    requires Reports(report, Run(calls).tables, u, q, asOf) && report.total.Some?
    ensures var b := Run(calls);
            report.total.value
            == Holdings(b.tables, Selected(b.tables.positions, u, q), asOf) + StreamTotal(b.journal, u, q, Redeemed)
               - StreamTotal(b.journal, u, q, Funded) - StreamTotal(b.journal, u, q, SwapFees)
               - StreamTotal(b.journal, u, q, SeededBasis) + StreamTotal(b.journal, u, q, Openings)
  {
    var t := Run(calls).tables;
    GainsAreHoldings(t, Selected(t.positions, u, q), asOf);
    PnlNeutral(calls, u, q);
    assert Part(report.sums, Realized) == Tally(t.positions, u, q, Realized);
  }
}
