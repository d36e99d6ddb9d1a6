/** Opportunities, trade legs, positions and partial fills: purging a type, and profit per strategy.
    Foreign keys are declared but never switched on, so nothing but the code keeps references alive. */
module TradeStore {

  datatype Opportunity = Opportunity(id: int, kind: string, profit: real)
  datatype Trade = Trade(id: int, opp: int)
  datatype Position = Position(id: int, opp: int)
  datatype Fill = Fill(id: int, trade: int, opp: int)

  datatype Db = Db(
    opps: seq<Opportunity>,
    trades: seq<Trade>,
    positions: seq<Position>,
    fills: seq<Fill>,
    nextOpp: int,
    nextTrade: int,
    nextPosition: int,
    nextFill: int)

  function Empty(): Db { Db([], [], [], [], 1, 1, 1, 1) }

  // ------------------------------------------------------------- row selection

  /** `DELETE ... WHERE NOT keep`: what is left, in order. */
  function Keep<T>(xs: seq<T>, keep: T -> bool): seq<T> {
    if xs == [] then []
    else Keep(xs[..|xs| - 1], keep) + if keep(xs[|xs| - 1]) then [xs[|xs| - 1]] else []
  }

  lemma {:induction false} KeepMembers<T>(xs: seq<T>, keep: T -> bool, x: T)
    ensures x in Keep(xs, keep) <==> x in xs && keep(x)
  {
    if xs != [] {
      KeepMembers(xs[..|xs| - 1], keep, x);
      assert xs == xs[..|xs| - 1] + [xs[|xs| - 1]];
    }
  }

  lemma {:induction false} KeepAll<T>(xs: seq<T>, keep: T -> bool)
    requires forall x :: x in xs ==> keep(x)
    ensures Keep(xs, keep) == xs
  {
    if xs != [] {
      var init, last := xs[..|xs| - 1], xs[|xs| - 1];
      assert last in xs;
      forall x | x in init ensures keep(x) { assert x in xs; }
      KeepAll(init, keep);
      assert Keep(xs, keep) == init + [last];
    }
  }

  // ------------------------------------------------------------------ the calls

  datatype Op =
    | LogOpportunity(kind: string, profit: real)
    | LogTrade(opp: int)
    | LogPosition(opp: int)
    | LogPartialFill(trade: int, opp: int)
    | Purge(kind: string)

  predicate IdOf(opps: seq<Opportunity>, kind: string, id: int) {
    exists i :: 0 <= i < |opps| && opps[i].id == id && opps[i].kind == kind
  }

  function OtherKind(kind: string): Opportunity -> bool { (o: Opportunity) => o.kind != kind }

  function TradeStays(opps: seq<Opportunity>, kind: string): Trade -> bool { (t: Trade) => !IdOf(opps, kind, t.opp) }

  function PositionStays(opps: seq<Opportunity>, kind: string): Position -> bool { (p: Position) => !IdOf(opps, kind, p.opp) }

  function FillStays(opps: seq<Opportunity>, kind: string): Fill -> bool { (f: Fill) => !IdOf(opps, kind, f.opp) }

  function PurgeKind(db: Db, kind: string): Db {
    db.(opps := Keep(db.opps, OtherKind(kind)),
        trades := Keep(db.trades, TradeStays(db.opps, kind)),
        positions := Keep(db.positions, PositionStays(db.opps, kind)),
        fills := Keep(db.fills, FillStays(db.opps, kind)))
  }

  /** Identifiers are handed out once and never again, even after their row is deleted. */
  function Step(db: Db, op: Op): Db {
    match op
    case LogOpportunity(kind, profit) =>
      db.(opps := db.opps + [Opportunity(db.nextOpp, kind, profit)], nextOpp := db.nextOpp + 1)
    case LogTrade(opp) => db.(trades := db.trades + [Trade(db.nextTrade, opp)], nextTrade := db.nextTrade + 1)
    case LogPosition(opp) =>
      db.(positions := db.positions + [Position(db.nextPosition, opp)], nextPosition := db.nextPosition + 1)
    case LogPartialFill(trade, opp) =>
      db.(fills := db.fills + [Fill(db.nextFill, trade, opp)], nextFill := db.nextFill + 1)
    case Purge(kind) => PurgeKind(db, kind)
  }

  function After(ops: seq<Op>): Db {
    if ops == [] then Empty() else Step(After(ops[..|ops| - 1]), ops[|ops| - 1])
  }

  // ---------------------------------------------------------------- integrity

  predicate Known(db: Db, id: int) {
    exists i :: 0 <= i < |db.opps| && db.opps[i].id == id
  }

  predicate TradeKnown(db: Db, id: int) {
    exists i :: 0 <= i < |db.trades| && db.trades[i].id == id
  }

  predicate OpportunitiesKnown(db: Db) {
    && (forall i :: 0 <= i < |db.trades| ==> Known(db, db.trades[i].opp))
    && (forall i :: 0 <= i < |db.positions| ==> Known(db, db.positions[i].opp))
    && (forall i :: 0 <= i < |db.fills| ==> Known(db, db.fills[i].opp))
  }

  predicate TradesKnown(db: Db) {
    forall i :: 0 <= i < |db.fills| ==> TradeKnown(db, db.fills[i].trade)
  }

  /** Every reference the tables declare holds: no trade, position or partial fill refers to an opportunity, and
      no partial fill to a trade, that is not there. */
  predicate Integrity(db: Db) {
    OpportunitiesKnown(db) && TradesKnown(db)
  }

  predicate UniqueIds(db: Db) {
    Ascending(db.opps, db.nextOpp)
  }

  /** No partial fill of another kind's opportunity names a trade of this kind's. */
  predicate StrandsNoFill(db: Db, kind: string) {
    forall i, j :: 0 <= i < |db.fills| && 0 <= j < |db.trades| && db.fills[i].trade == db.trades[j].id ==>
      IdOf(db.opps, kind, db.trades[j].opp) ==> IdOf(db.opps, kind, db.fills[i].opp)
  }

  /** The identifiers a logging call is given belong to rows present at that moment, and a purge removes no trade
      that a fill it leaves still names. */
  predicate Careful(db: Db, op: Op) {
    match op
    case LogOpportunity(_, _) => true
    case LogTrade(opp) => Known(db, opp)
    case LogPosition(opp) => Known(db, opp)
    case LogPartialFill(trade, opp) => Known(db, opp) && TradeKnown(db, trade)
    case Purge(kind) => StrandsNoFill(db, kind)
  }

  predicate Ascending(opps: seq<Opportunity>, bound: int) {
    && (forall i :: 0 <= i < |opps| ==> opps[i].id < bound)
    && (forall i, j :: 0 <= i < j < |opps| ==> opps[i].id < opps[j].id)
  }

  lemma {:induction false} KeepAscends(opps: seq<Opportunity>, keep: Opportunity -> bool, bound: int)
    requires Ascending(opps, bound)
    ensures Ascending(Keep(opps, keep), bound)
  {
    if opps != [] {
      var init, last := opps[..|opps| - 1], opps[|opps| - 1];
      assert Ascending(init, last.id);
      KeepAscends(init, keep, last.id);
      assert Ascending(Keep(init, keep) + [last], bound);
    }
  }

  lemma StepKeepsUniqueIds(db: Db, op: Op)
    requires UniqueIds(db)
    ensures UniqueIds(Step(db, op))
  {
    if op.Purge? {
      KeepAscends(db.opps, OtherKind(op.kind), db.nextOpp);
      assert Step(db, op).opps == Keep(db.opps, OtherKind(op.kind));
    }
  }

  lemma {:induction false} IdsAreUnique(ops: seq<Op>)
    ensures UniqueIds(After(ops))
  {
    if ops != [] {
      IdsAreUnique(ops[..|ops| - 1]);
      StepKeepsUniqueIds(After(ops[..|ops| - 1]), ops[|ops| - 1]);
    }
  }

  /** An opportunity outside the purged kind is still there afterwards. */
  lemma SurvivesPurge(db: Db, kind: string, id: int)
    requires Known(db, id) && !IdOf(db.opps, kind, id)
    ensures Known(PurgeKind(db, kind), id)
  {
    var i :| 0 <= i < |db.opps| && db.opps[i].id == id;
    assert db.opps[i].kind != kind;
    KeepMembers(db.opps, OtherKind(kind), db.opps[i]);
    assert db.opps[i] in PurgeKind(db, kind).opps;
  }

  lemma PurgeKeepsOpportunitiesKnown(db: Db, kind: string)
    requires OpportunitiesKnown(db)
    ensures OpportunitiesKnown(PurgeKind(db, kind))
  {
    var after := PurgeKind(db, kind);
    forall i | 0 <= i < |after.trades| ensures Known(after, after.trades[i].opp) {
      KeepMembers(db.trades, TradeStays(db.opps, kind), after.trades[i]);
      SurvivesPurge(db, kind, after.trades[i].opp);
    }
    forall i | 0 <= i < |after.positions| ensures Known(after, after.positions[i].opp) {
      KeepMembers(db.positions, PositionStays(db.opps, kind), after.positions[i]);
      SurvivesPurge(db, kind, after.positions[i].opp);
    }
    forall i | 0 <= i < |after.fills| ensures Known(after, after.fills[i].opp) {
      KeepMembers(db.fills, FillStays(db.opps, kind), after.fills[i]);
      SurvivesPurge(db, kind, after.fills[i].opp);
    }
  }

  // ------------------------------------------------ a fill's reference to its trade

  /** Trades are numbered below the next identifier, no two alike. */
  predicate UniqueTrades(db: Db) {
    && (forall t :: t in db.trades ==> t.id < db.nextTrade)
    && (forall t, u :: t in db.trades && u in db.trades && t.id == u.id ==> t == u)
  }

  lemma StepKeepsUniqueTrades(db: Db, op: Op)
    requires UniqueTrades(db)
    ensures UniqueTrades(Step(db, op))
  {
    if op.Purge? {
      forall t ensures t in Step(db, op).trades ==> t in db.trades {
        KeepMembers(db.trades, TradeStays(db.opps, op.kind), t);
      }
    }
  }

  lemma {:induction false} TradesAreUnique(ops: seq<Op>)
    ensures UniqueTrades(After(ops))
  {
    if ops != [] {
      TradesAreUnique(ops[..|ops| - 1]);
      StepKeepsUniqueTrades(After(ops[..|ops| - 1]), ops[|ops| - 1]);
    }
  }

  /** A trade outside the purged kind is still there afterwards, and one of the kind is not. */
  lemma TradeAfterPurge(db: Db, kind: string, t: Trade)
    requires UniqueTrades(db) && t in db.trades
    ensures TradeKnown(PurgeKind(db, kind), t.id) <==> !IdOf(db.opps, kind, t.opp)
  {
    var kept := PurgeKind(db, kind).trades;
    KeepMembers(db.trades, TradeStays(db.opps, kind), t);
    if t in kept {
      var i :| 0 <= i < |kept| && kept[i] == t;
    }
    if i :| 0 <= i < |kept| && kept[i].id == t.id {
      KeepMembers(db.trades, TradeStays(db.opps, kind), kept[i]);
      assert kept[i] == t;
    }
  }

  lemma FillAfterPurge(db: Db, kind: string, f: Fill)
    ensures f in PurgeKind(db, kind).fills <==> f in db.fills && !IdOf(db.opps, kind, f.opp)
  {
    KeepMembers(db.fills, FillStays(db.opps, kind), f);
  }

  lemma SafePurgeKeepsTradesKnown(db: Db, kind: string)
    requires TradesKnown(db) && UniqueTrades(db) && StrandsNoFill(db, kind)
    ensures TradesKnown(PurgeKind(db, kind))
  {
    var after := PurgeKind(db, kind);
    forall k | 0 <= k < |after.fills| ensures TradeKnown(after, after.fills[k].trade) {
      var f := after.fills[k];
      FillAfterPurge(db, kind, f);
      var i :| 0 <= i < |db.fills| && db.fills[i] == f;
      var j :| 0 <= j < |db.trades| && db.trades[j].id == f.trade;
      TradeAfterPurge(db, kind, db.trades[j]);
    }
  }

  lemma StrandedFillDangles(db: Db, kind: string, i: nat, j: nat)
    requires UniqueTrades(db) && i < |db.fills| && j < |db.trades| && db.fills[i].trade == db.trades[j].id
    requires IdOf(db.opps, kind, db.trades[j].opp) && !IdOf(db.opps, kind, db.fills[i].opp)
    ensures !TradesKnown(PurgeKind(db, kind))
  {
    var after := PurgeKind(db, kind);
    FillAfterPurge(db, kind, db.fills[i]);
    TradeAfterPurge(db, kind, db.trades[j]);
    var k :| 0 <= k < |after.fills| && after.fills[k] == db.fills[i];
    assert !TradeKnown(after, after.fills[k].trade);
  }

  /** A purge keeps every reference if and only if no fill it leaves names a trade it removes. */
  lemma PurgeKeepsIntegrityExactlyWhen(db: Db, kind: string)
    requires Integrity(db) && UniqueTrades(db)
    ensures Integrity(PurgeKind(db, kind)) <==> StrandsNoFill(db, kind)
  {
    PurgeKeepsOpportunitiesKnown(db, kind);
    if StrandsNoFill(db, kind) {
      SafePurgeKeepsTradesKnown(db, kind);
    } else {
      var i, j :| 0 <= i < |db.fills| && 0 <= j < |db.trades| && db.fills[i].trade == db.trades[j].id
        && IdOf(db.opps, kind, db.trades[j].opp) && !IdOf(db.opps, kind, db.fills[i].opp);
      StrandedFillDangles(db, kind, i, j);
    }
  }

  lemma KnownStays(db: Db, op: Op, id: int)
    requires !op.Purge?
    ensures Known(db, id) ==> Known(Step(db, op), id)
    ensures TradeKnown(db, id) ==> TradeKnown(Step(db, op), id)
  {
    if i :| 0 <= i < |db.opps| && db.opps[i].id == id {
      assert Step(db, op).opps[i] == db.opps[i];
    }
    if i :| 0 <= i < |db.trades| && db.trades[i].id == id {
      assert Step(db, op).trades[i] == db.trades[i];
    }
  }

  lemma LogIntegrity(db: Db, op: Op)
    requires Integrity(db) && !op.Purge?
    ensures Integrity(Step(db, op)) <==> Careful(db, op)
  {
    var after := Step(db, op);
    forall id ensures (Known(db, id) ==> Known(after, id)) && (TradeKnown(db, id) ==> TradeKnown(after, id)) {
      KnownStays(db, op, id);
    }
    match op
    case LogOpportunity(_, _) =>
    case LogTrade(opp) =>
      assert after.trades[|db.trades|].opp == opp && after.opps == db.opps;
    case LogPosition(opp) =>
      assert after.positions[|db.positions|].opp == opp && after.opps == db.opps;
    case LogPartialFill(trade, opp) =>
      assert after.fills[|db.fills|] == Fill(db.nextFill, trade, opp);
      assert after.opps == db.opps && after.trades == db.trades;
  }

  /** One call keeps integrity if and only if it is careful. */
  lemma StepIntegrity(db: Db, op: Op)
    requires Integrity(db) && UniqueTrades(db)
    ensures Integrity(Step(db, op)) <==> Careful(db, op)
  {
    if op.Purge? { PurgeKeepsIntegrityExactlyWhen(db, op.kind); } else { LogIntegrity(db, op); }
  }

  predicate IntactThroughout(ops: seq<Op>) {
    Integrity(After(ops)) && (ops != [] ==> IntactThroughout(ops[..|ops| - 1]))
  }

  predicate CarefulThroughout(ops: seq<Op>) {
    ops != [] ==> Careful(After(ops[..|ops| - 1]), ops[|ops| - 1]) && CarefulThroughout(ops[..|ops| - 1])
  }

  /** A history keeps every one of its states free of dangling references if and only if every logging call
      named rows present at the time and no purge removed a trade that a fill it left still named. */
  lemma {:induction false} IntegrityExactlyWhenCareful(ops: seq<Op>)
    ensures IntactThroughout(ops) <==> CarefulThroughout(ops)
  {
    if ops != [] {
      var before := After(ops[..|ops| - 1]);
      IntegrityExactlyWhenCareful(ops[..|ops| - 1]);
      TradesAreUnique(ops[..|ops| - 1]);
      if Integrity(before) { StepIntegrity(before, ops[|ops| - 1]); }
    }
  }

  /** The trade belongs to the opportunity. */
  predicate IsLegOf(db: Db, trade: int, opp: int) {
    exists i :: 0 <= i < |db.trades| && db.trades[i] == Trade(trade, opp)
  }

  predicate FillsMatch(db: Db) {
    forall i :: 0 <= i < |db.fills| ==> IsLegOf(db, db.fills[i].trade, db.fills[i].opp)
  }

  /** Logging calls name rows that are there, and a partial fill is logged for a trade of its own opportunity;
      nothing is asked of a purge. */
  predicate LogsMatch(db: Db, op: Op) {
    match op
    case LogPartialFill(trade, opp) => Known(db, opp) && IsLegOf(db, trade, opp)
    case Purge(_) => true
    case _ => Careful(db, op)
  }

  predicate LogsMatchThroughout(ops: seq<Op>) {
    ops != [] ==> LogsMatch(After(ops[..|ops| - 1]), ops[|ops| - 1]) && LogsMatchThroughout(ops[..|ops| - 1])
  }

  lemma MatchedFillIsSafe(db: Db, kind: string)
    requires FillsMatch(db) && UniqueTrades(db)
    ensures StrandsNoFill(db, kind)
  {
    forall i, j | 0 <= i < |db.fills| && 0 <= j < |db.trades| && db.fills[i].trade == db.trades[j].id
                  && IdOf(db.opps, kind, db.trades[j].opp)
      ensures IdOf(db.opps, kind, db.fills[i].opp)
    {
      assert IsLegOf(db, db.fills[i].trade, db.fills[i].opp);
      var k :| 0 <= k < |db.trades| && db.trades[k] == Trade(db.fills[i].trade, db.fills[i].opp);
      assert db.trades[k] in db.trades && db.trades[j] in db.trades;
    }
  }

  lemma LegSurvivesPurge(db: Db, kind: string, trade: int, opp: int)
    requires IsLegOf(db, trade, opp) && !IdOf(db.opps, kind, opp)
    ensures IsLegOf(PurgeKind(db, kind), trade, opp)
  {
    KeepMembers(db.trades, TradeStays(db.opps, kind), Trade(trade, opp));
    assert Trade(trade, opp) in db.trades;
    assert Trade(trade, opp) in PurgeKind(db, kind).trades;
  }

  lemma StepKeepsFillsMatched(db: Db, op: Op)
    requires FillsMatch(db) && LogsMatch(db, op)
    ensures FillsMatch(Step(db, op))
  {
    var after := Step(db, op);
    forall k | 0 <= k < |after.fills| ensures IsLegOf(after, after.fills[k].trade, after.fills[k].opp) {
      var f := after.fills[k];
      if op.Purge? {
        FillAfterPurge(db, op.kind, f);
        var i :| 0 <= i < |db.fills| && db.fills[i] == f;
        LegSurvivesPurge(db, op.kind, f.trade, f.opp);
      } else {
        assert IsLegOf(db, f.trade, f.opp);
        var j :| 0 <= j < |db.trades| && db.trades[j] == Trade(f.trade, f.opp);
        assert after.trades[j] == db.trades[j];
      }
    }
  }

  lemma {:induction false} FillsStayMatched(ops: seq<Op>)
    requires LogsMatchThroughout(ops)
    ensures FillsMatch(After(ops)) && CarefulThroughout(ops)
  {
    if ops != [] {
      var init, op := ops[..|ops| - 1], ops[|ops| - 1];
      FillsStayMatched(init);
      TradesAreUnique(init);
      StepKeepsFillsMatched(After(init), op);
      match op
      case Purge(kind) => MatchedFillIsSafe(After(init), kind);
      case LogPartialFill(trade, opp) =>
        var i :| 0 <= i < |After(init).trades| && After(init).trades[i] == Trade(trade, opp);
      case _ =>
    }
  }

  /** Where every fill is logged for a trade of its own opportunity, as crash recovery does, purging is never to
      blame: whatever is purged and when, no reference ever dangles. */
  lemma PurgingIsNeverToBlame(ops: seq<Op>)
    requires LogsMatchThroughout(ops)
    ensures IntactThroughout(ops)
  {
    FillsStayMatched(ops);
    IntegrityExactlyWhenCareful(ops);
  }

  lemma {:induction false} IdsArePositive(ops: seq<Op>)
    ensures var db := After(ops); 1 <= db.nextOpp && forall o :: o in db.opps ==> 1 <= o.id
  {
    if ops != [] {
      var db, op := After(ops[..|ops| - 1]), ops[|ops| - 1];
      IdsArePositive(ops[..|ops| - 1]);
      if op.Purge? {
        forall o ensures o in Step(db, op).opps ==> o in db.opps { KeepMembers(db.opps, OtherKind(op.kind), o); }
      }
    }
  }

  /** The inventory hedge of the market maker records its fill under trade 0 and opportunity -1, which no history
      ever hands out, so its reference dangles wherever it is logged. */
  lemma MakerHedgeAlwaysDangles(ops: seq<Op>)
    ensures !Integrity(Step(After(ops), LogPartialFill(0, -1)))
  {
    var db := After(ops);
    IdsArePositive(ops);
    var after := Step(db, LogPartialFill(0, -1));
    assert after.fills[|db.fills|].opp == -1 && after.opps == db.opps;
    forall i | 0 <= i < |db.opps| ensures db.opps[i].id != -1 { assert db.opps[i] in db.opps; }
    assert !Known(after, -1);
  }

  /** For example, a fill logged for one opportunity and another's trade outlives that trade. */
  lemma PurgeStrandsAFill(kind: string, other: string, profit: real)
    requires kind != other
    ensures var opps := [Opportunity(1, other, profit), Opportunity(2, kind, profit)];
            var db := Db(opps, [Trade(1, 2)], [], [Fill(1, 1, 1)], 3, 2, 1, 2);
            && db == Step(Step(Step(Step(Empty(), LogOpportunity(other, profit)), LogOpportunity(kind, profit)),
                               LogTrade(2)), LogPartialFill(1, 1))
            && Integrity(db) && !Integrity(PurgeKind(db, kind))
  {
    var opps := [Opportunity(1, other, profit), Opportunity(2, kind, profit)];
    FourLogs(kind, other, profit, opps);
    StrandedOnce(kind, other, opps, Db(opps, [Trade(1, 2)], [], [Fill(1, 1, 1)], 3, 2, 1, 2));
  }

  lemma FourLogs(kind: string, other: string, profit: real, opps: seq<Opportunity>)
    requires opps == [Opportunity(1, other, profit), Opportunity(2, kind, profit)]
    ensures Step(Step(Step(Step(Empty(), LogOpportunity(other, profit)), LogOpportunity(kind, profit)), LogTrade(2)),
                 LogPartialFill(1, 1))
         == Db(opps, [Trade(1, 2)], [], [Fill(1, 1, 1)], 3, 2, 1, 2)
  {
    assert opps[..1] == [Opportunity(1, other, profit)];
  }

  lemma StrandedOnce(kind: string, other: string, opps: seq<Opportunity>, db: Db)
    requires kind != other && |opps| == 2 && opps[0].id == 1 && opps[0].kind == other && opps[1].id == 2 && opps[1].kind == kind
    requires db == Db(opps, [Trade(1, 2)], [], [Fill(1, 1, 1)], 3, 2, 1, 2)
    ensures Integrity(db) && !Integrity(PurgeKind(db, kind))
  {
    assert db.opps[0].id == 1 && db.opps[1].id == 2 && db.trades[0].id == 1;
    assert Known(db, 1) && Known(db, 2) && TradeKnown(db, 1);
    assert IdOf(db.opps, kind, 2) && !IdOf(db.opps, kind, 1);
    StrandedFillDangles(db, kind, 0, 0);
  }

  /** A purge between logging an opportunity and logging its trade leaves the trade dangling; the identifier
      is not handed out again. */
  lemma PurgeBetweenLogsDangles(kind: string, profit: real)
    ensures var ops := [LogOpportunity(kind, profit), Purge(kind), LogTrade(1)];
            !Integrity(After(ops)) && After(ops).nextOpp == 2
  {
    var first, second, third := LogOpportunity(kind, profit), Purge(kind), LogTrade(1);
    var one, two := Step(Empty(), first), Step(Step(Empty(), first), second);
    assert [first, second, third][..2] == [first, second] && [first, second][..1] == [first] && [first][..0] == [];
    assert After([first]) == one && After([first, second]) == two;
    assert one.opps == [Opportunity(1, kind, profit)] && one.opps[..0] == [];
    assert two.opps == Keep(one.opps, OtherKind(kind));
    assert Keep(one.opps[..0], OtherKind(kind)) == [];
    assert After([first, second, third]).trades[0].opp == 1;
  }

  // -------------------------------------------------------- profit per strategy

  predicate HasLeg(trades: seq<Trade>, id: int) {
    exists i :: 0 <= i < |trades| && trades[i].opp == id
  }

  /** How many rows the join of one trade with the opportunities of a kind yields. */
  function JoinedRows(opps: seq<Opportunity>, id: int, kind: string): nat {
    if opps == [] then 0
    else
      var o := opps[|opps| - 1];
      JoinedRows(opps[..|opps| - 1], id, kind) + if o.id == id && o.kind == kind then 1 else 0
  }

  /** `COUNT(t.id)` over the join, for one kind. */
  function LegCount(trades: seq<Trade>, opps: seq<Opportunity>, kind: string): nat {
    if trades == [] then 0
    else LegCount(trades[..|trades| - 1], opps, kind) + JoinedRows(opps, trades[|trades| - 1].opp, kind)
  }

  /** Profit and wins of the traded opportunities of a kind, one opportunity at a time. */
  function ProfitOf(opps: seq<Opportunity>, trades: seq<Trade>, kind: string): real {
    if opps == [] then 0.0
    else
      var o := opps[|opps| - 1];
      ProfitOf(opps[..|opps| - 1], trades, kind)
        + if o.kind == kind && HasLeg(trades, o.id) then o.profit else 0.0
  }

  function WinsOf(opps: seq<Opportunity>, trades: seq<Trade>, kind: string): nat {
    if opps == [] then 0
    else
      var o := opps[|opps| - 1];
      WinsOf(opps[..|opps| - 1], trades, kind)
        + if o.kind == kind && HasLeg(trades, o.id) && o.profit > 0.0 then 1 else 0
  }

  datatype Stats = Stats(legs: nat, wins: nat, total: real)

  predicate Traded(db: Db, kind: string) {
    exists i :: 0 <= i < |db.opps| && db.opps[i].kind == kind && HasLeg(db.trades, db.opps[i].id)
  }

  /** `get_strategy_pnl`: a kind has a row when it has a traded opportunity and a counted leg. */
  function StrategyPnl(db: Db): map<string, Stats> {
    map i | 0 <= i < |db.opps| && Traded(db, db.opps[i].kind) && LegCount(db.trades, db.opps, db.opps[i].kind) > 0
      :: db.opps[i].kind
      := Stats(LegCount(db.trades, db.opps, db.opps[i].kind), WinsOf(db.opps, db.trades, db.opps[i].kind),
               ProfitOf(db.opps, db.trades, db.opps[i].kind))
  }

  lemma {:induction false} JoinedExactlyWhenOfKind(opps: seq<Opportunity>, id: int, kind: string, bound: int)
    requires Ascending(opps, bound)
    ensures JoinedRows(opps, id, kind) == if IdOf(opps, kind, id) then 1 else 0
  {
    if opps != [] {
      var init, o := opps[..|opps| - 1], opps[|opps| - 1];
      JoinedExactlyWhenOfKind(init, id, kind, o.id);
      if i :| 0 <= i < |opps| && opps[i].id == id && opps[i].kind == kind {
        if i < |init| { assert init[i] == opps[i]; }
      }
      if i :| 0 <= i < |init| && init[i].id == id && init[i].kind == kind {
        assert opps[i] == init[i];
      }
    }
  }

  lemma {:induction false} LegCountIsPositive(db: Db, kind: string, n: nat)
    requires UniqueIds(db) && n <= |db.trades|
    ensures LegCount(db.trades[..n], db.opps, kind) > 0 <==>
            exists i :: 0 <= i < n && IdOf(db.opps, kind, db.trades[i].opp)
  {
    if n > 0 {
      LegCountIsPositive(db, kind, n - 1);
      JoinedExactlyWhenOfKind(db.opps, db.trades[n - 1].opp, kind, db.nextOpp);
      assert db.trades[..n][..n - 1] == db.trades[..n - 1];
    }
  }

  lemma TradedHasALeg(db: Db, kind: string)
    requires Traded(db, kind)
    ensures exists i :: 0 <= i < |db.trades| && IdOf(db.opps, kind, db.trades[i].opp)
  {
    var j :| 0 <= j < |db.opps| && db.opps[j].kind == kind && HasLeg(db.trades, db.opps[j].id);
    var i :| 0 <= i < |db.trades| && db.trades[i].opp == db.opps[j].id;
    assert IdOf(db.opps, kind, db.trades[i].opp);
  }

  lemma LegMeansTraded(db: Db, kind: string, i: nat)
    requires i < |db.trades| && IdOf(db.opps, kind, db.trades[i].opp)
    ensures Traded(db, kind)
  {
    var j :| 0 <= j < |db.opps| && db.opps[j].id == db.trades[i].opp && db.opps[j].kind == kind;
    assert HasLeg(db.trades, db.opps[j].id);
  }

  lemma TradedExactlyWhenCounted(db: Db, kind: string)
    requires UniqueIds(db)
    ensures Traded(db, kind) <==> LegCount(db.trades, db.opps, kind) > 0
  {
    LegCountIsPositive(db, kind, |db.trades|);
    assert db.trades[..|db.trades|] == db.trades;
    if Traded(db, kind) { TradedHasALeg(db, kind); }
    if i :| 0 <= i < |db.trades| && IdOf(db.opps, kind, db.trades[i].opp) { LegMeansTraded(db, kind, i); }
  }

  /** The two subqueries never disagree: a kind has a traded opportunity exactly when it has a counted leg, so
      the final join drops nothing. */
  lemma JoinDropsNothing(db: Db, kind: string)
    requires UniqueIds(db)
    ensures Traded(db, kind) <==> LegCount(db.trades, db.opps, kind) > 0
    ensures kind in StrategyPnl(db) <==> Traded(db, kind)
  {
    TradedExactlyWhenCounted(db, kind);
    if i :| 0 <= i < |db.opps| && db.opps[i].kind == kind && HasLeg(db.trades, db.opps[i].id) {
      assert db.opps[i].kind in StrategyPnl(db);
    }
  }

  lemma {:induction false} ProfitSeesOnlyWhetherTraded(opps: seq<Opportunity>, a: seq<Trade>, b: seq<Trade>, kind: string)
    requires forall i :: 0 <= i < |opps| && opps[i].kind == kind ==> (HasLeg(a, opps[i].id) <==> HasLeg(b, opps[i].id))
    ensures ProfitOf(opps, a, kind) == ProfitOf(opps, b, kind) && WinsOf(opps, a, kind) == WinsOf(opps, b, kind)
  {
    if opps != [] {
      assert forall i :: 0 <= i < |opps| - 1 ==> opps[..|opps| - 1][i] == opps[i];
      ProfitSeesOnlyWhetherTraded(opps[..|opps| - 1], a, b, kind);
    }
  }

  lemma MoreLegs(trades: seq<Trade>, t: Trade, id: int)
    ensures HasLeg(trades + [t], id) <==> HasLeg(trades, id) || t.opp == id
  {
    var more := trades + [t];
    assert more[|trades|] == t;
    if i :| 0 <= i < |trades| && trades[i].opp == id { assert more[i] == trades[i]; }
  }

  /** Another leg of an opportunity already traded counts as a leg and changes neither profit nor wins, so each
      traded opportunity's profit is summed once whatever its number of legs. */
  lemma AnotherLegOnlyCountsALeg(db: Db, id: int, kind: string)
    requires UniqueIds(db) && HasLeg(db.trades, id)
    ensures var after := Step(db, LogTrade(id));
            && ProfitOf(after.opps, after.trades, kind) == ProfitOf(db.opps, db.trades, kind)
            && WinsOf(after.opps, after.trades, kind) == WinsOf(db.opps, db.trades, kind)
            && LegCount(after.trades, after.opps, kind)
               == LegCount(db.trades, db.opps, kind) + if IdOf(db.opps, kind, id) then 1 else 0
  {
    var t := Trade(db.nextTrade, id);
    forall i | 0 <= i < |db.opps| ensures HasLeg(db.trades + [t], db.opps[i].id) <==> HasLeg(db.trades, db.opps[i].id) {
      MoreLegs(db.trades, t, db.opps[i].id);
    }
    ProfitSeesOnlyWhetherTraded(db.opps, db.trades, db.trades + [t], kind);
    JoinedExactlyWhenOfKind(db.opps, id, kind, db.nextOpp);
    assert (db.trades + [t])[..|db.trades|] == db.trades;
  }

  function Line(db: Db, kind: string): Stats {
    Stats(LegCount(db.trades, db.opps, kind), WinsOf(db.opps, db.trades, kind), ProfitOf(db.opps, db.trades, kind))
  }

  lemma {:induction false} UntradedHasNothing(opps: seq<Opportunity>, trades: seq<Trade>, kind: string)
    requires forall i :: 0 <= i < |opps| && opps[i].kind == kind ==> !HasLeg(trades, opps[i].id)
    ensures ProfitOf(opps, trades, kind) == 0.0 && WinsOf(opps, trades, kind) == 0
  {
    if opps != [] {
      assert forall i :: 0 <= i < |opps| - 1 ==> opps[..|opps| - 1][i] == opps[i];
      UntradedHasNothing(opps[..|opps| - 1], trades, kind);
    }
  }

  /** The report holds a kind's line, and leaves out only lines of zeros. */
  lemma ReportedExactly(db: Db, kind: string)
    requires UniqueIds(db)
    ensures Line(db, kind) == if kind in StrategyPnl(db) then StrategyPnl(db)[kind] else Stats(0, 0, 0.0)
  {
    JoinDropsNothing(db, kind);
    if !Traded(db, kind) { UntradedHasNothing(db.opps, db.trades, kind); }
  }

  lemma ElsewhereUnchanged(opps: seq<Opportunity>, trades: seq<Trade>, t: Trade, kind: string)
    requires forall i :: 0 <= i < |opps| ==> opps[i].id != t.opp
    ensures ProfitOf(opps, trades + [t], kind) == ProfitOf(opps, trades, kind)
    ensures WinsOf(opps, trades + [t], kind) == WinsOf(opps, trades, kind)
  {
    forall i | 0 <= i < |opps| ensures HasLeg(trades + [t], opps[i].id) <==> HasLeg(trades, opps[i].id) {
      MoreLegs(trades, t, opps[i].id);
    }
    ProfitSeesOnlyWhetherTraded(opps, trades + [t], trades, kind);
  }

  lemma {:induction false} NewlyTraded(opps: seq<Opportunity>, trades: seq<Trade>, t: Trade, o: Opportunity, kind: string,
                                       bound: int)
    requires Ascending(opps, bound) && o in opps && o.id == t.opp && !HasLeg(trades, o.id)
    ensures ProfitOf(opps, trades + [t], kind) == ProfitOf(opps, trades, kind) + (if o.kind == kind then o.profit else 0.0)
    ensures WinsOf(opps, trades + [t], kind)
         == WinsOf(opps, trades, kind) + (if o.kind == kind && o.profit > 0.0 then 1 else 0)
  {
    var init, last := opps[..|opps| - 1], opps[|opps| - 1];
    assert opps == init + [last];
    MoreLegs(trades, t, last.id);
    if last == o { ElsewhereUnchanged(init, trades, t, kind); } else { NewlyTraded(init, trades, t, o, kind, last.id); }
  }

  /** The first leg of an opportunity books its profit, and a win if that is positive, under its own kind and nowhere
      else; with the lemma above, each traded opportunity is booked once. */
  lemma FirstLegBooksTheProfit(db: Db, after: Db, o: Opportunity, kind: string)
    requires UniqueIds(db) && o in db.opps && !HasLeg(db.trades, o.id) && after == Step(db, LogTrade(o.id))
    ensures var line := Line(db, kind);
            Line(after, kind) == if kind == o.kind
                                 then Stats(line.legs + 1, line.wins + (if o.profit > 0.0 then 1 else 0), line.total + o.profit)
                                 else line
  {
    FirstLegSums(db, after, o, kind);
  }

  lemma FirstLegSums(db: Db, after: Db, o: Opportunity, kind: string)
    requires UniqueIds(db) && o in db.opps && !HasLeg(db.trades, o.id) && after == Step(db, LogTrade(o.id))
    ensures LegCount(after.trades, after.opps, kind)
         == LegCount(db.trades, db.opps, kind) + (if o.kind == kind then 1 else 0)
    ensures ProfitOf(after.opps, after.trades, kind)
         == ProfitOf(db.opps, db.trades, kind) + (if o.kind == kind then o.profit else 0.0)
    ensures WinsOf(after.opps, after.trades, kind)
         == WinsOf(db.opps, db.trades, kind) + (if o.kind == kind && o.profit > 0.0 then 1 else 0)
  {
    var t := Trade(db.nextTrade, o.id);
    NewlyTraded(db.opps, db.trades, t, o, kind, db.nextOpp);
    OneKindOfId(db, o, kind);
    LegsOneMore(db.trades, t, db.opps, kind);
  }

  lemma OneKindOfId(db: Db, o: Opportunity, kind: string)
    requires UniqueIds(db) && o in db.opps
    ensures JoinedRows(db.opps, o.id, kind) == if o.kind == kind then 1 else 0
  {
    JoinedExactlyWhenOfKind(db.opps, o.id, kind, db.nextOpp);
    var i :| 0 <= i < |db.opps| && db.opps[i] == o;
    if j :| 0 <= j < |db.opps| && db.opps[j].id == o.id && db.opps[j].kind == kind { assert i == j; }
  }

  /** A new opportunity is not reported until it is traded. */
  lemma UntradedIsNotReported(db: Db, added: string, profit: real, kind: string)
    requires UniqueIds(db) && !HasLeg(db.trades, db.nextOpp)
    ensures Line(Step(db, LogOpportunity(added, profit)), kind) == Line(db, kind)
  {
    var o := Opportunity(db.nextOpp, added, profit);
    LegsWithUntraded(db.trades, db.opps, o, kind);
    ProfitOneMore(db.opps, o, db.trades, kind);
  }

  lemma {:induction false} LegsWithUntraded(trades: seq<Trade>, opps: seq<Opportunity>, o: Opportunity, kind: string)
    requires !HasLeg(trades, o.id)
    ensures LegCount(trades, opps + [o], kind) == LegCount(trades, opps, kind)
  {
    if trades != [] {
      var init, t := trades[..|trades| - 1], trades[|trades| - 1];
      assert forall i :: 0 <= i < |init| ==> init[i] == trades[i];
      LegsWithUntraded(init, opps, o, kind);
      JoinedOneMore(opps, o, t.opp, kind);
    }
  }

  // ----------------------------------------------------------------- conservation

  /** Leg counts summed over a list of kinds. */
  function LegsOver(trades: seq<Trade>, opps: seq<Opportunity>, kinds: seq<string>): nat {
    if kinds == [] then 0
    else LegsOver(trades, opps, kinds[..|kinds| - 1]) + LegCount(trades, opps, kinds[|kinds| - 1])
  }

  predicate DistinctKinds(kinds: seq<string>) {
    forall i, j :: 0 <= i < j < |kinds| ==> kinds[i] != kinds[j]
  }

  function Hits(opps: seq<Opportunity>, id: int, kinds: seq<string>): nat {
    if kinds == [] then 0
    else Hits(opps, id, kinds[..|kinds| - 1]) + JoinedRows(opps, id, kinds[|kinds| - 1])
  }

  lemma {:induction false} HitsOne(opps: seq<Opportunity>, id: int, kinds: seq<string>, bound: int, o: Opportunity)
    requires Ascending(opps, bound) && DistinctKinds(kinds) && o in opps && o.id == id
    ensures Hits(opps, id, kinds) == if o.kind in kinds then 1 else 0
  {
    if kinds != [] {
      var init, k := kinds[..|kinds| - 1], kinds[|kinds| - 1];
      HitsOne(opps, id, init, bound, o);
      JoinedExactlyWhenOfKind(opps, id, k, bound);
      var i :| 0 <= i < |opps| && opps[i] == o;
      if j :| 0 <= j < |opps| && opps[j].id == id && opps[j].kind == k {
        assert i == j;
      }
      assert kinds == init + [k];
    }
  }

  lemma {:induction false} OneMoreTrade(trades: seq<Trade>, opps: seq<Opportunity>, kinds: seq<string>)
    requires trades != []
    ensures var t := trades[|trades| - 1];
            LegsOver(trades, opps, kinds) == LegsOver(trades[..|trades| - 1], opps, kinds) + Hits(opps, t.opp, kinds)
  {
    if kinds != [] { OneMoreTrade(trades, opps, kinds[..|kinds| - 1]); }
  }

  lemma {:induction false} NoLegsYet(opps: seq<Opportunity>, kinds: seq<string>)
    ensures LegsOver([], opps, kinds) == 0
  {
    if kinds != [] { NoLegsYet(opps, kinds[..|kinds| - 1]); }
  }

  /** With references intact, the leg counts of all kinds add up to the number of trades. */
  lemma {:induction false} LegsAddUp(db: Db, kinds: seq<string>, n: nat)
    requires UniqueIds(db) && Integrity(db) && DistinctKinds(kinds) && n <= |db.trades|
    requires forall i :: 0 <= i < |db.opps| ==> db.opps[i].kind in kinds
    ensures LegsOver(db.trades[..n], db.opps, kinds) == n
  {
    if n == 0 {
      assert db.trades[..0] == [];
      NoLegsYet(db.opps, kinds);
    } else {
      LegsAddUp(db, kinds, n - 1);
      OneMoreTrade(db.trades[..n], db.opps, kinds);
      assert db.trades[..n][..n - 1] == db.trades[..n - 1];
      var id := db.trades[n - 1].opp;
      assert Known(db, id);
      var i :| 0 <= i < |db.opps| && db.opps[i].id == id;
      HitsOne(db.opps, id, kinds, db.nextOpp, db.opps[i]);
    }
  }

  // ------------------------------------------------- a purge and the other kinds

  lemma KeepOneMore<T>(xs: seq<T>, keep: T -> bool)
    requires xs != []
    ensures var (init, last) := (xs[..|xs| - 1], xs[|xs| - 1]);
            Keep(xs, keep) == if keep(last) then Keep(init, keep) + [last] else Keep(init, keep)
  {}

  lemma JoinedOneMore(opps: seq<Opportunity>, o: Opportunity, id: int, kind: string)
    ensures JoinedRows(opps + [o], id, kind) == JoinedRows(opps, id, kind) + if o.id == id && o.kind == kind then 1 else 0
  {
    assert (opps + [o])[..|opps|] == opps;
  }

  lemma LegsOneMore(trades: seq<Trade>, t: Trade, opps: seq<Opportunity>, kind: string)
    ensures LegCount(trades + [t], opps, kind) == LegCount(trades, opps, kind) + JoinedRows(opps, t.opp, kind)
  {
    assert (trades + [t])[..|trades|] == trades;
  }

  lemma {:induction false} JoinedAfterPurge(opps: seq<Opportunity>, id: int, kind: string, other: string)
    requires other != kind
    ensures JoinedRows(Keep(opps, OtherKind(kind)), id, other) == JoinedRows(opps, id, other)
  {
    if opps != [] {
      var init, o := opps[..|opps| - 1], opps[|opps| - 1];
      JoinedAfterPurge(init, id, kind, other);
      KeepOneMore(opps, OtherKind(kind));
      JoinedOneMore(Keep(init, OtherKind(kind)), o, id, other);
    }
  }

  /** Trades of other kinds survive a purge, and those removed never counted for another kind. */
  lemma {:induction false} LegsAfterPurge(trades: seq<Trade>, opps: seq<Opportunity>, kind: string, other: string, bound: int)
    requires other != kind && Ascending(opps, bound)
    ensures LegCount(Keep(trades, TradeStays(opps, kind)), Keep(opps, OtherKind(kind)), other)
         == LegCount(trades, opps, other)
  {
    if trades != [] {
      var init, t := trades[..|trades| - 1], trades[|trades| - 1];
      LegsAfterPurge(init, opps, kind, other, bound);
      JoinedAfterPurge(opps, t.opp, kind, other);
      JoinedExactlyWhenOfKind(opps, t.opp, other, bound);
      KeepOneMore(trades, TradeStays(opps, kind));
      LegsOneMore(Keep(init, TradeStays(opps, kind)), t, Keep(opps, OtherKind(kind)), other);
      if IdOf(opps, kind, t.opp) { OneKindPerId(opps, kind, other, t.opp, bound); }
    }
  }

  lemma OneKindPerId(opps: seq<Opportunity>, kind: string, other: string, id: int, bound: int)
    requires Ascending(opps, bound) && kind != other && IdOf(opps, kind, id)
    ensures !IdOf(opps, other, id)
  {
    var i :| 0 <= i < |opps| && opps[i].id == id && opps[i].kind == kind;
    forall j | 0 <= j < |opps| && opps[j].id == id ensures j == i {}
  }

  lemma ProfitOneMore(opps: seq<Opportunity>, o: Opportunity, trades: seq<Trade>, kind: string)
    ensures ProfitOf(opps + [o], trades, kind)
         == ProfitOf(opps, trades, kind) + if o.kind == kind && HasLeg(trades, o.id) then o.profit else 0.0
    ensures WinsOf(opps + [o], trades, kind)
         == WinsOf(opps, trades, kind) + if o.kind == kind && HasLeg(trades, o.id) && o.profit > 0.0 then 1 else 0
  {
    assert (opps + [o])[..|opps|] == opps;
  }

  lemma {:induction false} ProfitAfterPurge(opps: seq<Opportunity>, trades: seq<Trade>, kind: string, other: string)
    requires other != kind
    ensures ProfitOf(Keep(opps, OtherKind(kind)), trades, other) == ProfitOf(opps, trades, other)
    ensures WinsOf(Keep(opps, OtherKind(kind)), trades, other) == WinsOf(opps, trades, other)
  {
    if opps != [] {
      var init, o := opps[..|opps| - 1], opps[|opps| - 1];
      ProfitAfterPurge(init, trades, kind, other);
      KeepOneMore(opps, OtherKind(kind));
      assert opps == init + [o];
      ProfitOneMore(init, o, trades, other);
      if o.kind != kind { ProfitOneMore(Keep(init, OtherKind(kind)), o, trades, other); }
    }
  }

  lemma HasLegAfterPurge(db: Db, kind: string, id: int)
    requires !IdOf(db.opps, kind, id)
    ensures HasLeg(Keep(db.trades, TradeStays(db.opps, kind)), id) <==> HasLeg(db.trades, id)
  {
    var stays := TradeStays(db.opps, kind);
    var kept := Keep(db.trades, stays);
    if i :| 0 <= i < |db.trades| && db.trades[i].opp == id {
      KeepMembers(db.trades, stays, db.trades[i]);
      assert db.trades[i] in kept;
    }
    if i :| 0 <= i < |kept| && kept[i].opp == id {
      KeepMembers(db.trades, stays, kept[i]);
    }
  }

  /** Purging one kind leaves every other kind's legs, wins and profit exactly as they were. */
  lemma PurgeLeavesOtherKindsAlone(db: Db, kind: string, other: string)
    requires UniqueIds(db) && other != kind
    ensures var after := PurgeKind(db, kind);
            && LegCount(after.trades, after.opps, other) == LegCount(db.trades, db.opps, other)
            && ProfitOf(after.opps, after.trades, other) == ProfitOf(db.opps, db.trades, other)
            && WinsOf(after.opps, after.trades, other) == WinsOf(db.opps, db.trades, other)
  {
    var after := PurgeKind(db, kind);
    LegsAfterPurge(db.trades, db.opps, kind, other, db.nextOpp);
    ProfitAfterPurge(db.opps, db.trades, kind, other);
    forall i | 0 <= i < |after.opps| && after.opps[i].kind == other
      ensures HasLeg(after.trades, after.opps[i].id) <==> HasLeg(db.trades, after.opps[i].id)
    {
      KeepMembers(db.opps, OtherKind(kind), after.opps[i]);
      var j :| 0 <= j < |db.opps| && db.opps[j] == after.opps[i];
      assert IdOf(db.opps, other, after.opps[i].id);
      if IdOf(db.opps, kind, after.opps[i].id) {
        OneKindPerId(db.opps, kind, other, after.opps[i].id, db.nextOpp);
      }
      HasLegAfterPurge(db, kind, after.opps[i].id);
    }
    ProfitSeesOnlyWhetherTraded(after.opps, after.trades, db.trades, other);
  }

  /** The row names an opportunity of the kind. */
  predicate NamesOne(opps: seq<Opportunity>, id: int, kind: string) {
    exists o :: o in opps && o.id == id && o.kind == kind
  }

  lemma NamesOneIsIdOf(opps: seq<Opportunity>, id: int, kind: string)
    ensures NamesOne(opps, id, kind) <==> IdOf(opps, kind, id)
  {
    if i :| 0 <= i < |opps| && opps[i].id == id && opps[i].kind == kind { assert opps[i] in opps; }
  }

  /** A purge takes the kind's opportunities and the rows that name one of them, and leaves everything else. */
  lemma SurvivesExactlyWhen(db: Db, kind: string, o: Opportunity, t: Trade, p: Position, f: Fill)
    ensures var after := Step(db, Purge(kind));
            && (o in after.opps <==> o in db.opps && o.kind != kind)
            && (t in after.trades <==> t in db.trades && !NamesOne(db.opps, t.opp, kind))
            && (p in after.positions <==> p in db.positions && !NamesOne(db.opps, p.opp, kind))
            && (f in after.fills <==> f in db.fills && !NamesOne(db.opps, f.opp, kind))
  {
    KeepMembers(db.opps, OtherKind(kind), o);
    KeepMembers(db.trades, TradeStays(db.opps, kind), t);
    KeepMembers(db.positions, PositionStays(db.opps, kind), p);
    KeepMembers(db.fills, FillStays(db.opps, kind), f);
    NamesOneIsIdOf(db.opps, t.opp, kind);
    NamesOneIsIdOf(db.opps, p.opp, kind);
    NamesOneIsIdOf(db.opps, f.opp, kind);
  }

  /** The purged kind leaves no opportunity, and no row, behind. */
  lemma PurgeRemovesTheKind(db: Db, kind: string)
    ensures kind !in StrategyPnl(PurgeKind(db, kind))
    ensures forall o :: o in PurgeKind(db, kind).opps ==> o.kind != kind
  {
    forall o | o in PurgeKind(db, kind).opps ensures o.kind != kind {
      KeepMembers(db.opps, OtherKind(kind), o);
    }
  }

  // --------------------------------------------------------------- the object

  class Store {
    var opps: seq<Opportunity>
    var trades: seq<Trade>
    var positions: seq<Position>
    var fills: seq<Fill>
    var nextOpp: int
    var nextTrade: int
    var nextPosition: int
    var nextFill: int

    function Abstract(): Db
      reads this
    {
      Db(opps, trades, positions, fills, nextOpp, nextTrade, nextPosition, nextFill)
    }

    constructor ()
      ensures Abstract() == Empty()
    {
      opps, trades, positions, fills := [], [], [], [];
      nextOpp, nextTrade, nextPosition, nextFill := 1, 1, 1, 1;
    }

    method LogOpportunity(kind: string, profit: real) returns (id: int)
      modifies this
      ensures Abstract() == Step(old(Abstract()), Op.LogOpportunity(kind, profit)) && id == old(nextOpp)
    {
      id := nextOpp;
      opps, nextOpp := opps + [Opportunity(id, kind, profit)], nextOpp + 1;
    }

    method LogTrade(opp: int) returns (id: int)
      modifies this
      ensures Abstract() == Step(old(Abstract()), Op.LogTrade(opp)) && id == old(nextTrade)
    {
      id := nextTrade;
      trades, nextTrade := trades + [Trade(id, opp)], nextTrade + 1;
    }

    method LogPosition(opp: int) returns (id: int)
      modifies this
      ensures Abstract() == Step(old(Abstract()), Op.LogPosition(opp)) && id == old(nextPosition)
    {
      id := nextPosition;
      positions, nextPosition := positions + [Position(id, opp)], nextPosition + 1;
    }

    method LogPartialFill(trade: int, opp: int) returns (id: int)
      modifies this
      ensures Abstract() == Step(old(Abstract()), Op.LogPartialFill(trade, opp)) && id == old(nextFill)
    {
      id := nextFill;
      fills, nextFill := fills + [Fill(id, trade, opp)], nextFill + 1;
    }

    /** Deletes fills, then trades, then positions, then the opportunities, and counts the rows removed. */
    method PurgeOpportunitiesByType(kind: string) returns (oppCount: nat, tradeCount: nat, positionCount: nat, fillCount: nat)
      modifies this
      ensures Abstract() == PurgeKind(old(Abstract()), kind)
      ensures |opps| + oppCount == |old(opps)| && |trades| + tradeCount == |old(trades)|
      ensures |positions| + positionCount == |old(positions)| && |fills| + fillCount == |old(fills)|
    {
      KeepIsNoLonger(opps, OtherKind(kind));
      KeepIsNoLonger(trades, TradeStays(opps, kind));
      KeepIsNoLonger(positions, PositionStays(opps, kind));
      KeepIsNoLonger(fills, FillStays(opps, kind));
      if forall i :: 0 <= i < |opps| ==> opps[i].kind != kind {
        NothingToPurge(Abstract(), kind);
        return 0, 0, 0, 0;
      }
      fillCount := |fills| - |Keep(fills, FillStays(opps, kind))|;
      fills := Keep(fills, FillStays(opps, kind));
      tradeCount := |trades| - |Keep(trades, TradeStays(opps, kind))|;
      trades := Keep(trades, TradeStays(opps, kind));
      positionCount := |positions| - |Keep(positions, PositionStays(opps, kind))|;
      positions := Keep(positions, PositionStays(opps, kind));
      oppCount := |opps| - |Keep(opps, OtherKind(kind))|;
      opps := Keep(opps, OtherKind(kind));
    }
  }

  lemma {:induction false} KeepIsNoLonger<T>(xs: seq<T>, keep: T -> bool)
    ensures |Keep(xs, keep)| <= |xs|
  {
    if xs != [] { KeepIsNoLonger(xs[..|xs| - 1], keep); }
  }

  lemma NothingToPurge(db: Db, kind: string)
    requires forall i :: 0 <= i < |db.opps| ==> db.opps[i].kind != kind
    ensures PurgeKind(db, kind) == db
  {
    KeepAll(db.opps, OtherKind(kind));
    KeepAll(db.trades, TradeStays(db.opps, kind));
    KeepAll(db.positions, PositionStays(db.opps, kind));
    KeepAll(db.fills, FillStays(db.opps, kind));
  }
}
