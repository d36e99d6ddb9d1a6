/** The treasury transfer ledger: an idempotent claim under a rolling 24-hour cap.

    `World` is the protocol seen by any number of SQLite connections: the cutoff is taken
    before the lock, `BEGIN IMMEDIATE` grants a single writer, and the row only becomes
    visible at commit.  Time is in microseconds since the epoch. */
module TransferLedger {
  import opened Basics
  import opened Numerals

  const SECOND: nat := 1_000_000
  const DAY: nat := 86_400 * SECOND

  datatype Status = Pending | Succeeded | DryRun | Failed | Other(name: string)

  /** The statuses the cap query sums over. */
  predicate Counted(s: Status) {
    s.Pending? || s.Succeeded? || s.DryRun?
  }

  datatype Row = Row(id: nat, stamp: nat, amount: real, key: string, status: Status)

  datatype Request = Request(amount: real, key: string, cap: real)

  /** (transfer id, whether this call created it, amount already used when rejected). */
  datatype Answer = Answer(id: Option<nat>, created: bool, used: Option<real>)

  // ---------------------------------------------------------------- queries

  /** Python's `int(x)` of a number of microseconds expressed in seconds: truncation toward zero. */
  function TruncSeconds(us: int): int {
    if us >= 0 then us / SECOND else -((-us) / SECOND)
  }

  lemma TruncatesTowardZero(us: int)
    ensures var t := TruncSeconds(us) * 1_000_000;
            (if us >= 0 then 0 <= t <= us else us <= t <= 0) && -1_000_000 < us - t < 1_000_000
  {}

  function CutoffText(now: nat): string {
    IntText(TruncSeconds(now - DAY))
  }

  /** `strftime('%s', timestamp) >= cutoff`, compared as text. */
  predicate Recent(r: Row, cutoff: string) {
    TextLe(cutoff, Decimal(r.stamp / SECOND))
  }

  function SumIf(rows: seq<Row>, p: Row -> bool): real {
    if rows == [] then 0.0
    else SumIf(rows[..|rows| - 1], p)
         + if p(rows[|rows| - 1]) then rows[|rows| - 1].amount else 0.0
  }

  /** The amount the cap query reports for a cutoff taken at `now`. */
  function Used(rows: seq<Row>, now: nat): real {
    SumIf(rows, (r: Row) => Recent(r, CutoffText(now)) && Counted(r.status))
  }

  /** The amount really moved inside the closed 24-hour window that starts at `start`. */
  function WindowTotal(rows: seq<Row>, start: int): real {
    SumIf(rows, (r: Row) => start <= r.stamp <= start + DAY && Counted(r.status))
  }

  function FindKey(rows: seq<Row>, key: string): (r: Option<nat>)
    ensures r.Some? ==> exists i :: 0 <= i < |rows| && rows[i].key == key && rows[i].id == r.value
    ensures r.None? ==> forall i :: 0 <= i < |rows| ==> rows[i].key != key
  {
    if rows == [] then None
    else if rows[0].key == key then Some(rows[0].id)
    else FindKey(rows[1..], key)
  }

  ghost predicate CapHolds(rows: seq<Row>, cap: real) {
    forall start: int :: WindowTotal(rows, start) <= cap
  }

  // ------------------------------------------------- the claims as atomic updates

  function Fresh(rows: seq<Row>, stampAt: nat, req: Request): Row {
    Row(|rows| + 1, stampAt, req.amount, req.key, Pending)
  }

  /** The capped claim, with the cutoff read at `cutoffAt` and the row stamped at `stampAt`. */
  function CappedClaim(rows: seq<Row>, cutoffAt: nat, stampAt: nat, req: Request): (seq<Row>, Answer) {
    var existing := FindKey(rows, req.key);
    var used := Used(rows, cutoffAt);
    if existing.Some? then (rows, Answer(existing, false, None))
    else if used + req.amount > req.cap then (rows, Answer(None, false, Some(used)))
    else (rows + [Fresh(rows, stampAt, req)], Answer(Some(|rows| + 1), true, None))
  }

  /** The uncapped claim: `INSERT OR IGNORE`, then read the id back. */
  function PlainClaim(rows: seq<Row>, stampAt: nat, req: Request): (seq<Row>, Answer) {
    var existing := FindKey(rows, req.key);
    if existing.Some? then (rows, Answer(existing, false, None))
    else (rows + [Fresh(rows, stampAt, req)], Answer(Some(|rows| + 1), true, None))
  }

  function SetStatus(rows: seq<Row>, id: nat, status: Status): (r: seq<Row>)
    ensures |r| == |rows|
  {
    seq(|rows|, i requires 0 <= i < |rows| =>
      if rows[i].id == id then rows[i].(status := status) else rows[i])
  }

  // ------------------------------------------------------------- the protocol

  datatype Phase =
    | Idle
    | Waiting(req: Request, cutoffAt: nat)
    | Locked(req: Request, cutoffAt: nat)
    | Absent(req: Request, cutoffAt: nat)
    | Summed(req: Request, cutoffAt: nat, used: real)
    | Inserted(req: Request, cutoffAt: nat, row: Row)

  datatype Told = Told(req: Request, answer: Answer)

  datatype World = World(
    table: seq<Row>,
    clock: nat,
    writer: Option<nat>,
    phases: map<nat, Phase>,
    told: seq<Told>)

  datatype Step =
    | Start(c: nat, req: Request)
    | Begin(c: nat)
    | Busy(c: nat)
    | Replay(c: nat)
    | Miss(c: nat)
    | Sum(c: nat)
    | Reject(c: nat)
    | Insert(c: nat)
    | Commit(c: nat)
    | Abort(c: nat)
    | Update(id: nat, status: Status)
    | Tick(dt: nat)

  predicate InTransaction(p: Phase) {
    p.Locked? || p.Absent? || p.Summed? || p.Inserted?
  }

  function Release(w: World, c: nat): World {
    w.(writer := None, phases := w.phases[c := Idle])
  }

  function Reply(w: World, c: nat, answer: Answer): World
    requires c in w.phases && !w.phases[c].Idle?
  {
    Release(w, c).(told := w.told + [Told(w.phases[c].req, answer)])
  }

  /** When a step may be taken.  `limit` bounds the caps the callers pass. */
  predicate Enabled(w: World, s: Step, limit: real) {
    match s
    case Tick(_) => true
    case Update(id, status) =>
      // one autocommitted UPDATE: it needs the writer lock, and it never revives a dead row
      && w.writer == None
      && forall i :: 0 <= i < |w.table| && w.table[i].id == id && !Counted(w.table[i].status) ==> !Counted(status)
    case Start(c, req) => c in w.phases && w.phases[c].Idle? && 0.0 <= req.amount && req.cap <= limit
    case Begin(c) => c in w.phases && w.phases[c].Waiting? && w.writer == None
    case Busy(c) => c in w.phases && w.phases[c].Waiting?
    case Replay(c) => c in w.phases && w.phases[c].Locked? && FindKey(w.table, w.phases[c].req.key).Some?
    case Miss(c) => c in w.phases && w.phases[c].Locked? && FindKey(w.table, w.phases[c].req.key).None?
    case Sum(c) => c in w.phases && w.phases[c].Absent?
    case Reject(c) => c in w.phases && w.phases[c].Summed? && w.phases[c].used + w.phases[c].req.amount > w.phases[c].req.cap
    case Insert(c) => c in w.phases && w.phases[c].Summed? && w.phases[c].used + w.phases[c].req.amount <= w.phases[c].req.cap
    case Commit(c) => c in w.phases && w.phases[c].Inserted?
    case Abort(c) => c in w.phases && InTransaction(w.phases[c])
  }

  function Take(w: World, s: Step, limit: real): World
    requires Enabled(w, s, limit)
  {
    match s
    case Tick(dt) => w.(clock := w.clock + dt)
    case Update(id, status) => w.(table := SetStatus(w.table, id, status))
    case Start(c, req) => w.(phases := w.phases[c := Waiting(req, w.clock)])
    case Begin(c) => w.(writer := Some(c), phases := w.phases[c := Locked(w.phases[c].req, w.phases[c].cutoffAt)])
    case Busy(c) => w.(phases := w.phases[c := Idle])
    case Replay(c) => Reply(w, c, Answer(FindKey(w.table, w.phases[c].req.key), false, None))
    case Miss(c) => w.(phases := w.phases[c := Absent(w.phases[c].req, w.phases[c].cutoffAt)])
    case Sum(c) =>
      w.(phases := w.phases[c := Summed(w.phases[c].req, w.phases[c].cutoffAt, Used(w.table, w.phases[c].cutoffAt))])
    case Reject(c) => Reply(w, c, Answer(None, false, Some(w.phases[c].used)))
    case Insert(c) =>
      w.(phases := w.phases[c := Inserted(w.phases[c].req, w.phases[c].cutoffAt, Fresh(w.table, w.clock, w.phases[c].req))])
    case Commit(c) =>
      Reply(w, c, Answer(Some(w.phases[c].row.id), true, None)).(table := w.table + [w.phases[c].row])
    case Abort(c) => Release(w, c)
  }

  predicate Init(w: World) {
    w.table == [] && w.writer == None && w.told == [] && forall c :: c in w.phases ==> w.phases[c] == Idle
  }

  predicate Run(ws: seq<World>, steps: seq<Step>, limit: real) {
    && |ws| == |steps| + 1
    && Init(ws[0])
    && forall i :: 0 <= i < |steps| ==> Enabled(ws[i], steps[i], limit) && ws[i + 1] == Take(ws[i], steps[i], limit)
  }

  /** Decimal digits of the epoch second of an instant. */
  function Digits(t: nat): nat {
    |Decimal(t / SECOND)|
  }

  predicate SameLength(a: nat, b: nat) {
    Digits(a) == Digits(b)
  }

  /** Instants whose epoch second, and the second a day earlier, both have `d` digits.  With ten digits:
      from 10 September 2001 to 20 November 2286. */
  predicate InEra(t: nat, d: nat) {
    DAY <= t && Digits(t - DAY) == d == Digits(t)
  }

  lemma DigitsGrow(a: nat, b: nat)
    requires a <= b
    ensures Digits(a) <= Digits(b)
  {
    NumeralLength(a / SECOND, Digits(b));
    NumeralLength(b / SECOND, Digits(b));
  }

  lemma InEraBetween(a: nat, t: nat, b: nat, d: nat)
    requires InEra(a, d) && InEra(b, d) && a <= t <= b
    ensures InEra(t, d)
  {
    DigitsGrow(a - DAY, t - DAY);
    DigitsGrow(t - DAY, b - DAY);
    DigitsGrow(a, t);
    DigitsGrow(t, b);
  }

  // -------------------------------------------------------------- sums over rows

  lemma {:induction false} SumIfMono(rows: seq<Row>, p: Row -> bool, q: Row -> bool)
    requires forall r :: r in rows ==> 0.0 <= r.amount && (p(r) ==> q(r))
    ensures SumIf(rows, p) <= SumIf(rows, q)
  {
    if rows != [] {
      var init := rows[..|rows| - 1];
      assert rows[|rows| - 1] in rows;
      assert forall r :: r in init ==> r in rows;
      SumIfMono(init, p, q);
    }
  }

  lemma {:induction false} SumIfAppend(rows: seq<Row>, r: Row, p: Row -> bool)
    ensures SumIf(rows + [r], p) == SumIf(rows, p) + if p(r) then r.amount else 0.0
  {
    assert (rows + [r])[..|rows + [r]| - 1] == rows;
  }

  /** Two tables that differ only in rows `p` selects on the right but not on the left. */
  lemma {:induction false} SumIfPointwise(a: seq<Row>, b: seq<Row>, p: Row -> bool)
    requires |a| == |b|
    requires forall i :: 0 <= i < |a| ==> a[i].amount == b[i].amount && 0.0 <= a[i].amount && (p(a[i]) ==> p(b[i]))
    ensures SumIf(a, p) <= SumIf(b, p)
  {
    if a != [] {
      SumIfPointwise(a[..|a| - 1], b[..|b| - 1], p);
    }
  }

  /** While epoch seconds keep one length the text query never misses a row stamped within a day of the
      cutoff instant. */
  lemma QueryCoversTheDay(r: Row, now: nat, d: nat)
    requires InEra(now, d) && Digits(r.stamp) == d
    ensures Recent(r, CutoffText(now)) <==> (now - DAY) / SECOND <= r.stamp / SECOND
    ensures now - DAY <= r.stamp ==> Recent(r, CutoffText(now))
  {
    TextOrderIsNumericOrder((now - DAY) / SECOND, r.stamp / SECOND);
  }

  // ------------------------------------------------------------------ safety

  /** Rows numbered from one, with non-negative amounts, distinct keys, and stamps up to `clock`. */
  predicate Orderly(rows: seq<Row>, clock: nat) {
    && (forall i :: 0 <= i < |rows| ==> rows[i].id == i + 1 && 0.0 <= rows[i].amount && rows[i].stamp <= clock)
    && (forall i, j :: 0 <= i < j < |rows| ==> rows[i].key != rows[j].key)
  }

  predicate WellFormed(rows: seq<Row>, clock: nat, d: nat) {
    Orderly(rows, clock) && forall i :: 0 <= i < |rows| ==> InEra(rows[i].stamp, d)
  }

  /** What one connection may rely on in each phase. */
  predicate PhaseOk(rows: seq<Row>, clock: nat, p: Phase, limit: real, d: nat) {
    && (!p.Idle? ==> p.cutoffAt <= clock && InEra(p.cutoffAt, d) && 0.0 <= p.req.amount && p.req.cap <= limit)
    && (p.Absent? || p.Summed? || p.Inserted? ==> FindKey(rows, p.req.key).None?)
    && (p.Summed? ==> p.used == Used(rows, p.cutoffAt))
    && (p.Inserted? ==>
          && p.row == Fresh(rows, p.row.stamp, p.req)
          && p.cutoffAt <= p.row.stamp <= clock
          && Used(rows, p.cutoffAt) + p.req.amount <= p.req.cap)
  }

  function CreatedIds(told: seq<Told>): seq<nat> {
    if told == [] then []
    else
      var a := told[|told| - 1].answer;
      CreatedIds(told[..|told| - 1]) + if a.created && a.id.Some? then [a.id.value] else []
  }

  /** The row ids in the order they are given out. */
  function Ids(n: nat): seq<nat> {
    seq(n, i => i + 1)
  }

  predicate NamesItsRow(t: Told, rows: seq<Row>) {
    t.answer.id.Some? ==> 1 <= t.answer.id.value <= |rows| && rows[t.answer.id.value - 1].key == t.req.key
  }

  predicate ToldOk(told: seq<Told>, rows: seq<Row>) {
    CreatedIds(told) == Ids(|rows|) && forall k :: 0 <= k < |told| ==> NamesItsRow(told[k], rows)
  }

  predicate ConnectionOk(w: World, c: nat, limit: real, d: nat)
    requires c in w.phases
  {
    PhaseOk(w.table, w.clock, w.phases[c], limit, d) && (InTransaction(w.phases[c]) <==> w.writer == Some(c))
  }

  ghost predicate Inv(w: World, limit: real, d: nat) {
    && InEra(w.clock, d)
    && WellFormed(w.table, w.clock, d)
    && CapHolds(w.table, limit)
    && ToldOk(w.told, w.table)
    && forall c :: c in w.phases ==> ConnectionOk(w, c, limit, d)
  }

  /** The heart of the cap: when the query sees every row that shares a window with the new one, a claim that
      fits what it reported keeps every window under the limit. */
  lemma AppendKeepsCap(rows: seq<Row>, row: Row, cutoffAt: nat, limit: real)
    requires CapHolds(rows, limit) && forall r :: r in rows ==> 0.0 <= r.amount
    requires forall r :: r in rows && row.stamp - DAY <= r.stamp ==> Recent(r, CutoffText(cutoffAt))
    requires Used(rows, cutoffAt) + row.amount <= limit && Counted(row.status)
    ensures CapHolds(rows + [row], limit)
  {
    forall start: int ensures WindowTotal(rows + [row], start) <= limit {
      var inWindow := (r: Row) => start <= r.stamp <= start + DAY && Counted(r.status);
      var recent := (r: Row) => Recent(r, CutoffText(cutoffAt)) && Counted(r.status);
      SumIfAppend(rows, row, inWindow);
      assert WindowTotal(rows, start) <= limit;
      if inWindow(row) {
        forall r | r in rows ensures inWindow(r) ==> recent(r) {}
        SumIfMono(rows, inWindow, recent);
      }
    }
  }

  lemma SetStatusKeepsCap(rows: seq<Row>, id: nat, status: Status, limit: real)
    requires CapHolds(rows, limit) && forall i :: 0 <= i < |rows| ==> 0.0 <= rows[i].amount
    requires forall i :: 0 <= i < |rows| && rows[i].id == id && !Counted(rows[i].status) ==> !Counted(status)
    ensures CapHolds(SetStatus(rows, id, status), limit)
  {
    forall start: int ensures WindowTotal(SetStatus(rows, id, status), start) <= limit {
      SumIfPointwise(SetStatus(rows, id, status), rows, (r: Row) => start <= r.stamp <= start + DAY && Counted(r.status));
      assert WindowTotal(rows, start) <= limit;
    }
  }

  lemma {:induction false} CreatedIdsAppend(told: seq<Told>, t: Told)
    ensures CreatedIds(told + [t]) == CreatedIds(told) + if t.answer.created && t.answer.id.Some? then [t.answer.id.value] else []
  {
    assert (told + [t])[..|told + [t]| - 1] == told;
  }

  lemma CommitKeepsTable(w: World, c: nat, limit: real, d: nat)
    requires Inv(w, limit, d) && Enabled(w, Commit(c), limit)
    ensures var rows := w.table + [w.phases[c].row]; WellFormed(rows, w.clock, d) && CapHolds(rows, limit)
  {
    var p := w.phases[c];
    assert ConnectionOk(w, c, limit, d);
    CommitKeepsForm(w.table, w.clock, p, limit, d);
    forall r | r in w.table && p.row.stamp - DAY <= r.stamp ensures Recent(r, CutoffText(p.cutoffAt)) {
      QueryCoversTheDay(r, p.cutoffAt, d);
    }
    AppendKeepsCap(w.table, p.row, p.cutoffAt, limit);
  }

  lemma CommitKeepsForm(rows: seq<Row>, clock: nat, p: Phase, limit: real, d: nat)
    requires WellFormed(rows, clock, d) && InEra(clock, d) && p.Inserted? && PhaseOk(rows, clock, p, limit, d)
    ensures WellFormed(rows + [p.row], clock, d)
  {
    InEraBetween(p.cutoffAt, p.row.stamp, clock, d);
  }

  lemma NextId(n: nat)
    ensures Ids(n + 1) == Ids(n) + [n + 1]
  {}

  /** The answer to a new claim names the row appended for it. */
  lemma CommitKeepsTold(told: seq<Told>, rows: seq<Row>, req: Request, row: Row)
    requires ToldOk(told, rows) && row.id == |rows| + 1 && row.key == req.key
    ensures ToldOk(told + [Told(req, Answer(Some(row.id), true, None))], rows + [row])
  {
    var t := Told(req, Answer(Some(row.id), true, None));
    CreatedIdsAppend(told, t);
    NextId(|rows|);
    forall k | 0 <= k < |told + [t]| ensures NamesItsRow((told + [t])[k], rows + [row]) {
      if k < |told| { assert NamesItsRow(told[k], rows); }
    }
  }

  lemma QuietReplyKeepsTold(told: seq<Told>, rows: seq<Row>, t: Told)
    requires ToldOk(told, rows) && !t.answer.created && NamesItsRow(t, rows)
    ensures ToldOk(told + [t], rows)
  {
    CreatedIdsAppend(told, t);
    forall k | 0 <= k < |told + [t]| ensures NamesItsRow((told + [t])[k], rows) {
      if k < |told| { assert NamesItsRow(told[k], rows); }
    }
  }

  /** Outside the transaction a connection relies on nothing but the clock, which only advances. */
  lemma OutsideOnlyTheClockMatters(rows: seq<Row>, clock: nat, p: Phase, later: seq<Row>, laterClock: nat, limit: real, d: nat)
    requires PhaseOk(rows, clock, p, limit, d) && clock <= laterClock && (!InTransaction(p) || later == rows)
    ensures PhaseOk(later, laterClock, p, limit, d)
  {}

  /** While one connection is in its transaction every other one is outside, so a commit disturbs no phase. */
  lemma CommitKeepsPhases(w: World, c: nat, limit: real, d: nat)
    requires Inv(w, limit, d) && Enabled(w, Commit(c), limit)
    ensures var w' := Take(w, Commit(c), limit); forall e :: e in w'.phases ==> ConnectionOk(w', e, limit, d)
  {
    var w' := Take(w, Commit(c), limit);
    assert ConnectionOk(w, c, limit, d);
    forall e | e in w'.phases ensures ConnectionOk(w', e, limit, d) {
      if e != c {
        assert ConnectionOk(w, e, limit, d);
        OutsideOnlyTheClockMatters(w.table, w.clock, w.phases[e], w'.table, w'.clock, limit, d);
      }
    }
  }

  lemma CommitKeepsInv(w: World, c: nat, limit: real, d: nat)
    requires Inv(w, limit, d) && Enabled(w, Commit(c), limit)
    ensures Inv(Take(w, Commit(c), limit), limit, d)
  {
    var p := w.phases[c];
    assert ConnectionOk(w, c, limit, d);
    CommitKeepsTable(w, c, limit, d);
    CommitKeepsTold(w.told, w.table, p.req, p.row);
    CommitKeepsPhases(w, c, limit, d);
  }

  /** One connection moves to phase `p`, taking or dropping at most its own hold on the writer lock. */
  lemma PhaseMoveKeepsInv(w: World, c: nat, p: Phase, writer: Option<nat>, limit: real, d: nat)
    requires Inv(w, limit, d) && c in w.phases
    requires PhaseOk(w.table, w.clock, p, limit, d) && (InTransaction(p) <==> writer == Some(c))
    requires w.writer == None || w.writer == Some(c) || w.writer == writer
    requires writer == None || writer == Some(c) || w.writer == writer
    ensures Inv(w.(writer := writer, phases := w.phases[c := p]), limit, d)
  {
    var w' := w.(writer := writer, phases := w.phases[c := p]);
    forall e | e in w'.phases ensures ConnectionOk(w', e, limit, d) {
      if e != c { assert ConnectionOk(w, e, limit, d); }
    }
  }

  /** A connection ends its claim without having changed the table. */
  lemma QuietReplyKeepsInv(w: World, c: nat, answer: Answer, limit: real, d: nat)
    requires Inv(w, limit, d) && c in w.phases && InTransaction(w.phases[c]) && !answer.created
    requires NamesItsRow(Told(w.phases[c].req, answer), w.table)
    ensures Inv(Reply(w, c, answer), limit, d)
  {
    assert ConnectionOk(w, c, limit, d);
    PhaseMoveKeepsInv(w, c, Idle, None, limit, d);
    QuietReplyKeepsTold(w.told, w.table, Told(w.phases[c].req, answer));
    var quiet, w' := Release(w, c), Reply(w, c, answer);
    forall e | e in w'.phases ensures ConnectionOk(w', e, limit, d) {
      assert ConnectionOk(quiet, e, limit, d);
    }
  }

  lemma SetStatusKeepsForm(rows: seq<Row>, id: nat, status: Status, clock: nat, d: nat)
    requires WellFormed(rows, clock, d)
    ensures WellFormed(SetStatus(rows, id, status), clock, d)
  {}

  lemma SetStatusKeepsTold(told: seq<Told>, rows: seq<Row>, id: nat, status: Status)
    requires ToldOk(told, rows)
    ensures ToldOk(told, SetStatus(rows, id, status))
  {
    forall k | 0 <= k < |told| ensures NamesItsRow(told[k], SetStatus(rows, id, status)) {
      assert NamesItsRow(told[k], rows);
    }
  }

  lemma UpdateKeepsInv(w: World, id: nat, status: Status, limit: real, d: nat)
    requires Inv(w, limit, d) && Enabled(w, Update(id, status), limit)
    ensures Inv(Take(w, Update(id, status), limit), limit, d)
  {
    SetStatusKeepsCap(w.table, id, status, limit);
    SetStatusKeepsForm(w.table, id, status, w.clock, d);
    SetStatusKeepsTold(w.told, w.table, id, status);
    var w' := Take(w, Update(id, status), limit);
    forall e | e in w'.phases ensures ConnectionOk(w', e, limit, d) {
      assert ConnectionOk(w, e, limit, d);
      OutsideOnlyTheClockMatters(w.table, w.clock, w.phases[e], w'.table, w'.clock, limit, d);
    }
  }

  lemma TickKeepsInv(w: World, dt: nat, limit: real, d: nat)
    requires Inv(w, limit, d) && InEra(w.clock + dt, d)
    ensures Inv(w.(clock := w.clock + dt), limit, d)
  {
    var w' := w.(clock := w.clock + dt);
    forall e | e in w'.phases ensures ConnectionOk(w', e, limit, d) {
      assert ConnectionOk(w, e, limit, d);
      OutsideOnlyTheClockMatters(w.table, w.clock, w.phases[e], w'.table, w'.clock, limit, d);
    }
  }

  /** The steps that change one connection's phase and perhaps the lock, but neither table nor answers. */
  lemma QuietStepKeepsInv(w: World, s: Step, limit: real, d: nat)
    requires Inv(w, limit, d) && Enabled(w, s, limit)
    requires s.Start? || s.Begin? || s.Busy? || s.Miss? || s.Sum? || s.Insert? || s.Abort?
    ensures Inv(Take(w, s, limit), limit, d)
  {
    assert ConnectionOk(w, s.c, limit, d);
    var p := w.phases[s.c];
    match s
    case Start(c, req) => PhaseMoveKeepsInv(w, c, Waiting(req, w.clock), w.writer, limit, d);
    case Begin(c) => PhaseMoveKeepsInv(w, c, Locked(p.req, p.cutoffAt), Some(c), limit, d);
    case Busy(c) => PhaseMoveKeepsInv(w, c, Idle, w.writer, limit, d);
    case Miss(c) => PhaseMoveKeepsInv(w, c, Absent(p.req, p.cutoffAt), w.writer, limit, d);
    case Sum(c) => PhaseMoveKeepsInv(w, c, Summed(p.req, p.cutoffAt, Used(w.table, p.cutoffAt)), w.writer, limit, d);
    case Insert(c) =>
      PhaseMoveKeepsInv(w, c, Inserted(p.req, p.cutoffAt, Fresh(w.table, w.clock, p.req)), w.writer, limit, d);
    case Abort(c) => PhaseMoveKeepsInv(w, c, Idle, None, limit, d);
  }

  lemma StepKeepsInv(w: World, s: Step, limit: real, d: nat)
    requires Inv(w, limit, d) && Enabled(w, s, limit)
    requires InEra(Take(w, s, limit).clock, d)
    ensures Inv(Take(w, s, limit), limit, d)
  {
    match s
    case Tick(dt) => TickKeepsInv(w, dt, limit, d);
    case Update(id, status) => UpdateKeepsInv(w, id, status, limit, d);
    case Commit(c) => CommitKeepsInv(w, c, limit, d);
    case Replay(c) => QuietReplyKeepsInv(w, c, Answer(FindKey(w.table, w.phases[c].req.key), false, None), limit, d);
    case Reject(c) => QuietReplyKeepsInv(w, c, Answer(None, false, Some(w.phases[c].used)), limit, d);
    case _ => QuietStepKeepsInv(w, s, limit, d);
  }

  // ----------------------------------------------------------- main results

  lemma {:induction false} ClockNeverRunsBack(ws: seq<World>, steps: seq<Step>, limit: real, i: nat, j: nat)
    requires Run(ws, steps, limit) && i <= j <= |steps|
    ensures ws[i].clock <= ws[j].clock
    decreases j
  {
    if i < j {
      ClockNeverRunsBack(ws, steps, limit, i, j - 1);
      assert ws[j - 1 + 1] == Take(ws[j - 1], steps[j - 1], limit);
    }
  }

  lemma {:induction false} RunKeepsInv(ws: seq<World>, steps: seq<Step>, limit: real, k: nat, d: nat)
    requires Run(ws, steps, limit) && 0.0 <= limit && k <= |steps|
    requires InEra(ws[0].clock, d) && InEra(ws[|steps|].clock, d)
    ensures Inv(ws[k], limit, d)
    decreases k
  {
    ClockNeverRunsBack(ws, steps, limit, 0, k);
    ClockNeverRunsBack(ws, steps, limit, k, |steps|);
    InEraBetween(ws[0].clock, ws[k].clock, ws[|steps|].clock, d);
    if k == 0 {
      assert CreatedIds([]) == Ids(0);
    } else {
      RunKeepsInv(ws, steps, limit, k - 1, d);
      assert ws[k - 1 + 1] == Take(ws[k - 1], steps[k - 1], limit);
      StepKeepsInv(ws[k - 1], steps[k - 1], limit, d);
    }
  }

  /** The run starts more than a day after the epoch, and from a day before it until its end epoch seconds
      keep one number of digits. */
  predicate OneEra(ws: seq<World>)
    requires ws != []
  {
    DAY <= ws[0].clock && SameLength(ws[0].clock - DAY, ws[|ws| - 1].clock)
  }

  lemma OneEraThroughout(ws: seq<World>, steps: seq<Step>, limit: real)
    requires Run(ws, steps, limit) && OneEra(ws)
    ensures var d := Digits(ws[0].clock); InEra(ws[0].clock, d) && InEra(ws[|steps|].clock, d)
  {
    var first, last := ws[0].clock, ws[|steps|].clock;
    ClockNeverRunsBack(ws, steps, limit, 0, |steps|);
    DigitsGrow(first - DAY, first);
    DigitsGrow(first, last);
    DigitsGrow(first - DAY, last - DAY);
    DigitsGrow(last - DAY, last);
  }

  /** Money sent, or still to be sent, in the 24 hours from `start`: everything but what failed or was given a
      status of its own. */
  function MovedInADay(rows: seq<Row>, start: int): real {
    if rows == [] then 0.0
    else
      var r := rows[|rows| - 1];
      MovedInADay(rows[..|rows| - 1], start)
        + if start <= r.stamp <= start + 24 * 60 * 60 * 1_000_000 && !r.status.Failed? && !r.status.Other? then r.amount else 0.0
  }

  lemma {:induction false} WindowsHoldWhatMoved(rows: seq<Row>, start: int)
    ensures WindowTotal(rows, start) == MovedInADay(rows, start)
  {
    if rows != [] {
      var init, r := rows[..|rows| - 1], rows[|rows| - 1];
      WindowsHoldWhatMoved(init, start);
      assert init + [r] == rows;
      SumIfAppend(init, r, (r: Row) => start <= r.stamp <= start + DAY && Counted(r.status));
    }
  }

  /** Every state of every interleaving: no 24-hour window, wherever it starts, moves more than
      the cap, whether its transfers are pending, done or dry; a key owns at most one row; and the
      callers told "created" are exactly the rows, one each, in order. */
  lemma CapHoldsInEveryRun(ws: seq<World>, steps: seq<Step>, limit: real, k: nat)
    requires Run(ws, steps, limit) && 0.0 <= limit && k <= |steps| && OneEra(ws)
    ensures forall start: int :: MovedInADay(ws[k].table, start) <= limit
    ensures forall i, j :: 0 <= i < j < |ws[k].table| ==> ws[k].table[i].key != ws[k].table[j].key
    ensures CreatedIds(ws[k].told) == Ids(|ws[k].table|)
  {
    OneEraThroughout(ws, steps, limit);
    RunKeepsInv(ws, steps, limit, k, Digits(ws[0].clock));
    forall start: int ensures MovedInADay(ws[k].table, start) <= limit {
      WindowsHoldWhatMoved(ws[k].table, start);
      assert WindowTotal(ws[k].table, start) <= limit;
    }
  }

  /** The number of "created" answers among the first `n`. */
  lemma {:induction false} CreatedIdsPrefix(told: seq<Told>, n: nat)
    requires n <= |told|
    ensures |CreatedIds(told[..n])| <= |CreatedIds(told)|
    ensures CreatedIds(told)[..|CreatedIds(told[..n])|] == CreatedIds(told[..n])
    decreases |told|
  {
    if n < |told| {
      var init := told[..|told| - 1];
      CreatedIdsPrefix(init, n);
      assert init[..n] == told[..n];
    } else {
      assert told[..n] == told;
    }
  }

  /** Where a "created" answer stands in the list of created ids. */
  lemma CreatedAt(told: seq<Told>, n: nat)
    requires n < |told| && told[n].answer.created && told[n].answer.id.Some?
    ensures var p := |CreatedIds(told[..n])|;
            p < |CreatedIds(told[..n + 1])| <= |CreatedIds(told)| && CreatedIds(told)[p] == told[n].answer.id.value
  {
    CreatedIdsPrefix(told, n + 1);
    CreatedIdsAppend(told[..n], told[n]);
    assert told[..n + 1] == told[..n] + [told[n]];
  }

  lemma CreatedOnce(told: seq<Told>, m: nat, n: nat, count: nat)
    requires m < n < |told| && CreatedIds(told) == Ids(count)
    requires told[m].answer.created && told[n].answer.created && told[m].answer.id.Some? && told[n].answer.id.Some?
    ensures told[m].answer.id != told[n].answer.id
  {
    CreatedAt(told, m);
    CreatedAt(told, n);
    CreatedEarlier(told, m, n);
    var p, q := |CreatedIds(told[..m])|, |CreatedIds(told[..n])|;
    assert Ids(count)[p] == p + 1 && Ids(count)[q] == q + 1;
  }

  lemma CreatedEarlier(told: seq<Told>, m: nat, n: nat)
    requires m < n <= |told| && told[m].answer.created && told[m].answer.id.Some?
    ensures |CreatedIds(told[..m])| < |CreatedIds(told[..n])|
  {
    CreatedAt(told[..n], m);
    assert told[..n][..m] == told[..m];
  }

  /** In every run, whatever came between them, two answers naming a row for one key name the same row, and
      at most one of them says that it was created. */
  lemma OneKeyOneTransfer(ws: seq<World>, steps: seq<Step>, limit: real, k: nat, m: nat, n: nat)
    requires Run(ws, steps, limit) && 0.0 <= limit && k <= |steps| && OneEra(ws)
    requires m < n < |ws[k].told| && ws[k].told[m].req.key == ws[k].told[n].req.key
    requires ws[k].told[m].answer.id.Some? && ws[k].told[n].answer.id.Some?
    ensures ws[k].told[m].answer.id == ws[k].told[n].answer.id
    ensures !(ws[k].told[m].answer.created && ws[k].told[n].answer.created)
  {
    OneEraThroughout(ws, steps, limit);
    RunKeepsInv(ws, steps, limit, k, Digits(ws[0].clock));
    var told := ws[k].told;
    if told[m].answer.created && told[n].answer.created {
      CreatedOnce(told, m, n, |ws[k].table|);
    }
  }

  /** Each completed transaction, however it was interleaved, is one atomic `CappedClaim`. */
  lemma TransactionsAreAtomic(w: World, s: Step, limit: real, d: nat)
    requires Inv(w, limit, d) && Enabled(w, s, limit)
    requires s.Replay? || s.Reject? || s.Commit?
    ensures var p := w.phases[s.c];
            var w' := Take(w, s, limit);
            var stampAt := if p.Inserted? then p.row.stamp else w.clock;
            (w'.table, w'.told[|w'.told| - 1].answer) == CappedClaim(w.table, p.cutoffAt, stampAt, p.req)
    ensures w.clock >= w.phases[s.c].cutoffAt
  {
    assert ConnectionOk(w, s.c, limit, d);
  }

  /** The holder of the writer lock always has a step that brings its transaction closer to the end, besides giving up:
      it finds the key or misses it, sums, fits the cap or does not, and commits. */
  lemma TransactionsGoOn(w: World, c: nat, limit: real)
    requires c in w.phases && InTransaction(w.phases[c])
    ensures var p := w.phases[c];
            match p
            case Locked(_, _) => Enabled(w, Replay(c), limit) <==> !Enabled(w, Miss(c), limit)
            case Absent(_, _) => Enabled(w, Sum(c), limit)
            case Summed(_, _, _) => Enabled(w, Reject(c), limit) <==> !Enabled(w, Insert(c), limit)
            case Inserted(_, _, _) => Enabled(w, Commit(c), limit)
    ensures Enabled(w, Abort(c), limit)
  {}

  /** A row, once committed, keeps its id, key, amount and time for the rest of the run. */
  lemma {:induction false} RowsPersist(ws: seq<World>, steps: seq<Step>, limit: real, k: nat, l: nat, i: nat)
    requires Run(ws, steps, limit) && k <= l <= |steps| && i < |ws[k].table|
    ensures i < |ws[l].table|
    ensures ws[l].table[i].(status := Pending) == ws[k].table[i].(status := Pending)
    decreases l
  {
    if k < l {
      RowsPersist(ws, steps, limit, k, l - 1, i);
      assert ws[l - 1 + 1] == Take(ws[l - 1], steps[l - 1], limit);
    }
  }

  lemma {:induction false} FindKeyAppend(rows: seq<Row>, r: Row, key: string)
    ensures FindKey(rows + [r], key) ==
            if FindKey(rows, key).Some? then FindKey(rows, key) else if r.key == key then Some(r.id) else None
  {
    if rows == [] {
      assert (rows + [r])[1..] == [];
    } else {
      assert (rows + [r])[1..] == rows[1..] + [r];
      FindKeyAppend(rows[1..], r, key);
    }
  }

  /** Money sent, or still to be sent, from the second `since` on. */
  function MovedSince(rows: seq<Row>, since: int): real {
    if rows == [] then 0.0
    else
      var r := rows[|rows| - 1];
      MovedSince(rows[..|rows| - 1], since)
        + if since <= r.stamp / 1_000_000 && !r.status.Failed? && !r.status.Other? then r.amount else 0.0
  }

  /** What the cap query reports while epoch seconds keep one length. */
  lemma {:induction false} UsedIsTheDaysMoves(rows: seq<Row>, now: nat, d: nat)
    requires InEra(now, d) && forall i :: 0 <= i < |rows| ==> Digits(rows[i].stamp) == d
    ensures Used(rows, now) == MovedSince(rows, (now - 86_400_000_000) / 1_000_000)
  {
    if rows != [] {
      var init, r := rows[..|rows| - 1], rows[|rows| - 1];
      UsedIsTheDaysMoves(init, now, d);
      assert init + [r] == rows;
      SumIfAppend(init, r, (r: Row) => Recent(r, CutoffText(now)) && Counted(r.status));
      QueryCoversTheDay(r, now, d);
    }
  }

  /** The claim decided: a known key is answered with its row and nothing else happens; otherwise it is refused if and
      only if the day's moves and the new amount exceed the cap, with those moves reported; otherwise one pending row is
      added under the next id. */
  lemma ClaimIsDecidedByTheDay(rows: seq<Row>, cutoffAt: nat, stampAt: nat, req: Request, d: nat)
    requires InEra(cutoffAt, d) && forall i :: 0 <= i < |rows| ==> Digits(rows[i].stamp) == d
    ensures var (after, answer) := CappedClaim(rows, cutoffAt, stampAt, req);
            var moved := MovedSince(rows, (cutoffAt - 86_400_000_000) / 1_000_000);
            if exists i :: 0 <= i < |rows| && rows[i].key == req.key then
              after == rows && !answer.created && answer.used.None? && answer.id.Some?
              && exists i :: 0 <= i < |rows| && rows[i].key == req.key && answer.id.value == rows[i].id
            else if moved + req.amount > req.cap then after == rows && answer == Answer(None, false, Some(moved))
            else after == rows + [Row(|rows| + 1, stampAt, req.amount, req.key, Pending)]
                 && answer == Answer(Some(|rows| + 1), true, None)
  {
    UsedIsTheDaysMoves(rows, cutoffAt, d);
  }

  lemma {:induction false} SumsAgree(a: seq<Row>, b: seq<Row>, p: Row -> bool)
    requires |a| == |b|
    requires forall i :: 0 <= i < |a| ==> a[i].amount == b[i].amount && (p(a[i]) <==> p(b[i]))
    ensures SumIf(a, p) == SumIf(b, p)
  {
    if a != [] { SumsAgree(a[..|a| - 1], b[..|b| - 1], p); }
  }

  /** The claim without a cap does what a capped one does whose cap is not reached. */
  lemma PlainClaimIsUncapped(rows: seq<Row>, cutoffAt: nat, stampAt: nat, req: Request, cap: real)
    requires Used(rows, cutoffAt) + req.amount <= cap
    ensures PlainClaim(rows, stampAt, req) == CappedClaim(rows, cutoffAt, stampAt, req.(cap := cap))
  {}

  /** A transfer that succeeds, or turns out to be a dry run, goes on using up the cap. */
  lemma SuccessFreesNothing(rows: seq<Row>, id: nat, now: nat)
    requires forall i :: 0 <= i < |rows| && rows[i].id == id ==> rows[i].status == Pending
    ensures Used(SetStatus(rows, id, Succeeded), now) == Used(rows, now)
    ensures Used(SetStatus(rows, id, DryRun), now) == Used(rows, now)
  {
    var p := (r: Row) => Recent(r, CutoffText(now)) && Counted(r.status);
    SumsAgree(SetStatus(rows, id, Succeeded), rows, p);
    SumsAgree(SetStatus(rows, id, DryRun), rows, p);
  }

  /** Replaying a key, with any amount, cap or time, returns the original id and changes nothing. */
  lemma ReplayReturnsTheOriginal(rows: seq<Row>, req: Request, again: Request, t0: nat, t1: nat, t2: nat, t3: nat)
    requires again.key == req.key
    ensures var (rows1, first) := CappedClaim(rows, t0, t1, req);
            var (rows2, second) := CappedClaim(rows1, t2, t3, again);
            first.id.Some? ==> rows2 == rows1 && second == Answer(first.id, false, None)
  {
    FindKeyAppend(rows, Fresh(rows, t1, req), req.key);
  }

  // ------------------------------------------------ where the cap does not hold

  /** Two connections that both read before either claims: each check passes and the cap is broken. */
  lemma SplitFormBreaksTheCap(now: nat)
    ensures var a, b := Request(60.0, "a", 100.0), Request(60.0, "b", 100.0);
            && Used([], now) + a.amount <= a.cap && Used([], now) + b.amount <= b.cap
            && !CapHolds(PlainClaim(PlainClaim([], now, a).0, now, b).0, 100.0)
  {
    var a, b := Request(60.0, "a", 100.0), Request(60.0, "b", 100.0);
    var one := PlainClaim([], now, a).0;
    var two := PlainClaim(one, now, b).0;
    assert one == [Row(1, now, 60.0, "a", Pending)];
    FindKeyAppend([], one[0], "b");
    assert [] + one == one;
    assert two == one + [Row(2, now, 60.0, "b", Pending)];
    assert two == [Row(1, now, 60.0, "a", Pending), Row(2, now, 60.0, "b", Pending)];
    TwoSixtiesOverAHundred(now);
  }

  /** A second is overlooked as soon as its numeral is longer than the cutoff's. */
  lemma LongerNumeralIsOverlooked(c: nat, t: nat)
    requires 86_400 <= c <= t <= c + 172_801 && |Decimal(c)| != |Decimal(t)|
    ensures !TextLe(Decimal(c), Decimal(t))
  {
    NumeralLength(c, |Decimal(t)|);
    NumeralLength(t, |Decimal(t)|);
    ShorterNumeral(c, t);
    NumeralLength(t / 10, |Decimal(c)|);
    NumeralLength(c, |Decimal(c)|);
    assert |Decimal(t)| == |Decimal(t / 10)| + 1;
    TextOrderIsNumericOrder(c, t / 10);
  }

  /** What the claim relies on: the query, with a cutoff taken at `cutoffAt`, sees every row stamped in the
      day up to the new row's stamp. */
  ghost predicate QuerySeesTheDay(cutoffAt: nat, stampAt: nat) {
    forall r: Row :: stampAt - DAY <= r.stamp <= stampAt ==> Recent(r, CutoffText(cutoffAt))
  }

  /** The text query sees the whole day if and only if the epoch second a day before the cutoff instant and
      the new row's have numerals of one length.  (From the third day of the epoch, and for a claim that
      waits less than a day for the lock.) */
  lemma QuerySeesTheDayExactlyWhen(cutoffAt: nat, stampAt: nat)
    requires 2 * DAY <= cutoffAt <= stampAt <= cutoffAt + DAY
    ensures QuerySeesTheDay(cutoffAt, stampAt) <==> SameLength(cutoffAt - DAY, stampAt)
  {
    var c, n := (cutoffAt - DAY) / SECOND, stampAt / SECOND;
    if SameLength(cutoffAt - DAY, stampAt) {
      forall r: Row | stampAt - DAY <= r.stamp <= stampAt ensures Recent(r, CutoffText(cutoffAt)) {
        DigitsGrow(cutoffAt - DAY, r.stamp);
        DigitsGrow(r.stamp, stampAt);
        TextOrderIsNumericOrder(c, r.stamp / SECOND);
      }
    } else {
      LongerNumeralIsOverlooked(c, n);
      assert !Recent(Row(1, stampAt, 0.0, "", Pending), CutoffText(cutoffAt));
    }
  }

  /** The capped claim turns no capped table into one that is not. */
  ghost predicate ClaimKeepsCap(cutoffAt: nat, stampAt: nat) {
    forall rows: seq<Row>, req: Request, limit: real ::
      Orderly(rows, stampAt) && CapHolds(rows, limit) && 0.0 <= req.amount && req.cap <= limit ==>
        CapHolds(CappedClaim(rows, cutoffAt, stampAt, req).0, limit)
  }

  lemma SeeingKeepsCap(cutoffAt: nat, stampAt: nat, rows: seq<Row>, req: Request, limit: real)
    requires QuerySeesTheDay(cutoffAt, stampAt) && Orderly(rows, stampAt) && CapHolds(rows, limit)
    requires 0.0 <= req.amount && req.cap <= limit
    ensures CapHolds(CappedClaim(rows, cutoffAt, stampAt, req).0, limit)
  {
    if FindKey(rows, req.key).None? && Used(rows, cutoffAt) + req.amount <= req.cap {
      AppendKeepsCap(rows, Fresh(rows, stampAt, req), cutoffAt, limit);
    }
  }

  /** The exact reach of the cap: an uninterrupted claim keeps every capped table capped if and only if the
      two numerals its query compares, at the ends of the day, have equal length. */
  lemma ClaimKeepsCapExactlyWhen(cutoffAt: nat, stampAt: nat)
    requires 2 * DAY <= cutoffAt <= stampAt <= cutoffAt + DAY
    ensures ClaimKeepsCap(cutoffAt, stampAt) <==> SameLength(cutoffAt - DAY, stampAt)
  {
    QuerySeesTheDayExactlyWhen(cutoffAt, stampAt);
    if SameLength(cutoffAt - DAY, stampAt) {
      forall rows: seq<Row>, req: Request, limit: real
        | Orderly(rows, stampAt) && CapHolds(rows, limit) && 0.0 <= req.amount && req.cap <= limit
        ensures CapHolds(CappedClaim(rows, cutoffAt, stampAt, req).0, limit)
      {
        SeeingKeepsCap(cutoffAt, stampAt, rows, req, limit);
      }
    } else {
      LongerNumeralIsOverlooked((cutoffAt - DAY) / SECOND, stampAt / SECOND);
      SecondSixtyIsAdmitted(cutoffAt, stampAt);
    }
  }

  /** One pending row of 60 the query does not see, and the claim of another 60 under a cap of 100. */
  lemma SecondSixtyIsAdmitted(cutoffAt: nat, stampAt: nat)
    requires !Recent(Row(1, stampAt, 60.0, "a", Pending), CutoffText(cutoffAt))
    ensures !ClaimKeepsCap(cutoffAt, stampAt)
  {
    var row, req := Row(1, stampAt, 60.0, "a", Pending), Request(60.0, "b", 100.0);
    OneSixtyFits(row);
    HiddenRowIsNotCounted(row, cutoffAt);
    assert [] + [row] == [row];
    FindKeyAppend([], row, "b");
    assert CappedClaim([row], cutoffAt, stampAt, req).0 == [row, Row(2, stampAt, 60.0, "b", Pending)];
    TwoSixtiesOverAHundred(stampAt);
    assert Orderly([row], stampAt) && CapHolds([row], 100.0);
    assert !CapHolds(CappedClaim([row], cutoffAt, stampAt, req).0, 100.0);
  }

  lemma OneSixtyFits(row: Row)
    requires row.amount == 60.0
    ensures CapHolds([row], 100.0)
  {
    forall start: int ensures WindowTotal([row], start) <= 100.0 {
      assert [] + [row] == [row];
      SumIfAppend([], row, (r: Row) => start <= r.stamp <= start + DAY && Counted(r.status));
    }
  }

  lemma HiddenRowIsNotCounted(row: Row, now: nat)
    requires !Recent(row, CutoffText(now))
    ensures Used([row], now) == 0.0
  {
    assert [] + [row] == [row];
    SumIfAppend([], row, (r: Row) => Recent(r, CutoffText(now)) && Counted(r.status));
  }

  lemma TwoSixtiesOverAHundred(now: nat)
    ensures WindowTotal([Row(1, now, 60.0, "a", Pending), Row(2, now, 60.0, "b", Pending)], now) == 120.0
  {
    var one, two := Row(1, now, 60.0, "a", Pending), Row(2, now, 60.0, "b", Pending);
    var p := (r: Row) => now <= r.stamp <= now + DAY && Counted(r.status);
    assert [] + [one] == [one] && [one] + [two] == [one, two];
    SumIfAppend([], one, p);
    SumIfAppend([one], two, p);
  }

  /** The next such instant: for a day after the epoch second gains an eleventh digit, on 20 November 2286,
      the atomic claim can exceed the cap. */
  lemma RolloverBreaksTheCap(now: nat)
    requires Pow10(10) * SECOND <= now < Pow10(10) * SECOND + DAY
    ensures !ClaimKeepsCap(now, now)
  {
    assert Pow10(4) == 10_000 && Pow10(7) == 10_000_000 && Pow10(10) == 10_000_000_000;
    NumeralLength((now - DAY) / SECOND, 10);
    NumeralLength(now / SECOND, 10);
    ClaimKeepsCapExactlyWhen(now, now);
  }

  /** A status change turns no capped table into one that is not. */
  ghost predicate UpdateKeepsCap(before: Status, after: Status) {
    forall rows: seq<Row>, i: nat, clock: nat, limit: real ::
      i < |rows| && Orderly(rows, clock) && CapHolds(rows, limit) && rows[i].status == before ==>
        CapHolds(SetStatus(rows, i + 1, after), limit)
  }

  /** The exact reach of the cap under updates, which `update_transfer` does not restrict: moving a row from
      one status to another keeps every capped table capped if and only if the old status was pending,
      succeeded or dry, or the new one is not. */
  lemma UpdateKeepsCapExactlyWhen(before: Status, after: Status)
    ensures UpdateKeepsCap(before, after) <==>
            before in {Pending, Succeeded, DryRun} || after !in {Pending, Succeeded, DryRun}
  {
    if Counted(before) || !Counted(after) {
      forall rows: seq<Row>, i: nat, clock: nat, limit: real
        | i < |rows| && Orderly(rows, clock) && CapHolds(rows, limit) && rows[i].status == before
        ensures CapHolds(SetStatus(rows, i + 1, after), limit)
      {
        SetStatusKeepsCap(rows, i + 1, after, limit);
      }
    } else {
      RevivedRowBreaksTheCap(before, after);
    }
  }

  lemma RevivedRowBreaksTheCap(before: Status, after: Status)
    requires !Counted(before) && Counted(after)
    ensures !UpdateKeepsCap(before, after)
  {
    var row := Row(1, 0, 1.0, "a", before);
    var rows := [row];
    OneRowTotal(row);
    OneRowTotal(row.(status := after));
    assert SetStatus(rows, 1, after) == [row.(status := after)];
    assert Orderly(rows, 0) && CapHolds(rows, 0.0) && rows[0].status == before;
    var i: nat := 0;
    assert WindowTotal(SetStatus(rows, i + 1, after), 0) == 1.0;
    assert !CapHolds(SetStatus(rows, i + 1, after), 0.0);
  }

  lemma OneRowTotal(row: Row)
    ensures forall start: int ::
              WindowTotal([row], start) == if start <= row.stamp <= start + DAY && Counted(row.status) then row.amount else 0.0
  {
    forall start: int
      ensures WindowTotal([row], start) == if start <= row.stamp <= start + DAY && Counted(row.status) then row.amount else 0.0
    {
      assert [] + [row] == [row];
      SumIfAppend([], row, (r: Row) => start <= r.stamp <= start + DAY && Counted(r.status));
    }
  }

  // -------------------------------------------------------------- the store

  /** The `transfers` table behind one connection; each method is one locked transaction. */
  class TransferStore {
    var table: seq<Row>

    constructor ()
      ensures table == []
    {
      table := [];
    }

    method Lookup(key: string) returns (id: Option<nat>)
      ensures id == FindKey(table, key)
    {
      var i := |table|;
      id := None;
      while i > 0
        invariant 0 <= i <= |table|
        invariant id == FindKey(table[i..], key)
      {
        i := i - 1;
        assert table[i..][1..] == table[i + 1..];
        if table[i].key == key { id := Some(table[i].id); }
      }
      assert table[0..] == table;
    }

    method SumRecent(now: nat) returns (used: real)
      ensures used == Used(table, now)
    {
      used := 0.0;
      var cutoff := CutoffText(now);
      ghost var p := (r: Row) => Recent(r, CutoffText(now)) && Counted(r.status);
      for i := 0 to |table|
        invariant used == SumIf(table[..i], p)
      {
        assert table[..i + 1][..i] == table[..i];
        if Recent(table[i], cutoff) && Counted(table[i].status) { used := used + table[i].amount; }
      }
      assert table[..|table|] == table;
    }

    /** `claim_transfer_with_daily_limit`, run without interruption. */
    method ClaimWithDailyLimit(req: Request, cutoffAt: nat, stampAt: nat) returns (answer: Answer)
      modifies this
      ensures (table, answer) == CappedClaim(old(table), cutoffAt, stampAt, req)
    {
      var existing := Lookup(req.key);
      if existing.Some? { return Answer(existing, false, None); }
      var used := SumRecent(cutoffAt);
      if used + req.amount > req.cap { return Answer(None, false, Some(used)); }
      var row := Row(|table| + 1, stampAt, req.amount, req.key, Pending);
      table := table + [row];
      answer := Answer(Some(row.id), true, None);
    }

    /** `claim_transfer`: no cap. */
    method Claim(req: Request, stampAt: nat) returns (answer: Answer)
      modifies this
      ensures (table, answer) == PlainClaim(old(table), stampAt, req)
    {
      var existing := Lookup(req.key);
      if existing.Some? { return Answer(existing, false, None); }
      table := table + [Row(|table| + 1, stampAt, req.amount, req.key, Pending)];
      answer := Answer(Some(|table|), true, None);
    }

    /** `log_transfer`: an insert with a chosen status, or the id of the row that already has the key. */
    method Log(req: Request, status: Status, stampAt: nat) returns (id: nat)
      modifies this
      ensures match FindKey(old(table), req.key)
              case Some(existing) => table == old(table) && id == existing
              case None => table == old(table) + [Row(id, stampAt, req.amount, req.key, status)] && id == |table|
    {
      var existing := Lookup(req.key);
      if existing.Some? { return existing.value; }
      id := |table| + 1;
      table := table + [Row(id, stampAt, req.amount, req.key, status)];
    }

    /** `update_transfer`: rows with another id keep everything, the row itself keeps all but its status. */
    method UpdateStatus(id: nat, status: Status)
      modifies this
      ensures table == SetStatus(old(table), id, status)
    {
      var i := 0;
      while i < |table|
        invariant 0 <= i <= |table| == |old(table)|
        invariant forall j :: 0 <= j < i ==> table[j] == SetStatus(old(table), id, status)[j]
        invariant forall j :: i <= j < |table| ==> table[j] == old(table)[j]
      {
        if table[i].id == id { table := table[i := table[i].(status := status)]; }
        i := i + 1;
      }
    }
  }
}
