/** Rate-limited alerts, loss streaks over bounded windows, and the daily loss flags. */
module Alerting {
  import opened Basics

  // ---------------------------------------------------------- bounded windows

  const WINDOW := 100
  const RECENT := 200

  /** What a `deque(maxlen=n)` still holds of everything ever appended to it. */
  function Last<T>(h: seq<T>, n: nat): seq<T> {
    if |h| <= n then h else h[|h| - n..]
  }

  function Push<T>(w: seq<T>, x: T, n: nat): seq<T> {
    Last(w + [x], n)
  }

  lemma PushKeepsTheTail<T>(h: seq<T>, x: T, n: nat)
    requires n > 0
    ensures Push(Last(h, n), x, n) == Last(h + [x], n)
  {}

  /** Losses since the last win, newest first. */
  function TrailingLosses(h: seq<bool>): nat {
    if h == [] || h[|h| - 1] then 0 else 1 + TrailingLosses(h[..|h| - 1])
  }

  lemma {:induction false} TrailingLossesFit(h: seq<bool>)
    ensures TrailingLosses(h) <= |h|
  {
    if h != [] { TrailingLossesFit(h[..|h| - 1]); }
  }

  lemma LastOneLess<T>(h: seq<T>, n: nat)
    requires |h| > n > 0
    ensures Last(h, n) == Last(h[..|h| - 1], n - 1) + [h[|h| - 1]]
  {}

  lemma StreakOneMore(h: seq<bool>, b: bool)
    ensures TrailingLosses(h + [b]) == if b then 0 else TrailingLosses(h) + 1
  {
    assert (h + [b])[..|h|] == h;
  }

  /** A window of n results sees the true streak, capped at n. */
  lemma {:induction false} WindowedStreak(h: seq<bool>, n: nat)
    ensures TrailingLosses(Last(h, n)) == MinInt(n, TrailingLosses(h))
  {
    TrailingLossesFit(h);
    if |h| > n > 0 {
      WindowedStreak(h[..|h| - 1], n - 1);
      LastOneLess(h, n);
      StreakOneMore(Last(h[..|h| - 1], n - 1), h[|h| - 1]);
    }
  }

  method CountTrailingLosses(results: seq<bool>) returns (streak: nat)
    ensures streak == TrailingLosses(results)
  {
    streak := 0;
    var i := |results|;
    assert results[..i] == results;
    while i > 0 && !results[i - 1]
      invariant 0 <= i <= |results|
      invariant streak + TrailingLosses(results[..i]) == TrailingLosses(results)
    {
      assert results[..i][..i - 1] == results[..i - 1];
      streak, i := streak + 1, i - 1;
    }
  }

  // -------------------------------------------------------------- the machine

  datatype Severity = INFO | WARNING | CRITICAL

  datatype Alert = Alert(kind: string, severity: Severity, time: real)

  datatype Config = Config(rateLimit: real, threshold: int)

  datatype State = State(
    lastFired: map<string, real>,
    results: seq<bool>,
    strategies: map<string, seq<bool>>,
    recent: seq<Alert>,
    fired80: bool,
    fired100: bool)

  datatype Op =
    | Raise(kind: string, severity: Severity, now: real)
    | Trade(won: bool, now: real)
    | StrategyTrade(strategy: string, won: bool, now: real)
    | DailyLoss(pnl: real, limit: real, now: real)
    | ResetDaily

  const STREAK := "LOSS_STREAK"
  const DAILY := "DAILY_LOSS_LIMIT"

  function Initial(): State {
    State(map[], [], map[], [], false, false)
  }

  function LastTime(fired: map<string, real>, kind: string): real {
    if kind in fired then fired[kind] else 0.0
  }

  predicate MayFire(cfg: Config, s: State, kind: string, now: real) {
    now - LastTime(s.lastFired, kind) >= cfg.rateLimit
  }

  /** `alert`: claim the slot and record, or drop the alert. */
  function Fire(cfg: Config, s: State, kind: string, severity: Severity, now: real): (State, bool) {
    if !MayFire(cfg, s, kind, now) then (s, false)
    else (s.(lastFired := s.lastFired[kind := now], recent := Push(s.recent, Alert(kind, severity, now), RECENT)), true)
  }

  function Ratio(pnl: real, limit: real): real
    requires limit > 0.0
  {
    if pnl < 0.0 then -pnl / limit else 0.0
  }

  /** The alert, if any, that a call asks for, and the state it asks from. */
  datatype Wish = Nothing | Wish(kind: string, severity: Severity)

  function StrategyWindow(s: State, strategy: string): seq<bool> {
    if strategy in s.strategies then s.strategies[strategy] else []
  }

  function Note(cfg: Config, s: State, op: Op): (State, Wish) {
    match op
    case Raise(kind, severity, _) => (s, Wish(kind, severity))
    case Trade(won, _) =>
      var s' := s.(results := Push(s.results, won, WINDOW));
      (s', if TrailingLosses(s'.results) >= cfg.threshold then Wish(STREAK, CRITICAL) else Nothing)
    case StrategyTrade(strategy, won, _) =>
      var w := Push(StrategyWindow(s, strategy), won, WINDOW);
      (s.(strategies := s.strategies[strategy := w]), if TrailingLosses(w) == 3 then Wish(STREAK, WARNING) else Nothing)
    case DailyLoss(pnl, limit, _) =>
      if limit <= 0.0 then (s, Nothing)
      else if Ratio(pnl, limit) >= 1.0 && !s.fired100 then (s.(fired80 := true, fired100 := true), Wish(DAILY, CRITICAL))
      else if Ratio(pnl, limit) >= 0.8 && !s.fired80 then (s.(fired80 := true), Wish(DAILY, WARNING))
      else (s, Nothing)
    case ResetDaily => (s.(fired80 := false, fired100 := false, results := []), Nothing)
  }

  function Step(cfg: Config, s: State, op: Op): (State, bool) {
    var (s', wish) := Note(cfg, s, op);
    if wish.Nothing? || op.ResetDaily? then (s', false) else Fire(cfg, s', wish.kind, wish.severity, op.now)
  }

  /** The state after a whole history of calls on a new manager. */
  function After(cfg: Config, ops: seq<Op>): State {
    if ops == [] then Initial() else Step(cfg, After(cfg, ops[..|ops| - 1]), ops[|ops| - 1]).0
  }

  /** Every alert accepted over the history, in order. */
  function Accepted(cfg: Config, ops: seq<Op>): seq<Alert> {
    if ops == [] then []
    else
      var init, op := ops[..|ops| - 1], ops[|ops| - 1];
      var before := After(cfg, init);
      Accepted(cfg, init)
        + if Step(cfg, before, op).1 then [Made(Note(cfg, before, op).1, op)] else []
  }

  function Made(wish: Wish, op: Op): Alert {
    if wish.Wish? && !op.ResetDaily? then Alert(wish.kind, wish.severity, op.now) else Alert("", INFO, 0.0)
  }

  predicate Monotone(ops: seq<Op>) {
    forall i, j :: 0 <= i < j < |ops| && !ops[i].ResetDaily? && !ops[j].ResetDaily? ==> ops[i].now <= ops[j].now
  }

  // --------------------------------------------------------------- rate limit

  ghost predicate LastOf(log: seq<Alert>, kind: string, time: real) {
    exists i :: 0 <= i < |log| && log[i].kind == kind && log[i].time == time
  }

  /** The last-fired table is exactly the time of the latest accepted alert of each kind. */
  ghost predicate Ledger(fired: map<string, real>, log: seq<Alert>) {
    && (forall k :: k in fired ==> LastOf(log, k, fired[k]))
    && (forall i :: 0 <= i < |log| ==> log[i].kind in fired && log[i].time <= fired[log[i].kind])
  }

  predicate Spaced(log: seq<Alert>, gap: real) {
    forall i, j :: 0 <= i < j < |log| && log[i].kind == log[j].kind ==> log[j].time - log[i].time >= gap
  }

  lemma LedgerGrows(fired: map<string, real>, log: seq<Alert>, a: Alert, gap: real)
    requires Ledger(fired, log) && Spaced(log, gap) && forall i :: 0 <= i < |log| ==> log[i].time <= a.time
    requires a.kind in fired ==> a.time - fired[a.kind] >= gap
    ensures Ledger(fired[a.kind := a.time], log + [a]) && Spaced(log + [a], gap)
  {
    var longer := log + [a];
    forall k | k in fired || k == a.kind ensures LastOf(longer, k, fired[a.kind := a.time][k]) {
      if k == a.kind {
        assert longer[|log|].kind == k && longer[|log|].time == a.time;
      } else {
        assert LastOf(log, k, fired[k]);
        var i :| 0 <= i < |log| && log[i].kind == k && log[i].time == fired[k];
        assert longer[i].kind == k && longer[i].time == fired[k];
      }
    }
  }

  lemma StepLog(cfg: Config, s: State, op: Op, log: seq<Alert>)
    requires Ledger(s.lastFired, log) && Spaced(log, cfg.rateLimit)
    requires !op.ResetDaily? ==> forall i :: 0 <= i < |log| ==> log[i].time <= op.now
    ensures var (s', sent) := Step(cfg, s, op);
            var log' := log + if sent then [Made(Note(cfg, s, op).1, op)] else [];
            Ledger(s'.lastFired, log') && Spaced(log', cfg.rateLimit)
  {
    var (s', sent) := Step(cfg, s, op);
    if sent {
      LedgerGrows(s.lastFired, log, Made(Note(cfg, s, op).1, op), cfg.rateLimit);
    } else {
      assert log + [] == log;
    }
  }

  lemma {:induction false} LogIsKept(cfg: Config, ops: seq<Op>, now: real)
    requires Monotone(ops) && forall i :: 0 <= i < |ops| && !ops[i].ResetDaily? ==> ops[i].now <= now
    ensures Ledger(After(cfg, ops).lastFired, Accepted(cfg, ops)) && Spaced(Accepted(cfg, ops), cfg.rateLimit)
    ensures forall i :: 0 <= i < |Accepted(cfg, ops)| ==> Accepted(cfg, ops)[i].time <= now
  {
    if ops != [] {
      var init, op := ops[..|ops| - 1], ops[|ops| - 1];
      LogIsKept(cfg, init, if op.ResetDaily? then now else op.now);
      StepLog(cfg, After(cfg, init), op, Accepted(cfg, init));
    }
  }

  function Latest(ops: seq<Op>): (t: real)
    ensures forall i :: 0 <= i < |ops| && !ops[i].ResetDaily? ==> ops[i].now <= t
  {
    if ops == [] then 0.0
    else
      var t := Latest(ops[..|ops| - 1]);
      var op := ops[|ops| - 1];
      if !op.ResetDaily? && op.now > t then op.now else t
  }

  /** Whatever calls are made, two accepted alerts of one kind are at least the rate limit apart. */
  lemma AlertsAreSpaced(cfg: Config, ops: seq<Op>)
    requires Monotone(ops)
    ensures Spaced(Accepted(cfg, ops), cfg.rateLimit)
  {
    LogIsKept(cfg, ops, Latest(ops));
  }

  // ------------------------------------------------------------------ streaks

  /** One of the kind was accepted less than `gap` before; or none was yet, and the clock itself has not run that long. */
  predicate HeldBack(log: seq<Alert>, kind: string, now: real, gap: real) {
    || (exists i :: 0 <= i < |log| && log[i].kind == kind && now - log[i].time < gap)
    || ((forall i :: 0 <= i < |log| ==> log[i].kind != kind) && now < gap)
  }

  /** Over every history, an alert asked for is dropped if and only if it is held back by one accepted too recently. */
  lemma DroppedExactlyWhenRecent(cfg: Config, ops: seq<Op>, op: Op)
    requires Monotone(ops + [op]) && !op.ResetDaily? && Note(cfg, After(cfg, ops), op).1.Wish?
    ensures var (log, kind) := (Accepted(cfg, ops), Note(cfg, After(cfg, ops), op).1.kind);
            !Step(cfg, After(cfg, ops), op).1 <==> HeldBack(log, kind, op.now, cfg.rateLimit)
  {
    var all := ops + [op];
    assert all[|ops|] == op && forall i :: 0 <= i < |ops| ==> all[i] == ops[i];
    LogIsKept(cfg, ops, op.now);
    DroppedByTheSlot(cfg, After(cfg, ops), op, Accepted(cfg, ops));
  }

  lemma RecentInLedger(fired: map<string, real>, log: seq<Alert>, kind: string, now: real, gap: real)
    requires Ledger(fired, log)
    ensures now - LastTime(fired, kind) < gap <==> HeldBack(log, kind, now, gap)
  {
    if kind in fired {
      assert LastOf(log, kind, fired[kind]);
      var i :| 0 <= i < |log| && log[i].kind == kind && log[i].time == fired[kind];
    }
  }

  lemma DroppedByTheSlot(cfg: Config, s: State, op: Op, log: seq<Alert>)
    requires Ledger(s.lastFired, log) && !op.ResetDaily? && Note(cfg, s, op).1.Wish?
    ensures !Step(cfg, s, op).1 <==> HeldBack(log, Note(cfg, s, op).1.kind, op.now, cfg.rateLimit)
  {
    NoteKeepsSlots(cfg, s, op);
    RecentInLedger(s.lastFired, log, Note(cfg, s, op).1.kind, op.now, cfg.rateLimit);
  }

  lemma NoteKeepsSlots(cfg: Config, s: State, op: Op)
    ensures Note(cfg, s, op).0.lastFired == s.lastFired
  {}

  /** Every trade result since the last daily reset. */
  function Results(ops: seq<Op>): seq<bool> {
    if ops == [] then []
    else
      var op := ops[|ops| - 1];
      if op.ResetDaily? then [] else Results(ops[..|ops| - 1]) + if op.Trade? then [op.won] else []
  }

  /** Every result of one strategy; the daily reset does not touch these. */
  function StrategyResults(ops: seq<Op>, strategy: string): seq<bool> {
    if ops == [] then []
    else
      var op := ops[|ops| - 1];
      StrategyResults(ops[..|ops| - 1], strategy)
        + if ForStrategy(op, strategy) then [op.won] else []
  }

  predicate ForStrategy(op: Op, strategy: string) {
    op.StrategyTrade? && op.strategy == strategy
  }

  /** What one call does to each of the three windows. */
  lemma StepWindows(cfg: Config, s: State, op: Op, strategy: string)
    ensures var (s', sent) := Step(cfg, s, op);
            && s'.results == (if op.ResetDaily? then [] else if op.Trade? then Push(s.results, op.won, WINDOW)
                              else s.results)
            && StrategyWindow(s', strategy) == (if ForStrategy(op, strategy)
                                                then Push(StrategyWindow(s, strategy), op.won, WINDOW)
                                                else StrategyWindow(s, strategy))
            && s'.recent == (if sent then Push(s.recent, Made(Note(cfg, s, op).1, op), RECENT) else s.recent)
  {
    NoteWindows(cfg, s, op, strategy);
    FireTouchesOnlyAlerts(cfg, s, op);
  }

  lemma NoteWindows(cfg: Config, s: State, op: Op, strategy: string)
    ensures var s' := Note(cfg, s, op).0;
            && s'.results == (if op.ResetDaily? then [] else if op.Trade? then Push(s.results, op.won, WINDOW)
                              else s.results)
            && StrategyWindow(s', strategy) == (if ForStrategy(op, strategy)
                                                then Push(StrategyWindow(s, strategy), op.won, WINDOW)
                                                else StrategyWindow(s, strategy))
            && s'.recent == s.recent
  {}

  /** Sending an alert changes the slots and the ring and nothing else. */
  lemma FireTouchesOnlyAlerts(cfg: Config, s: State, op: Op)
    ensures var ((s', sent), (noted, wish)) := (Step(cfg, s, op), Note(cfg, s, op));
            && s'.(lastFired := noted.lastFired, recent := noted.recent) == noted
            && s'.recent == (if sent then Push(noted.recent, Made(wish, op), RECENT) else noted.recent)
  {}

  lemma {:induction false} ResultsAreATail(cfg: Config, ops: seq<Op>)
    ensures After(cfg, ops).results == Last(Results(ops), 100)
  {
    if ops != [] {
      var init, op := ops[..|ops| - 1], ops[|ops| - 1];
      ResultsAreATail(cfg, init);
      StepWindows(cfg, After(cfg, init), op, "");
      ExtendTail(Results(init), op.Trade?, op.Trade? && op.won, WINDOW);
    }
  }

  lemma ExtendTail<T>(h: seq<T>, extend: bool, x: T, n: nat)
    requires n > 0
    ensures Last(h + if extend then [x] else [], n) == if extend then Push(Last(h, n), x, n) else Last(h, n)
  {
    PushKeepsTheTail(h, x, n);
    assert h + [] == h;
  }

  lemma {:induction false} StrategyIsATail(cfg: Config, ops: seq<Op>, strategy: string)
    ensures StrategyWindow(After(cfg, ops), strategy) == Last(StrategyResults(ops, strategy), 100)
  {
    if ops != [] {
      var init, op := ops[..|ops| - 1], ops[|ops| - 1];
      StrategyIsATail(cfg, init, strategy);
      StepWindows(cfg, After(cfg, init), op, strategy);
      ExtendTail(StrategyResults(init, strategy), ForStrategy(op, strategy), op.StrategyTrade? && op.won, WINDOW);
    }
  }

  /** The ring of recent alerts is the tail of everything accepted. */
  lemma {:induction false} RecentIsATail(cfg: Config, ops: seq<Op>)
    ensures After(cfg, ops).recent == Last(Accepted(cfg, ops), 200)
  {
    if ops != [] {
      var init, op := ops[..|ops| - 1], ops[|ops| - 1];
      var before := After(cfg, init);
      RecentIsATail(cfg, init);
      StepWindows(cfg, before, op, "");
      ExtendTail(Accepted(cfg, init), Step(cfg, before, op).1, Made(Note(cfg, before, op).1, op), RECENT);
    }
  }

  /** The global check sees min(100, true streak since reset). */
  lemma GlobalStreakIsCapped(cfg: Config, ops: seq<Op>, won: bool, now: real)
    ensures var longer := ops + [Trade(won, now)];
            TrailingLosses(After(cfg, longer).results) == MinInt(WINDOW, TrailingLosses(Results(longer)))
  {
    var longer := ops + [Trade(won, now)];
    ResultsAreATail(cfg, longer);
    WindowedStreak(Results(longer), WINDOW);
  }

  /** The call asks for a streak alert: critical for the account, a warning for one strategy. */
  predicate Asks(cfg: Config, ops: seq<Op>, op: Op) {
    Note(cfg, After(cfg, ops), op).1 == Wish("LOSS_STREAK", if op.Trade? then CRITICAL else WARNING)
  }

  /** Whether a trade asks for an alert agrees with the unbounded history, for every history, if and only if
      the threshold fits the window. */
  lemma GlobalStreakIsTrueExactlyUpToTheWindow(cfg: Config)
    ensures cfg.threshold <= 100 <==>
            forall ops: seq<Op>, won: bool, now: real ::
              Asks(cfg, ops, Trade(won, now)) <==> TrailingLosses(Results(ops + [Trade(won, now)])) >= cfg.threshold
  {
    forall ops: seq<Op>, won: bool, now: real
      ensures Asks(cfg, ops, Trade(won, now)) <==>
              MinInt(WINDOW, TrailingLosses(Results(ops + [Trade(won, now)]))) >= cfg.threshold
    {
      AsksByTheCappedStreak(cfg, ops, won, now);
    }
    if cfg.threshold > WINDOW {
      var ops := Losing(cfg.threshold - 1);
      LosingHistory(cfg.threshold - 1);
      assert (ops + [Trade(false, 0.0)])[..|ops|] == ops;
      LosingStreak(cfg.threshold);
      assert ops + [Trade(false, 0.0)] == Losing(cfg.threshold);
      LosingHistory(cfg.threshold);
      assert !Asks(cfg, ops, Trade(false, 0.0));
    }
  }

  lemma AsksByTheCappedStreak(cfg: Config, ops: seq<Op>, won: bool, now: real)
    ensures Asks(cfg, ops, Trade(won, now)) <==>
            MinInt(WINDOW, TrailingLosses(Results(ops + [Trade(won, now)]))) >= cfg.threshold
  {
    var op, longer, s := Trade(won, now), ops + [Trade(won, now)], After(cfg, ops);
    GlobalStreakIsCapped(cfg, ops, won, now);
    assert longer[..|ops|] == ops && longer[|ops|] == op;
    assert After(cfg, longer) == Step(cfg, s, op).0;
    StepWindows(cfg, s, op, "");
  }

  function Losing(n: nat): seq<Op> {
    seq(n, _ => Trade(false, 0.0))
  }

  lemma {:induction false} LosingHistory(n: nat)
    ensures Results(Losing(n)) == seq(n, _ => false)
  {
    if n > 0 {
      LosingHistory(n - 1);
      assert Losing(n)[..n - 1] == Losing(n - 1);
    }
  }

  lemma {:induction false} LosingStreak(n: nat)
    ensures TrailingLosses(seq(n, _ => false)) == n
  {
    if n > 0 {
      LosingStreak(n - 1);
      assert (seq(n, _ => false))[..n - 1] == seq(n - 1, _ => false);
    }
  }

  // ----------------------------------------------------- per-strategy triggers

  /** A maximal losing run of three or more starts at `i`. */
  predicate LongRunStartsAt(h: seq<bool>, i: int) {
    0 <= i && i + 3 <= |h| && (i == 0 || h[i - 1]) && !h[i] && !h[i + 1] && !h[i + 2]
  }

  function LongRuns(h: seq<bool>): set<int> {
    set i | 0 <= i < |h| && LongRunStartsAt(h, i)
  }

  /** How often the check asked for an alert while the results came in. */
  function Triggers(h: seq<bool>): nat {
    if h == [] then 0
    else Triggers(h[..|h| - 1]) + if TrailingLosses(Last(h, WINDOW)) == 3 then 1 else 0
  }

  lemma ExactlyThree(h: seq<bool>)
    ensures TrailingLosses(h) == 3 <==> LongRunStartsAt(h, |h| - 3)
  {
    if |h| > 0 && !h[|h| - 1] {
      var a := h[..|h| - 1];
      if |a| > 0 && !a[|a| - 1] {
        var b := a[..|a| - 1];
        if |b| > 0 && !b[|b| - 1] {
          var c := b[..|b| - 1];
          assert TrailingLosses(h) == 3 + TrailingLosses(c);
          assert |c| > 0 ==> c[|c| - 1] == h[|h| - 4];
        }
      }
    }
  }

  lemma LongRunsOneMore(h: seq<bool>)
    requires h != []
    ensures var (init, newest) := (h[..|h| - 1], |h| - 3);
            newest !in LongRuns(init) && LongRuns(h) == LongRuns(init) + if LongRunStartsAt(h, newest) then {newest} else {}
  {
    var init, newest := h[..|h| - 1], |h| - 3;
    assert forall i :: 0 <= i < |init| && i != newest ==> (LongRunStartsAt(h, i) <==> LongRunStartsAt(init, i));
  }

  /** Three losses in a row ask for an alert once per maximal losing run of length at least three, however
      long the history and despite the bounded window. */
  lemma {:induction false} OneTriggerPerLongRun(h: seq<bool>)
    ensures Triggers(h) == |LongRuns(h)|
  {
    if h != [] {
      var init := h[..|h| - 1];
      OneTriggerPerLongRun(init);
      WindowedStreak(h, WINDOW);
      ExactlyThree(h);
      LongRunsOneMore(h);
    }
  }

  /** The number of alerts asked for by one strategy's results over a whole history of calls. */
  function Asked(cfg: Config, ops: seq<Op>, strategy: string): nat {
    if ops == [] then 0
    else
      var init, op := ops[..|ops| - 1], ops[|ops| - 1];
      Asked(cfg, init, strategy)
        + if ForStrategy(op, strategy) && Asks(cfg, init, op) then 1 else 0
  }

  lemma {:induction false} AskedIsTriggers(cfg: Config, ops: seq<Op>, strategy: string)
    ensures Asked(cfg, ops, strategy) == Triggers(StrategyResults(ops, strategy))
  {
    if ops != [] {
      var init, op := ops[..|ops| - 1], ops[|ops| - 1];
      AskedIsTriggers(cfg, init, strategy);
      StrategyIsATail(cfg, init, strategy);
      var h := StrategyResults(init, strategy);
      if ForStrategy(op, strategy) {
        PushKeepsTheTail(h, op.won, WINDOW);
        assert (h + [op.won])[..|h|] == h;
      } else {
        assert h + [] == h;
      }
    }
  }

  /** Over any interleaving of calls, each strategy asks exactly once per maximal losing run of three or more. */
  lemma StrategyAsksOncePerLongRun(cfg: Config, ops: seq<Op>, strategy: string)
    ensures Asked(cfg, ops, strategy) == |LongRuns(StrategyResults(ops, strategy))|
  {
    AskedIsTriggers(cfg, ops, strategy);
    OneTriggerPerLongRun(StrategyResults(ops, strategy));
  }

  // -------------------------------------------------------------- daily limits

  /** The call reports a loss of at least this share of a positive limit. */
  predicate Reaches(op: Op, share: real) {
    op.DailyLoss? && op.limit > 0.0 && op.pnl <= -(share * op.limit)
  }

  lemma RatioOfLoss(pnl: real, limit: real, share: real)
    requires limit > 0.0 && share > 0.0
    ensures Ratio(pnl, limit) >= share <==> pnl <= -(share * limit)
  {
    ShareOfLimit(share, limit, share * limit);
    if pnl < 0.0 { QuotientAtLeast(-pnl, limit, share, share * limit, -pnl / limit); }
  }

  lemma ShareOfLimit(share: real, limit: real, product: real)
    requires share > 0.0 && limit > 0.0 && product == share * limit
    ensures product > 0.0
  {}

  lemma QuotientAtLeast(x: real, limit: real, share: real, product: real, q: real)
    requires limit > 0.0 && product == share * limit && q == x / limit
    ensures q >= share <==> x >= product
  {
    Undivided(x, limit, q);
    if q >= share { Grows(share, q, limit); } else { Grows(q, share, limit); GrowsStrictly(q, share, limit); }
  }

  lemma Undivided(x: real, limit: real, q: real)
    requires limit > 0.0 && q == x / limit
    ensures q * limit == x
  {}

  lemma Grows(a: real, b: real, n: real)
    requires a <= b && n > 0.0
    ensures a * n <= b * n
  {
    var d := b - a;
    assert d * n >= 0.0 && d * n == b * n - a * n;
  }

  lemma GrowsStrictly(a: real, b: real, n: real)
    requires a < b && n > 0.0
    ensures a * n < b * n
  {
    var d := b - a;
    assert d * n > 0.0 && d * n == b * n - a * n;
  }

  /** Some call since the last reset reported at least this share of the daily limit. */
  predicate ReachedToday(ops: seq<Op>, share: real) {
    ops != [] && !ops[|ops| - 1].ResetDaily?
    && (Reaches(ops[|ops| - 1], share) || ReachedToday(ops[..|ops| - 1], share))
  }

  lemma StepFlags(cfg: Config, s: State, op: Op)
    ensures var s' := Step(cfg, s, op).0;
            && (s'.fired100 <==> !op.ResetDaily? && (Reaches(op, 1.0) || s.fired100))
            && (s'.fired80 || s'.fired100 <==> !op.ResetDaily? && (Reaches(op, 0.8) || s.fired80 || s.fired100))
  {
    NoteFlags(cfg, s, op);
    FireTouchesOnlyAlerts(cfg, s, op);
  }

  lemma NoteFlags(cfg: Config, s: State, op: Op)
    ensures var s' := Note(cfg, s, op).0;
            && (s'.fired100 <==> !op.ResetDaily? && (Reaches(op, 1.0) || s.fired100))
            && (s'.fired80 || s'.fired100 <==> !op.ResetDaily? && (Reaches(op, 0.8) || s.fired80 || s.fired100))
  {
    if op.DailyLoss? && op.limit > 0.0 {
      RatioOfLoss(op.pnl, op.limit, 1.0);
      RatioOfLoss(op.pnl, op.limit, 0.8);
    }
  }

  lemma {:induction false} FlagsRememberTheDay(cfg: Config, ops: seq<Op>)
    ensures After(cfg, ops).fired100 <==> ReachedToday(ops, 1.0)
    ensures After(cfg, ops).fired80 <==> ReachedToday(ops, 0.8)
  {
    if ops != [] {
      var init, op := ops[..|ops| - 1], ops[|ops| - 1];
      FlagsRememberTheDay(cfg, init);
      StepFlags(cfg, After(cfg, init), op);
      if ReachedToday(init, 1.0) { LimitIsPastTheWarning(init); }
    }
  }

  lemma {:induction false} LimitIsPastTheWarning(ops: seq<Op>)
    requires ReachedToday(ops, 1.0)
    ensures ReachedToday(ops, 0.8)
  {
    if !Reaches(ops[|ops| - 1], 1.0) { LimitIsPastTheWarning(ops[..|ops| - 1]); }
  }

  /** Call `n` sends the daily alert of the given severity. */
  predicate SendsDaily(cfg: Config, ops: seq<Op>, n: nat, severity: Severity)
    requires n < |ops|
  {
    var before := After(cfg, ops[..n]);
    ops[n].DailyLoss? && Step(cfg, before, ops[n]).1 && Note(cfg, before, ops[n]).1 == Wish("DAILY_LOSS_LIMIT", severity)
  }

  /** The limit alert goes out if and only if this is the day's first call at the limit and no daily alert
      was accepted within the rate limit before it. */
  lemma LimitAlertExactlyWhen(cfg: Config, ops: seq<Op>, n: nat)
    requires n < |ops|
    ensures SendsDaily(cfg, ops, n, CRITICAL) <==>
            && Reaches(ops[n], 1.0) && !ReachedToday(ops[..n], 1.0)
            && MayFire(cfg, After(cfg, ops[..n]), "DAILY_LOSS_LIMIT", ops[n].now)
  {
    FlagsRememberTheDay(cfg, ops[..n]);
    if ops[n].DailyLoss? { WishByLoss(cfg, After(cfg, ops[..n]), ops[n]); }
  }

  /** And the warning if and only if this is the day's first call at eighty percent and it is below the limit. */
  lemma WarningExactlyWhen(cfg: Config, ops: seq<Op>, n: nat)
    requires n < |ops|
    ensures SendsDaily(cfg, ops, n, WARNING) <==>
            && Reaches(ops[n], 0.8) && !Reaches(ops[n], 1.0) && !ReachedToday(ops[..n], 0.8)
            && MayFire(cfg, After(cfg, ops[..n]), "DAILY_LOSS_LIMIT", ops[n].now)
  {
    FlagsRememberTheDay(cfg, ops[..n]);
    if ReachedToday(ops[..n], 1.0) { LimitIsPastTheWarning(ops[..n]); }
    if ops[n].DailyLoss? { WishByLoss(cfg, After(cfg, ops[..n]), ops[n]); }
  }

  lemma WishByLoss(cfg: Config, s: State, op: Op)
    requires op.DailyLoss?
    ensures Note(cfg, s, op).1 == (if Reaches(op, 1.0) && !s.fired100 then Wish("DAILY_LOSS_LIMIT", CRITICAL)
                                   else if Reaches(op, 0.8) && !s.fired80 then Wish("DAILY_LOSS_LIMIT", WARNING) else Nothing)
    ensures Note(cfg, s, op).0.lastFired == s.lastFired
  {
    if op.limit > 0.0 {
      RatioOfLoss(op.pnl, op.limit, 1.0);
      RatioOfLoss(op.pnl, op.limit, 0.8);
    }
  }

  lemma {:induction false} ReachedStays(ops: seq<Op>, n: nat, m: nat, share: real)
    requires n < m <= |ops| && Reaches(ops[n], share) && forall k :: n < k < m ==> !ops[k].ResetDaily?
    ensures ReachedToday(ops[..m], share)
    decreases m
  {
    var upTo := ops[..m];
    assert upTo[..m - 1] == ops[..m - 1] && upTo[m - 1] == ops[m - 1];
    if n < m - 1 { ReachedStays(ops, n, m - 1, share); }
  }

  /** One chance a day: once a call has reached the limit, no later call before the reset sends the limit
      alert, whether or not that first one was let through. */
  lemma OneChanceADay(cfg: Config, ops: seq<Op>, n: nat, m: nat)
    requires n < m < |ops| && Reaches(ops[n], 1.0) && forall k :: n < k < m ==> !ops[k].ResetDaily?
    ensures !SendsDaily(cfg, ops, m, CRITICAL) && !SendsDaily(cfg, ops, m, WARNING)
  {
    ReachedStays(ops, n, m, 1.0);
    LimitAlertExactlyWhen(cfg, ops, m);
    FlagsRememberTheDay(cfg, ops[..m]);
    LimitIsPastTheWarning(ops[..m]);
  }

  /** A day on which the limit is hit soon after the 80% warning never reports the hit. */
  lemma WarningSwallowsTheLimitAlert(cfg: Config, start: real, later: real, rest: seq<Op>, m: nat)
    requires 0.0 < cfg.rateLimit <= start <= later < start + cfg.rateLimit
    requires forall k :: 0 <= k < |rest| ==> !rest[k].ResetDaily?
    requires m < 2 + |rest|
    ensures var day := [DailyLoss(-80.0, 100.0, start), DailyLoss(-100.0, 100.0, later)] + rest;
            SendsDaily(cfg, day, 0, WARNING) && !SendsDaily(cfg, day, m, CRITICAL)
  {
    var first, second := DailyLoss(-80.0, 100.0, start), DailyLoss(-100.0, 100.0, later);
    var day := [first, second] + rest;
    assert day[..0] == [] && day[..1] == [first] && day[0] == first && day[1] == second;
    assert Ratio(-80.0, 100.0) == 0.8 && Ratio(-100.0, 100.0) == 1.0 && Reaches(second, 1.0);
    assert After(cfg, day[..0]) == Initial();
    assert Note(cfg, Initial(), first).1 == Wish(DAILY, WARNING);
    assert [first][..0] == [];
    assert After(cfg, day[..1]) == Step(cfg, Initial(), first).0;
    if m >= 2 { OneChanceADay(cfg, day, 1, m); }
  }

  // --------------------------------------------------------------- the object

  class AlertManager {
    const cfg: Config
    var lastFired: map<string, real>
    var tradeResults: seq<bool>
    var strategyLosses: map<string, seq<bool>>
    var recentAlerts: seq<Alert>
    var loss80Fired: bool
    var loss100Fired: bool

    function Abstract(): State
      reads this
    {
      State(lastFired, tradeResults, strategyLosses, recentAlerts, loss80Fired, loss100Fired)
    }

    constructor (cfg: Config)
      ensures Abstract() == Initial() && this.cfg == cfg
    {
      this.cfg := cfg;
      lastFired, tradeResults, strategyLosses, recentAlerts := map[], [], map[], [];
      loss80Fired, loss100Fired := false, false;
    }

    method Raise(kind: string, severity: Severity, now: real) returns (sent: bool)
      modifies this
      ensures (Abstract(), sent) == Fire(cfg, old(Abstract()), kind, severity, now)
    {
      var last := if kind in lastFired then lastFired[kind] else 0.0;
      if now - last < cfg.rateLimit { return false; }
      lastFired := lastFired[kind := now];
      recentAlerts := Push(recentAlerts, Alert(kind, severity, now), RECENT);
      sent := true;
    }

    method CheckLossStreak(won: bool, now: real) returns (sent: bool)
      modifies this
      ensures (Abstract(), sent) == Step(cfg, old(Abstract()), Trade(won, now))
    {
      tradeResults := Push(tradeResults, won, WINDOW);
      var streak := CountTrailingLosses(tradeResults);
      if streak >= cfg.threshold {
        sent := Raise(STREAK, CRITICAL, now);
      } else {
        sent := false;
      }
    }

    method CheckDailyLoss(pnl: real, limit: real, now: real) returns (sent: bool)
      modifies this
      ensures (Abstract(), sent) == Step(cfg, old(Abstract()), DailyLoss(pnl, limit, now))
    {
      if limit <= 0.0 { return false; }
      var ratio := Ratio(pnl, limit);
      if ratio >= 1.0 && !loss100Fired {
        loss100Fired := true;
        loss80Fired := true;
        sent := Raise(DAILY, CRITICAL, now);
      } else if ratio >= 0.8 && !loss80Fired {
        loss80Fired := true;
        sent := Raise(DAILY, WARNING, now);
      } else {
        sent := false;
      }
    }

    method CheckStrategyLossStreak(strategy: string, won: bool, now: real) returns (sent: bool)
      modifies this
      ensures (Abstract(), sent) == Step(cfg, old(Abstract()), StrategyTrade(strategy, won, now))
    {
      if strategy !in strategyLosses {
        strategyLosses := strategyLosses[strategy := []];
      }
      strategyLosses := strategyLosses[strategy := Push(strategyLosses[strategy], won, WINDOW)];
      assert strategyLosses == old(strategyLosses)[strategy := strategyLosses[strategy]];
      assert Abstract() == Note(cfg, old(Abstract()), StrategyTrade(strategy, won, now)).0;
      var losses := CountTrailingLosses(strategyLosses[strategy]);
      if losses == 3 {
        sent := Raise(STREAK, WARNING, now);
      } else {
        sent := false;
      }
    }

    method Reset()
      modifies this
      ensures (Abstract(), false) == Step(cfg, old(Abstract()), ResetDaily)
    {
      loss80Fired, loss100Fired := false, false;
      tradeResults := [];
    }
  }
}
