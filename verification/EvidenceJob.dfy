/** The credit-capped evidence job: one paid request, a polling loop against a deadline, a clean-up, and the
    normalised artifact.  The provider and the clock are a script the run reads from. */
module EvidenceJob {
  import opened Basics

  const MAX_ITEMS := 8

  // ------------------------------------------------------- normalising evidence

  /** One entry of the provider's evidence list.  `url` is the cleaned https address, if there is one;
      `title` and `summary` are stripped; `published` is the parsed time. */
  datatype Item = Malformed | Item(url: Option<string>, title: string, summary: string, published: Option<int>)

  datatype Freshness = Unknown | FutureInvalid | Stale | Current

  datatype Evidence = Evidence(url: string, title: string, summary: string, freshness: Freshness)

  function FreshnessOf(published: Option<int>, now: int, maxAgeHours: int): Freshness {
    if published.None? then Unknown
    else if published.value > now + 300 then FutureInvalid
    else if published.value < now - maxAgeHours * 3600 then Stale
    else Current
  }

  predicate HasUrl(it: Item, url: string) {
    it.Item? && it.url == Some(url)
  }

  predicate Linked(it: Item) {
    it.Item? && it.url.Some? && it.url.value != ""
  }

  /** An entry is kept when it is complete and the first entry with its address, complete or not. */
  predicate Kept(items: seq<Item>, i: nat)
    requires i < |items|
  {
    && Linked(items[i]) && items[i].title != "" && items[i].summary != ""
    && forall j :: 0 <= j < i ==> !HasUrl(items[j], items[i].url.value)
  }

  function Clean(it: Item, now: int, maxAgeHours: int): Evidence
    requires Linked(it)
  {
    Evidence(it.url.value, it.title, it.summary, FreshnessOf(it.published, now, maxAgeHours))
  }

  /** The kept entries among the first `n`, in the provider's order. */
  function Normal(items: seq<Item>, n: nat, now: int, maxAgeHours: int): seq<Evidence>
    requires n <= |items|
  {
    if n == 0 then []
    else
      Normal(items, n - 1, now, maxAgeHours)
        + if Kept(items, n - 1) then [Clean(items[n - 1], now, maxAgeHours)] else []
  }

  method NormalizeEvidence(items: seq<Item>, now: int, maxAgeHours: int) returns (out: Option<seq<Evidence>>)
    ensures out == if |items| > MAX_ITEMS then None else Some(Normal(items, |items|, now, maxAgeHours))
  {
    if |items| > MAX_ITEMS { return None; }
    var seen: set<string> := {};
    var kept: seq<Evidence> := [];
    for i := 0 to |items|
      invariant kept == Normal(items, i, now, maxAgeHours)
      invariant forall u :: u in seen <==> u != "" && exists j :: 0 <= j < i && HasUrl(items[j], u)
    {
      var it := items[i];
      if Linked(it) && it.url.value !in seen {
        seen := seen + {it.url.value};
        if it.title != "" && it.summary != "" {
          kept := kept + [Clean(it, now, maxAgeHours)];
        }
      }
    }
    out := Some(kept);
  }

  lemma {:induction false} NormalCameFrom(items: seq<Item>, n: nat, now: int, maxAgeHours: int, k: nat)
    requires n <= |items| && k < |Normal(items, n, now, maxAgeHours)|
    ensures exists i :: 0 <= i < n && Kept(items, i) && Normal(items, n, now, maxAgeHours)[k] == Clean(items[i], now, maxAgeHours)
  {
    if k < |Normal(items, n - 1, now, maxAgeHours)| {
      NormalCameFrom(items, n - 1, now, maxAgeHours, k);
    } else {
      assert Kept(items, n - 1);
    }
  }

  /** Addresses are pairwise distinct, never empty, and at most eight entries survive. */
  lemma {:induction false} UrlsAreDistinct(items: seq<Item>, n: nat, now: int, maxAgeHours: int)
    requires n <= |items|
    ensures var out := Normal(items, n, now, maxAgeHours);
            && |out| <= n
            && (forall k :: 0 <= k < |out| ==> out[k].url != "" && out[k].title != "" && out[k].summary != "")
            && (forall k, l :: 0 <= k < l < |out| ==> out[k].url != out[l].url)
  {
    if n > 0 {
      UrlsAreDistinct(items, n - 1, now, maxAgeHours);
      if Kept(items, n - 1) {
        var before := Normal(items, n - 1, now, maxAgeHours);
        forall k | 0 <= k < |before| ensures before[k].url != items[n - 1].url.value {
          NormalCameFrom(items, n - 1, now, maxAgeHours, k);
        }
      }
    }
  }

  /** An item is current when it was published no longer ago than the limit and not more than five minutes ahead; older
      it is stale, further ahead invalid, and without a date nothing is said. */
  lemma FreshnessExactly(published: Option<int>, now: int, maxAgeHours: int)
    requires 0 <= maxAgeHours
    ensures FreshnessOf(published, now, maxAgeHours) == Current <==>
            published.Some? && now - maxAgeHours * 3600 <= published.value <= now + 300
    ensures FreshnessOf(published, now, maxAgeHours) == Stale <==>
            published.Some? && published.value < now - maxAgeHours * 3600
    ensures FreshnessOf(published, now, maxAgeHours) == FutureInvalid <==> published.Some? && now + 300 < published.value
  {}

  /** No complete entry is lost but for one with the same address before it. */
  lemma {:induction false} CompleteEntriesAreKept(items: seq<Item>, n: nat, now: int, maxAgeHours: int, i: nat)
    requires i < n <= |items| && items[i].Item? && items[i].url.Some? && items[i].url.value != ""
    requires items[i].title != "" && items[i].summary != ""
    requires forall j :: 0 <= j < i ==> items[j].Malformed? || items[j].url != items[i].url
    ensures Evidence(items[i].url.value, items[i].title, items[i].summary, FreshnessOf(items[i].published, now, maxAgeHours))
            in Normal(items, n, now, maxAgeHours)
  {
    if i < n - 1 {
      CompleteEntriesAreKept(items, n - 1, now, maxAgeHours, i);
    } else {
      assert Kept(items, i);
    }
  }

  // ------------------------------------------------------------------ the job

  /** What `creditsUsed` may hold: NaN is a number that compares above nothing. */
  datatype Credits = Number(x: real) | NaN | NotNumeric

  datatype Payload = NoEvidenceArray | Items(items: seq<Item>)

  datatype Reply =
    | Timeout
    | Broken
    | Completed(credits: Credits, payload: Payload)
    | Ended
    | Processing
    | UnknownStatus

  /** One turn of the provider and the clocks: how long after the loop's clock reading the request goes out, how
      long it takes, how long until the next reading, by how much the sleep overruns, and the calendar time
      against which publication dates are judged. */
  datatype Turn = Turn(reply: Reply, wait: nat, took: nat, lag: nat, overrun: nat, calendar: int)

  datatype Creation = CreationFails | NoJobId | Created

  datatype Config = Config(maxCredits: int, timeout: int, interval: int)

  datatype Why = BadInput | TimedOut | RequestTimedOut | Unusable | OverCap | NoArray | TooMany | JobEnded

  datatype Artifact = Artifact(credits: Credits, evidence: seq<Evidence>)

  datatype Outcome = Raised(why: Why) | Returned(artifact: Artifact)

  /** A status request is dated by the clock reading that allowed it and by the moment it goes out. */
  datatype Event = Create | Poll(seen: int, at: int) | SawTerminal | Cancel

  datatype Run = Run(outcome: Outcome, events: seq<Event>)

  predicate OverTheCap(c: Credits, cap: int) {
    c.Number? && c.x > cap as real
  }

  function Finish(cfg: Config, c: Credits, p: Payload, now: int, maxAgeHours: int): Outcome {
    if OverTheCap(c, cfg.maxCredits) then Raised(OverCap)
    else if p.NoEvidenceArray? then Raised(NoArray)
    else if |p.items| > MAX_ITEMS then Raised(TooMany)
    else Returned(Artifact(c, Normal(p.items, |p.items|, now, maxAgeHours)))
  }

  function PollOf(turn: Turn, now: int): Event {
    Poll(now, now + turn.wait)
  }

  function Answered(turn: Turn, now: int): int {
    now + turn.wait + turn.took
  }

  /** Either the loop sleeps between polls, or every request takes some time. */
  ghost predicate MakesProgress(cfg: Config, env: nat -> Turn) {
    cfg.interval > 0 || forall k: nat :: env(k).took > 0
  }

  /** The time after the pause between two polls; a non-positive interval does not pause. */
  function Woken(cfg: Config, deadline: int, now: int, overrun: nat): (t: int)
    requires now < deadline
    ensures now <= t && (cfg.interval > 0 ==> now < t)
  {
    if cfg.interval > 0 then now + MinInt(cfg.interval, deadline - now) + overrun else now
  }

  /** Whether this turn may be followed by another poll, and if so when and whether that one is the last. */
  function GoesOn(cfg: Config, deadline: int, turn: Turn, now: int, final: bool): Option<(int, bool)> {
    var last, asked := final || deadline - now <= 0, Answered(turn, now);
    if last then None
    else if turn.reply.Timeout? then if asked < deadline then None else Some((asked, true))
    else if turn.reply.Processing? then
      var next := asked + turn.lag;
      if next >= deadline then Some((next, true)) else Some((Woken(cfg, deadline, next, turn.overrun), false))
    else None
  }

  /** How the loop ends on a turn that is not followed by another. */
  function Stops(cfg: Config, turn: Turn, now: int, maxAge: int): Run {
    match turn.reply
    case Timeout => Run(Raised(RequestTimedOut), [PollOf(turn, now)])
    case Completed(credits, payload) =>
      Run(Finish(cfg, credits, payload, turn.calendar, maxAge), [PollOf(turn, now), SawTerminal])
    case Ended => Run(Raised(JobEnded), [PollOf(turn, now), SawTerminal])
    case Processing => Run(Raised(TimedOut), [PollOf(turn, now)])
    case _ => Run(Raised(Unusable), [PollOf(turn, now)])
  }

  /** The polling loop from turn `k` at time `now`; `final` marks the one poll allowed past the deadline. */
  function Polling(cfg: Config, env: nat -> Turn, deadline: int, maxAge: int, k: nat, now: int, final: bool): Run
    requires MakesProgress(cfg, env)
    decreases if final || now >= deadline then 0 else deadline - now, if final then 0 else 1
  {
    var on := GoesOn(cfg, deadline, env(k), now, final);
    if on.None? then Stops(cfg, env(k), now, maxAge)
    else
      var rest := Polling(cfg, env, deadline, maxAge, k + 1, on.value.0, on.value.1);
      Run(rest.outcome, [PollOf(env(k), now)] + rest.events)
  }

  /** There is another request exactly after one sent in time that found the job processing, or that timed out at or
      after the deadline; that one is then the last. */
  lemma AskedAgainExactlyWhen(cfg: Config, deadline: int, turn: Turn, now: int, final: bool)
    ensures var on := GoesOn(cfg, deadline, turn, now, final);
            var answered := now + turn.wait + turn.took;
            && (on.Some? <==> !final && now < deadline
                              && (turn.reply.Processing? || (turn.reply.Timeout? && answered >= deadline)))
            && (on.Some? && turn.reply.Timeout? ==> on == Some((answered, true)))
            && (on.Some? && turn.reply.Processing? ==>
                  && (on.value.1 <==> answered + turn.lag >= deadline)
                  && (!on.value.1 && cfg.interval > 0 ==>
                        on.value.0 == turn.overrun + if answered + turn.lag + cfg.interval < deadline
                                                     then answered + turn.lag + cfg.interval else deadline)
                  && (on.value.1 || cfg.interval <= 0 ==> on.value.0 == answered + turn.lag))
  {}

  /** Every turn puts one status request, dated by the reading that allowed it and by the moment it goes out. */
  lemma FirstPollIsDated(cfg: Config, env: nat -> Turn, deadline: int, maxAge: int, k: nat, now: int, final: bool)
    requires MakesProgress(cfg, env)
    ensures var events := Polling(cfg, env, deadline, maxAge, k, now, final).events;
            events != [] && events[0] == Poll(now, now + env(k).wait)
  {}

  /** What the last reply makes of the job. */
  predicate Decides(cfg: Config, turn: Turn, maxAge: int, outcome: Outcome) {
    match turn.reply
    case Completed(credits, payload) =>
      if credits.Number? && credits.x > cfg.maxCredits as real then outcome == Raised(OverCap)
      else if payload.NoEvidenceArray? then outcome == Raised(NoArray)
      else if |payload.items| > 8 then outcome == Raised(TooMany)
      else outcome == Returned(Artifact(credits, Normal(payload.items, |payload.items|, turn.calendar, maxAge)))
    case Ended => outcome == Raised(JobEnded)
    case Timeout => outcome == Raised(RequestTimedOut)
    case Processing => outcome == Raised(TimedOut)
    case Broken => outcome == Raised(Unusable)
    case UnknownStatus => outcome == Raised(Unusable)
  }

  /** The loop asks on while the job is processing, or a request that timed out has used up the time, and the first other
      reply, or the last of all, decides: an artifact exactly for a completed job within the cap and the ceiling. */
  lemma {:induction false} DecidedByTheLastReply(cfg: Config, env: nat -> Turn, deadline: int, maxAge: int, k: nat, now: int,
                                                 final: bool) returns (n: nat)
    requires MakesProgress(cfg, env)
    ensures var run := Polling(cfg, env, deadline, maxAge, k, now, final);
            && k <= n && (forall j :: k <= j < n ==> env(j).reply.Processing? || env(j).reply.Timeout?)
            && Decides(cfg, env(n), maxAge, run.outcome)
            && |run.events| == n - k + (if env(n).reply.Completed? || env(n).reply.Ended? then 2 else 1)
    decreases if final || now >= deadline then 0 else deadline - now, if final then 0 else 1
  {
    var on := GoesOn(cfg, deadline, env(k), now, final);
    if on.None? { n := k; } else { n := DecidedByTheLastReply(cfg, env, deadline, maxAge, k + 1, on.value.0, on.value.1); }
  }

  // ------------------------------------------------------ when the loop never ends

  /** Where the loop stands after `n` turns: the time and whether one poll remains, or nothing once it has ended. */
  function Standing(cfg: Config, env: nat -> Turn, deadline: int, start: int, n: nat): Option<(int, bool)> {
    if n == 0 then Some((start, false))
    else
      var before := Standing(cfg, env, deadline, start, n - 1);
      if before.None? then None else GoesOn(cfg, deadline, env(n - 1), before.value.0, before.value.1)
  }

  /** The time the first `n` turns take, without any pause between them. */
  function Elapsed(env: nat -> Turn, n: nat): nat {
    if n == 0 then 0 else Elapsed(env, n - 1) + env(n - 1).wait + env(n - 1).took + env(n - 1).lag
  }

  ghost predicate RunsForEver(cfg: Config, env: nat -> Turn, deadline: int, start: int) {
    forall n: nat :: Standing(cfg, env, deadline, start, n).Some?
  }

  /** Turn `n` finds the job still processing, and the time taken so far leaves some before the deadline. */
  predicate Stuck(env: nat -> Turn, deadline: int, start: int, n: nat) {
    env(n).reply.Processing? && start + Elapsed(env, n + 1) < deadline
  }

  lemma NotStuckEnds(cfg: Config, env: nat -> Turn, deadline: int, start: int, n: nat)
    requires cfg.interval <= 0 && !Stuck(env, deadline, start, n)
    requires Standing(cfg, env, deadline, start, n) == Some((start + Elapsed(env, n), false))
    ensures Standing(cfg, env, deadline, start, n + 2).None?
  {
    var next := Standing(cfg, env, deadline, start, n + 1);
    if next.Some? { assert next.value.1; }
  }

  lemma {:induction false} StuckGoesOn(cfg: Config, env: nat -> Turn, deadline: int, start: int, n: nat)
    requires cfg.interval <= 0 && start < deadline
    requires forall k: nat :: k < n ==> Stuck(env, deadline, start, k)
    ensures Standing(cfg, env, deadline, start, n) == Some((start + Elapsed(env, n), false))
  {
    if n > 0 {
      StuckGoesOn(cfg, env, deadline, start, n - 1);
      assert Stuck(env, deadline, start, n - 1);
    }
  }

  lemma {:induction false} SomeTurnEnds(cfg: Config, env: nat -> Turn, deadline: int, start: int, n: nat)
    requires cfg.interval <= 0 && !Stuck(env, deadline, start, n)
    ensures !RunsForEver(cfg, env, deadline, start)
  {
    if start >= deadline {
      assert Standing(cfg, env, deadline, start, 0) == Some((start, false));
      assert Standing(cfg, env, deadline, start, 1).None?;
    } else if k: nat :| k < n && !Stuck(env, deadline, start, k) {
      SomeTurnEnds(cfg, env, deadline, start, k);
    } else {
      StuckGoesOn(cfg, env, deadline, start, n);
      NotStuckEnds(cfg, env, deadline, start, n);
    }
  }

  lemma {:induction false} PausesAdvance(cfg: Config, env: nat -> Turn, deadline: int, start: int, n: nat)
    requires cfg.interval > 0
    ensures var s := Standing(cfg, env, deadline, start, n); s.Some? && !s.value.1 ==> start + n <= s.value.0
  {
    if n > 0 { PausesAdvance(cfg, env, deadline, start, n - 1); }
  }

  lemma PausesEnd(cfg: Config, env: nat -> Turn, deadline: int, start: int)
    requires cfg.interval > 0
    ensures !RunsForEver(cfg, env, deadline, start)
  {
    var n: nat := if start < deadline then deadline - start else 0;
    PausesAdvance(cfg, env, deadline, start, n);
    assert Standing(cfg, env, deadline, start, n + 1).None?;
  }

  /** The loop, as written, never ends if and only if there is no pause between polls, every reply is that the job is
      processing, and all the time the requests ever take stays short of the deadline. */
  lemma RunsForEverExactlyWhen(cfg: Config, env: nat -> Turn, deadline: int, start: int)
    ensures RunsForEver(cfg, env, deadline, start) <==>
            cfg.interval <= 0 && forall n: nat :: Stuck(env, deadline, start, n)
  {
    if cfg.interval > 0 {
      PausesEnd(cfg, env, deadline, start);
    } else if n: nat :| !Stuck(env, deadline, start, n) {
      SomeTurnEnds(cfg, env, deadline, start, n);
    } else {
      assert Stuck(env, deadline, start, 0);
      forall n: nat ensures Standing(cfg, env, deadline, start, n).Some? { StuckGoesOn(cfg, env, deadline, start, n); }
    }
  }

  lemma {:induction false} TimePasses(env: nat -> Turn, n: nat)
    requires forall k: nat :: env(k).took > 0
    ensures Elapsed(env, n) >= n
  {
    if n > 0 { TimePasses(env, n - 1); }
  }

  /** So the loop ends wherever it pauses or requests take time. */
  lemma ProgressEnds(cfg: Config, env: nat -> Turn, deadline: int, start: int)
    requires MakesProgress(cfg, env)
    ensures !RunsForEver(cfg, env, deadline, start)
  {
    RunsForEverExactlyWhen(cfg, env, deadline, start);
    if cfg.interval <= 0 {
      var n: nat := if start < deadline then deadline - start else 0;
      TimePasses(env, n + 1);
      assert !Stuck(env, deadline, start, n);
    }
  }

  predicate TerminalSeen(events: seq<Event>) {
    events != [] && events[|events| - 1] == SawTerminal
  }

  /** The clean-up every exit goes through: a created job that was not seen to end is cancelled. */
  function CleanUp(events: seq<Event>): seq<Event> {
    if TerminalSeen(events) then events else events + [Cancel]
  }

  /** A run of the loop, from the created job to the clean-up. */
  function Settle(loop: Run): Run {
    Run(loop.outcome, [Create] + CleanUp(loop.events))
  }

  /** `discover`: validation, creation, polling and clean-up.  The deadline is set at time `start`, the
      creation request goes out at `asked`, and polling begins at `created`. */
  function Discovery(cfg: Config, env: nat -> Turn, blank: bool, maxAge: int, creation: Creation,
                     start: int, asked: int, created: int): Run
    requires MakesProgress(cfg, env)
  {
    var refusal := Refusal(blank, maxAge, creation, start + cfg.timeout - asked);
    if refusal.Some? then Run(Raised(refusal.value), [])
    else Settle(Polling(cfg, env, start + cfg.timeout, maxAge, 0, created, false))
  }

  /** Why no job came into being, if none did. */
  function Refusal(blank: bool, maxAge: int, creation: Creation, remaining: int): Option<Why> {
    if blank || !(1 <= maxAge <= 8760) then Some(BadInput)
    else if remaining <= 0 then Some(TimedOut)
    else if !creation.Created? then Some(Unusable)
    else None
  }

  /** Nothing is sent exactly when the question is blank, the age limit is out of range, the time is already used up, or
      the creation request yields no job. */
  lemma NothingSentExactlyWhen(cfg: Config, env: nat -> Turn, blank: bool, maxAge: int, creation: Creation,
                               start: int, asked: int, created: int)
    requires MakesProgress(cfg, env)
    ensures Discovery(cfg, env, blank, maxAge, creation, start, asked, created).events == [] <==>
            blank || maxAge < 1 || 8760 < maxAge || start + cfg.timeout <= asked || creation != Created
  {}

  /** What is still owed when the loop stands at turn `k`, given what it has done. */
  ghost predicate OnTrack(cfg: Config, env: nat -> Turn, deadline: int, maxAge: int, k: nat, now: int, final: bool,
                          events: seq<Event>, whole: Run)
    requires MakesProgress(cfg, env)
  {
    var rest := Polling(cfg, env, deadline, maxAge, k, now, final);
    whole.outcome == rest.outcome && whole.events == events + rest.events
  }

  lemma OneTurn(cfg: Config, env: nat -> Turn, deadline: int, maxAge: int, k: nat, now: int, final: bool,
                events: seq<Event>, whole: Run)
    requires MakesProgress(cfg, env) && OnTrack(cfg, env, deadline, maxAge, k, now, final, events, whole)
    ensures var on := GoesOn(cfg, deadline, env(k), now, final);
            var stop := Stops(cfg, env(k), now, maxAge);
            if on.None? then whole == Run(stop.outcome, events + stop.events)
            else OnTrack(cfg, env, deadline, maxAge, k + 1, on.value.0, on.value.1, events + [PollOf(env(k), now)], whole)
  {
    var on := GoesOn(cfg, deadline, env(k), now, final);
    if on.Some? {
      var rest := Polling(cfg, env, deadline, maxAge, k + 1, on.value.0, on.value.1);
      assert events + ([PollOf(env(k), now)] + rest.events) == (events + [PollOf(env(k), now)]) + rest.events;
    }
  }

  /** One pass through the loop's body: the next poll's time and whether it is the last, or how the loop ends. */
  method TakeTurn(cfg: Config, deadline: int, turn: Turn, maxAge: int, now: int, finalPoll: bool)
    returns (on: Option<(int, bool)>, outcome: Outcome, terminal: bool)
    ensures on == GoesOn(cfg, deadline, turn, now, finalPoll)
    ensures on.None? ==> Stops(cfg, turn, now, maxAge)
                         == Run(outcome, [PollOf(turn, now)] + if terminal then [SawTerminal] else [])
  {
    var last := finalPoll || deadline - now <= 0;
    var asked := Answered(turn, now);
    on, outcome, terminal := None, Raised(Unusable), false;
    match turn.reply {
      case Timeout =>
        if last || asked < deadline {
          outcome := Raised(RequestTimedOut);
        } else {
          on := Some((asked, true));
        }
      case Broken =>
      case Completed(credits, payload) =>
        terminal := true;
        outcome := Complete(cfg, credits, payload, turn.calendar, maxAge);
      case Ended =>
        terminal := true;
        outcome := Raised(JobEnded);
      case UnknownStatus =>
      case Processing =>
        if last {
          outcome := Raised(TimedOut);
        } else {
          var next := asked + turn.lag;
          on := Some(if next >= deadline then (next, true) else (Woken(cfg, deadline, next, turn.overrun), false));
        }
    }
  }

  /** The loop, driven by the flag, the clock and the replies. */
  method PollUntilDone(cfg: Config, env: nat -> Turn, deadline: int, maxAge: int, created: int)
    returns (outcome: Outcome, events: seq<Event>)
    requires MakesProgress(cfg, env)
    ensures Run(outcome, events) == Polling(cfg, env, deadline, maxAge, 0, created, false)
  {
    var k: nat, now, finalPoll := 0, created, false;
    events := [];
    ghost var whole := Polling(cfg, env, deadline, maxAge, 0, created, false);
    assert [] + whole.events == whole.events;
    while true
      invariant OnTrack(cfg, env, deadline, maxAge, k, now, finalPoll, events, whole)
      decreases if finalPoll || now >= deadline then 0 else deadline - now, if finalPoll then 0 else 1
    {
      OneTurn(cfg, env, deadline, maxAge, k, now, finalPoll, events, whole);
      var on, ended, terminal := TakeTurn(cfg, deadline, env(k), maxAge, now, finalPoll);
      if on.None? {
        return ended, events + ([PollOf(env(k), now)] + if terminal then [SawTerminal] else []);
      }
      events := events + [PollOf(env(k), now)];
      NextIsSooner(cfg, env, deadline, k, now, finalPoll);
      k, now, finalPoll := k + 1, on.value.0, on.value.1;
    }
  }

  /** A loop that goes on has less time left, or has come to its last poll. */
  lemma NextIsSooner(cfg: Config, env: nat -> Turn, deadline: int, k: nat, now: int, final: bool)
    requires MakesProgress(cfg, env) && GoesOn(cfg, deadline, env(k), now, final).Some?
    ensures var (next, late) := GoesOn(cfg, deadline, env(k), now, final).value;
            !final && now < deadline && now <= next && (late || now < next)
  {}

  method Complete(cfg: Config, credits: Credits, payload: Payload, now: int, maxAge: int) returns (outcome: Outcome)
    ensures outcome == Finish(cfg, credits, payload, now, maxAge)
  {
    if OverTheCap(credits, cfg.maxCredits) { return Raised(OverCap); }
    if payload.NoEvidenceArray? { return Raised(NoArray); }
    var kept := NormalizeEvidence(payload.items, now, maxAge);
    if kept.None? { return Raised(TooMany); }
    outcome := Returned(Artifact(credits, kept.value));
  }

  // -------------------------------------------------------- what every run keeps

  predicate AllPolls(events: seq<Event>) {
    forall i :: 0 <= i < |events| ==> events[i].Poll?
  }

  /** The polls of a run of the loop, without the terminal observation that may end it. */
  function PollsOf(events: seq<Event>): seq<Event> {
    if TerminalSeen(events) then events[..|events| - 1] else events
  }

  ghost predicate WellShaped(run: Run) {
    PollsOf(run.events) != [] && AllPolls(PollsOf(run.events)) && (run.outcome.Returned? ==> TerminalSeen(run.events))
  }

  lemma Prepend(poll: Event, rest: Run)
    requires WellShaped(rest) && poll.Poll?
    ensures WellShaped(Run(rest.outcome, [poll] + rest.events))
    ensures PollsOf([poll] + rest.events) == [poll] + PollsOf(rest.events)
  {}

  lemma StopShape(cfg: Config, turn: Turn, now: int, maxAge: int)
    ensures WellShaped(Stops(cfg, turn, now, maxAge))
    ensures PollsOf(Stops(cfg, turn, now, maxAge).events) == [PollOf(turn, now)]
  {}

  lemma {:induction false} PollingShape(cfg: Config, env: nat -> Turn, deadline: int, maxAge: int, k: nat, now: int,
                                        final: bool)
    requires MakesProgress(cfg, env)
    ensures WellShaped(Polling(cfg, env, deadline, maxAge, k, now, final))
    decreases if final || now >= deadline then 0 else deadline - now, if final then 0 else 1
  {
    var on := GoesOn(cfg, deadline, env(k), now, final);
    if on.None? {
      StopShape(cfg, env(k), now, maxAge);
    } else {
      PollingShape(cfg, env, deadline, maxAge, k + 1, on.value.0, on.value.1);
      Prepend(PollOf(env(k), now), Polling(cfg, env, deadline, maxAge, k + 1, on.value.0, on.value.1));
    }
  }

  /** The job is created once, then only polled, and its last event is either the observation that it ended
      or its cancellation; an artifact comes only from an observed end. */
  ghost predicate SettledOnce(run: Run) {
    var n := |run.events| - 1;
    && n >= 2 && run.events[0] == Create && (forall i :: 0 < i < n ==> run.events[i].Poll?)
    && (run.events[n] == SawTerminal || run.events[n] == Cancel)
    && (run.outcome.Returned? ==> run.events[n] == SawTerminal)
  }

  lemma LoopIsSettled(loop: Run)
    requires WellShaped(loop)
    ensures SettledOnce(Settle(loop))
  {
    var events, polls := Settle(loop).events, PollsOf(loop.events);
    assert forall i :: 0 < i < |events| - 1 ==> events[i] == polls[i - 1];
  }

  lemma JobIsSettled(cfg: Config, env: nat -> Turn, deadline: int, maxAge: int, created: int, run: Run)
    requires MakesProgress(cfg, env) && run == Settle(Polling(cfg, env, deadline, maxAge, 0, created, false))
    ensures SettledOnce(run)
  {
    PollingShape(cfg, env, deadline, maxAge, 0, created, false);
    LoopIsSettled(Polling(cfg, env, deadline, maxAge, 0, created, false));
  }

  /** On every exit a created job has been settled exactly once; without a job nothing is polled or cancelled. */
  lemma CreatedJobIsSettledOnce(cfg: Config, env: nat -> Turn, blank: bool, maxAge: int, creation: Creation,
                                start: int, asked: int, created: int, run: Run)
    requires MakesProgress(cfg, env) && run == Discovery(cfg, env, blank, maxAge, creation, start, asked, created)
    ensures if Refusal(blank, maxAge, creation, start + cfg.timeout - asked).Some?
            then run.events == [] && run.outcome.Raised?
            else SettledOnce(run)
  {
    if Refusal(blank, maxAge, creation, start + cfg.timeout - asked).None? {
      JobIsSettled(cfg, env, start + cfg.timeout, maxAge, created, run);
    }
  }

  predicate SeenLate(e: Event, deadline: int) { e.Poll? && e.seen >= deadline }

  predicate IssuedLate(e: Event, deadline: int) { e.Poll? && e.at >= deadline }

  /** Allowed before the deadline and sent after it. */
  predicate Straddles(e: Event, deadline: int) { e.Poll? && e.seen < deadline <= e.at }

  function One(b: bool): nat { if b then 1 else 0 }

  function CountSeenLate(events: seq<Event>, deadline: int): nat {
    if events == [] then 0 else One(SeenLate(events[0], deadline)) + CountSeenLate(events[1..], deadline)
  }

  function CountIssuedLate(events: seq<Event>, deadline: int): nat {
    if events == [] then 0 else One(IssuedLate(events[0], deadline)) + CountIssuedLate(events[1..], deadline)
  }

  function CountStraddling(events: seq<Event>, deadline: int): nat {
    if events == [] then 0 else One(Straddles(events[0], deadline)) + CountStraddling(events[1..], deadline)
  }

  lemma CountFirst(e: Event, rest: seq<Event>, deadline: int)
    ensures CountSeenLate([e] + rest, deadline) == One(SeenLate(e, deadline)) + CountSeenLate(rest, deadline)
    ensures CountIssuedLate([e] + rest, deadline) == One(IssuedLate(e, deadline)) + CountIssuedLate(rest, deadline)
    ensures CountStraddling([e] + rest, deadline) == One(Straddles(e, deadline)) + CountStraddling(rest, deadline)
  {
    assert ([e] + rest)[1..] == rest;
  }

  lemma StopCounts(cfg: Config, turn: Turn, now: int, maxAge: int, deadline: int)
    ensures var events := Stops(cfg, turn, now, maxAge).events;
            && CountSeenLate(events, deadline) == One(SeenLate(PollOf(turn, now), deadline))
            && CountIssuedLate(events, deadline) == One(IssuedLate(PollOf(turn, now), deadline))
            && CountStraddling(events, deadline) == One(Straddles(PollOf(turn, now), deadline))
  {
    var events, poll := Stops(cfg, turn, now, maxAge).events, PollOf(turn, now);
    var rest := events[1..];
    assert events == [poll] + rest && (rest == [] || rest == [SawTerminal]);
    CountFirst(poll, rest, deadline);
    CountFirst(SawTerminal, [], deadline);
    assert [SawTerminal] + [] == [SawTerminal];
  }

  /** The deadline allows one last poll: at most one status request is decided on at or after the deadline.  At
      most one more, decided on just before, goes out after it; so two are sent late only when both occur. */
  lemma {:induction false} LatePollsAreBounded(cfg: Config, env: nat -> Turn, deadline: int, maxAge: int, k: nat, now: int,
                                               final: bool)
    requires MakesProgress(cfg, env) && (final ==> deadline <= now)
    ensures var events := Polling(cfg, env, deadline, maxAge, k, now, final).events;
            && CountSeenLate(events, deadline) <= 1
            && CountStraddling(events, deadline) <= (if now >= deadline then 0 else 1)
            && CountIssuedLate(events, deadline) == CountSeenLate(events, deadline) + CountStraddling(events, deadline)
    decreases if final || now >= deadline then 0 else deadline - now, if final then 0 else 1
  {
    var turn := env(k);
    var on := GoesOn(cfg, deadline, turn, now, final);
    if on.None? {
      StopCounts(cfg, turn, now, maxAge, deadline);
    } else {
      LatePollsAreBounded(cfg, env, deadline, maxAge, k + 1, on.value.0, on.value.1);
      var rest := Polling(cfg, env, deadline, maxAge, k + 1, on.value.0, on.value.1);
      CountFirst(PollOf(turn, now), rest.events, deadline);
      assert Straddles(PollOf(turn, now), deadline) ==> on.value.0 >= deadline;
    }
  }

  /** Polls are at least the interval apart, so their number is bounded by the time allowed. */
  lemma {:induction false} PollCountIsBounded(cfg: Config, env: nat -> Turn, deadline: int, maxAge: int, k: nat, now: int,
                                              final: bool)
    requires cfg.interval > 0
    ensures var n := |PollsOf(Polling(cfg, env, deadline, maxAge, k, now, final).events)|;
            if final || now >= deadline then n == 1 else (n - 2) * cfg.interval <= deadline - now
    decreases if final || now >= deadline then 0 else deadline - now, if final then 0 else 1
  {
    var on := GoesOn(cfg, deadline, env(k), now, final);
    if on.None? {
      StopShape(cfg, env(k), now, maxAge);
      OneMorePoll(1, cfg.interval, 0, if final || now >= deadline then 1 else deadline - now, true);
    } else {
      var (at, late) := on.value;
      PollCountIsBounded(cfg, env, deadline, maxAge, k + 1, at, late);
      PollingShape(cfg, env, deadline, maxAge, k + 1, at, late);
      var rest := Polling(cfg, env, deadline, maxAge, k + 1, at, late);
      Prepend(PollOf(env(k), now), rest);
      OneMorePoll(|PollsOf(rest.events)|, cfg.interval, deadline - at, deadline - now, late);
    }
  }

  lemma OneMorePoll(n: int, interval: int, left: int, before: int, late: bool)
    requires interval > 0 && before > 0
    requires (late || left <= 0) ==> n == 1
    requires !late && left > 0 ==> (n - 2) * interval <= left && left + interval <= before
    ensures (n + 1 - 2) * interval <= before && (late ==> (n - 2) * interval <= before)
  {
    if !late && left > 0 {
      assert (n - 1) * interval == (n - 2) * interval + interval;
    } else {
      assert (n + 1 - 2) * interval == 0;
    }
  }

  /** A returned artifact comes from an observed completion, respects the credit cap wherever the usage is a
      number, and lists at most eight entries with distinct addresses. */
  lemma {:induction false} ArtifactsRespectTheLimits(cfg: Config, env: nat -> Turn, deadline: int, maxAge: int, k: nat,
                                                     now: int, final: bool)
    requires MakesProgress(cfg, env)
    ensures var run := Polling(cfg, env, deadline, maxAge, k, now, final);
            run.outcome.Returned? ==>
              var a := run.outcome.artifact;
              && (a.credits.Number? ==> a.credits.x <= cfg.maxCredits as real)
              && |a.evidence| <= MAX_ITEMS
              && (forall i, j :: 0 <= i < j < |a.evidence| ==> a.evidence[i].url != a.evidence[j].url)
    decreases if final || now >= deadline then 0 else deadline - now, if final then 0 else 1
  {
    var turn := env(k);
    var on := GoesOn(cfg, deadline, turn, now, final);
    if on.Some? {
      ArtifactsRespectTheLimits(cfg, env, deadline, maxAge, k + 1, on.value.0, on.value.1);
    } else if turn.reply.Completed? && turn.reply.payload.Items? {
      UrlsAreDistinct(turn.reply.payload.items, |turn.reply.payload.items|, turn.calendar, maxAge);
    }
  }

  method Discover(cfg: Config, env: nat -> Turn, blank: bool, maxAge: int, creation: Creation, start: int, asked: int,
                  created: int)
    returns (outcome: Outcome, events: seq<Event>)
    requires MakesProgress(cfg, env)
    ensures Run(outcome, events) == Discovery(cfg, env, blank, maxAge, creation, start, asked, created)
  {
    events := [];
    if blank || maxAge < 1 || 8760 < maxAge { return Raised(BadInput), events; }
    var deadline := start + cfg.timeout;
    if deadline - asked <= 0 { return Raised(TimedOut), events; }
    if !creation.Created? { return Raised(Unusable), events; }
    var polled;
    outcome, polled := PollUntilDone(cfg, env, deadline, maxAge, created);
    events := [Create] + CleanUp(polled);
  }
}
