/** The cooldown deduper for WebSocket-triggered opportunities, with its size-triggered eviction. */
module TriggerDeduper {
  import opened Basics

  const LIMIT := 10_000

  predicate Refuses(last: map<string, real>, cooldown: real, key: string, now: real) {
    key in last && now - last[key] < cooldown
  }

  /** Entries older than twice the cooldown, and than a minute, are dropped once the table is large. */
  function Evict(last: map<string, real>, cooldown: real, now: real): map<string, real> {
    if |last| <= LIMIT then last
    else map k | k in last && last[k] >= now - MaxReal(cooldown * 2.0, 60.0) :: last[k]
  }

  /** What is left of a table of more than ten thousand entries: those of the last minute, and of the last two
      cooldowns; of a smaller one everything. */
  lemma KeptExactlyWhen(last: map<string, real>, cooldown: real, now: real, key: string)
    ensures var kept := Evict(last, cooldown, now);
            && (key in kept <==> key in last && (|last| <= 10_000 || now - last[key] <= 60.0
                                                 || now - last[key] <= cooldown + cooldown))
            && (key in kept ==> kept[key] == last[key])
  {}

  datatype Op = Admit(key: string, now: real) | Forget(key: string)

  datatype Answer = Admitted | Refused | Forgotten

  /** One call on the real, evicting table. */
  function Apply(last: map<string, real>, cooldown: real, op: Op): (map<string, real>, Answer) {
    match op
    case Forget(key) => (last - {key}, Forgotten)
    case Admit(key, now) =>
      if Refuses(last, cooldown, key, now) then (last, Refused)
      else (Evict(last[key := now], cooldown, now), Admitted)
  }

  /** The same call on a table that never evicts. */
  function ApplyForever(last: map<string, real>, cooldown: real, op: Op): (map<string, real>, Answer) {
    match op
    case Forget(key) => (last - {key}, Forgotten)
    case Admit(key, now) =>
      if Refuses(last, cooldown, key, now) then (last, Refused) else (last[key := now], Admitted)
  }

  /** The table after a history of calls on a new deduper, and the answers given. */
  function Table(cooldown: real, ops: seq<Op>): map<string, real> {
    if ops == [] then map[] else Apply(Table(cooldown, ops[..|ops| - 1]), cooldown, ops[|ops| - 1]).0
  }

  function Answers(cooldown: real, ops: seq<Op>): (r: seq<Answer>)
    ensures |r| == |ops|
  {
    if ops == [] then []
    else
      var init := ops[..|ops| - 1];
      Answers(cooldown, init) + [Apply(Table(cooldown, init), cooldown, ops[|ops| - 1]).1]
  }

  function TableForever(cooldown: real, ops: seq<Op>): map<string, real> {
    if ops == [] then map[] else ApplyForever(TableForever(cooldown, ops[..|ops| - 1]), cooldown, ops[|ops| - 1]).0
  }

  function AnswersForever(cooldown: real, ops: seq<Op>): (r: seq<Answer>)
    ensures |r| == |ops|
  {
    if ops == [] then []
    else
      var init := ops[..|ops| - 1];
      AnswersForever(cooldown, init) + [ApplyForever(TableForever(cooldown, init), cooldown, ops[|ops| - 1]).1]
  }

  /** The monotonic clock: call times never run backwards. */
  predicate Monotone(ops: seq<Op>) {
    forall i, j :: 0 <= i < j < |ops| && ops[i].Admit? && ops[j].Admit? ==> ops[i].now <= ops[j].now
  }

  /** The evicting table is the full one minus entries too old to refuse anything at `now` or later. */
  predicate Trimmed(last: map<string, real>, full: map<string, real>, cooldown: real, now: real) {
    && (forall k :: k in last ==> k in full && full[k] == last[k])
    && (forall k :: k in full && k !in last ==> now - full[k] >= cooldown)
  }

  lemma StepStaysTrimmed(last: map<string, real>, full: map<string, real>, cooldown: real, now: real, op: Op)
    requires Trimmed(last, full, cooldown, now) && 0.0 <= cooldown
    requires op.Admit? ==> now <= op.now
    ensures var (last', a) := Apply(last, cooldown, op);
            var (full', b) := ApplyForever(full, cooldown, op);
            a == b && Trimmed(last', full', cooldown, if op.Admit? then op.now else now)
  {
    if op.Admit? && !Refuses(last, cooldown, op.key, op.now) {
      var inserted := last[op.key := op.now];
      assert Trimmed(inserted, full[op.key := op.now], cooldown, op.now);
    }
  }

  lemma {:induction false} HistoryStaysTrimmed(cooldown: real, ops: seq<Op>, now: real)
    requires 0.0 <= cooldown && Monotone(ops)
    requires forall i :: 0 <= i < |ops| && ops[i].Admit? ==> ops[i].now <= now
    ensures Answers(cooldown, ops) == AnswersForever(cooldown, ops)
    ensures Trimmed(Table(cooldown, ops), TableForever(cooldown, ops), cooldown, now)
  {
    if ops != [] {
      var init, op := ops[..|ops| - 1], ops[|ops| - 1];
      var before := if op.Admit? then op.now else now;
      HistoryStaysTrimmed(cooldown, init, before);
      StepStaysTrimmed(Table(cooldown, init), TableForever(cooldown, init), cooldown, before, op);
    }
  }

  /** Eviction is invisible: over every history with non-decreasing times, the evicting deduper answers
      exactly as one that never forgets. */
  lemma EvictionIsInvisible(cooldown: real, ops: seq<Op>)
    requires 0.0 <= cooldown && Monotone(ops)
    ensures Answers(cooldown, ops) == AnswersForever(cooldown, ops)
  {
    HistoryStaysTrimmed(cooldown, ops, Latest(ops));
  }

  function Latest(ops: seq<Op>): (t: real)
    ensures forall i :: 0 <= i < |ops| && ops[i].Admit? ==> ops[i].now <= t
  {
    if ops == [] then 0.0
    else
      var t := Latest(ops[..|ops| - 1]);
      var op := ops[|ops| - 1];
      if op.Admit? then MaxReal(t, op.now) else t
  }

  /** Call `i` admitted `key`, and nothing has forgotten the key up to call `n`. */
  predicate Standing(ops: seq<Op>, answers: seq<Answer>, key: string, i: int, n: int)
    requires |answers| == |ops| && n <= |ops|
  {
    && 0 <= i < n && ops[i].Admit? && ops[i].key == key && answers[i].Admitted?
    && forall k :: i < k < n ==> ops[k] != Forget(key)
  }

  /** The full table holds, for `key`, the time of its latest standing admission. */
  ghost predicate Explained(full: map<string, real>, ops: seq<Op>, answers: seq<Answer>, key: string)
    requires |answers| == |ops|
  {
    && (key in full ==> exists i :: Standing(ops, answers, key, i, |ops|) && ops[i].now == full[key])
    && (forall i :: Standing(ops, answers, key, i, |ops|) ==> key in full && ops[i].now <= full[key])
  }

  lemma StandingOnPrefix(ops: seq<Op>, answers: seq<Answer>, key: string, i: int, m: nat, n: nat)
    requires |answers| == |ops| && n <= m <= |ops|
    ensures Standing(ops, answers, key, i, n) <==> Standing(ops[..m], answers[..m], key, i, n)
  {
    var short := ops[..m];
    assert forall k :: 0 <= k < m ==> short[k] == ops[k] && answers[..m][k] == answers[k];
  }

  lemma OneMoreCall(ops: seq<Op>, answers: seq<Answer>, key: string, i: int, n: nat)
    requires |answers| == |ops| && n < |ops| && i < n
    ensures Standing(ops, answers, key, i, n + 1) <==> Standing(ops, answers, key, i, n) && ops[n] != Forget(key)
  {
  }

  lemma StepStaysExplained(full: map<string, real>, cooldown: real, ops: seq<Op>, answers: seq<Answer>, key: string)
    requires |answers| == |ops| > 0 && Monotone(ops)
    requires Explained(full, ops[..|ops| - 1], answers[..|ops| - 1], key)
    requires answers[|ops| - 1] == ApplyForever(full, cooldown, ops[|ops| - 1]).1
    ensures Explained(ApplyForever(full, cooldown, ops[|ops| - 1]).0, ops, answers, key)
  {
    var n := |ops| - 1;
    var op, init, as0 := ops[n], ops[..n], answers[..n];
    var after := ApplyForever(full, cooldown, op).0;
    forall i | i < n
      ensures Standing(ops, answers, key, i, n + 1) <==> Standing(init, as0, key, i, n) && op != Forget(key)
    {
      OneMoreCall(ops, answers, key, i, n);
      StandingOnPrefix(ops, answers, key, i, n, n);
    }
    if answers[n].Admitted? && op.key == key {
      assert Standing(ops, answers, key, n, n + 1);
    } else if key in after {
      var i :| Standing(init, as0, key, i, n) && init[i].now == full[key];
      assert Standing(ops, answers, key, i, n + 1);
    }
  }

  lemma {:induction false} FullTableIsExplained(cooldown: real, ops: seq<Op>, key: string)
    requires Monotone(ops)
    ensures Explained(TableForever(cooldown, ops), ops, AnswersForever(cooldown, ops), key)
  {
    if ops != [] {
      var init := ops[..|ops| - 1];
      FullTableIsExplained(cooldown, init, key);
      assert AnswersForever(cooldown, ops)[..|ops| - 1] == AnswersForever(cooldown, init);
      StepStaysExplained(TableForever(cooldown, init), cooldown, ops, AnswersForever(cooldown, ops), key);
    }
  }

  lemma {:induction false} AnswersOfPrefix(cooldown: real, ops: seq<Op>, n: nat)
    requires n <= |ops|
    ensures AnswersForever(cooldown, ops)[..n] == AnswersForever(cooldown, ops[..n])
    decreases |ops|
  {
    if n < |ops| {
      var init := ops[..|ops| - 1];
      AnswersOfPrefix(cooldown, init, n);
      assert init[..n] == ops[..n];
      assert AnswersForever(cooldown, ops)[..|ops| - 1] == AnswersForever(cooldown, init);
    } else {
      assert ops[..n] == ops;
    }
  }

  lemma AnswerOfCall(cooldown: real, ops: seq<Op>, n: nat)
    requires n < |ops|
    ensures AnswersForever(cooldown, ops)[n] == ApplyForever(TableForever(cooldown, ops[..n]), cooldown, ops[n]).1
  {
    var upTo := ops[..n + 1];
    AnswersOfPrefix(cooldown, ops, n + 1);
    assert upTo[..n] == ops[..n];
    assert AnswersForever(cooldown, ops)[n] == AnswersForever(cooldown, ops)[..n + 1][n];
  }

  /** The deduper's whole behaviour, evictions included: a call is refused if and only if some earlier
      admission of the same key, not forgotten since, lies less than the cooldown before it. */
  lemma RefusedExactlyWithinCooldown(cooldown: real, ops: seq<Op>, n: nat)
    requires 0.0 <= cooldown && Monotone(ops) && n < |ops| && ops[n].Admit?
    ensures var answers := Answers(cooldown, ops);
            answers[n].Refused? <==>
            exists i :: Standing(ops, answers, ops[n].key, i, n) && ops[n].now - ops[i].now < cooldown
  {
    EvictionIsInvisible(cooldown, ops);
    var answers, init, key := AnswersForever(cooldown, ops), ops[..n], ops[n].key;
    FullTableIsExplained(cooldown, init, key);
    AnswersOfPrefix(cooldown, ops, n);
    AnswerOfCall(cooldown, ops, n);
    var full := TableForever(cooldown, init);
    forall i ensures Standing(ops, answers, key, i, n) <==> Standing(init, answers[..n], key, i, n) {
      StandingOnPrefix(ops, answers, key, i, n, n);
    }
    if key in full {
      var i :| Standing(init, answers[..n], key, i, n) && init[i].now == full[key];
      assert Standing(ops, answers, key, i, n);
    }
  }

  /** Two admissions of one key with nothing forgotten between them are at least the cooldown apart. */
  lemma AdmissionsAreSpaced(cooldown: real, ops: seq<Op>, i: nat, j: nat)
    requires 0.0 <= cooldown && Monotone(ops) && i < j < |ops|
    requires ops[i].Admit? && Standing(ops, Answers(cooldown, ops), ops[i].key, i, j)
    requires ops[j].Admit? && ops[j].key == ops[i].key && Answers(cooldown, ops)[j].Admitted?
    ensures ops[j].now - ops[i].now >= cooldown
  {
    RefusedExactlyWithinCooldown(cooldown, ops, j);
  }

  // --------------------------------------------------------------- the object

  class Deduper {
    const cooldown: real
    var lastQueued: map<string, real>

    constructor (cooldownSeconds: real)
      ensures cooldown == MaxReal(0.0, cooldownSeconds) && lastQueued == map[]
    {
      cooldown := MaxReal(0.0, cooldownSeconds);
      lastQueued := map[];
    }

    method Admit(key: string, now: real) returns (ok: bool)
      modifies this
      ensures (lastQueued, if ok then Admitted else Refused) == Apply(old(lastQueued), cooldown, Op.Admit(key, now))
    {
      if key in lastQueued && now - lastQueued[key] < cooldown { return false; }
      lastQueued := lastQueued[key := now];
      if |lastQueued| > LIMIT {
        var cutoff := now - MaxReal(cooldown * 2.0, 60.0);
        lastQueued := map k | k in lastQueued && lastQueued[k] >= cutoff :: lastQueued[k];
      }
      ok := true;
    }

    method Forget(key: string)
      modifies this
      ensures (lastQueued, Forgotten) == Apply(old(lastQueued), cooldown, Op.Forget(key))
    {
      lastQueued := lastQueued - {key};
    }
  }
}
