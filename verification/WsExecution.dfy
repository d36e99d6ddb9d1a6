/** WebSocket-triggered execution: the permits and per-market locks shared by the fallback path of the
    price-update handler and by the priority-queue consumer.

    Any number of agents run the same attempt: take a permit without blocking, find the market's lock
    in the registry, try it without blocking, execute (which may raise), and give both back. */
module WsExecution {
  import opened Basics

  type AgentId = nat
  type LockId = nat

  datatype Phase =
    | Idle
    | Permitted(market: string)
    | Resolved(market: string, lock: LockId)
    | Running(market: string, lock: LockId)
    | Unlocked(market: string)

  datatype World = World(
    permits: int,
    held: set<LockId>,
    registry: map<string, LockId>,
    agents: map<AgentId, Phase>)

  datatype Step =
    | TakePermit(a: AgentId, market: string)
    | NoPermit(a: AgentId)
    | FindLock(a: AgentId)
    | TakeLock(a: AgentId)
    | LockBusy(a: AgentId)
    | Return(a: AgentId)
    | Raise(a: AgentId)
    | GiveBackPermit(a: AgentId)

  /** `_get_market_lock`: one registry entry per market, created on first use. */
  function LockOf(registry: map<string, LockId>, market: string): (LockId, map<string, LockId>) {
    if market in registry then (registry[market], registry)
    else (|registry|, registry[market := |registry|])
  }

  function Set(w: World, a: AgentId, p: Phase): World {
    w.(agents := w.agents[a := p])
  }

  predicate Enabled(w: World, s: Step) {
    && s.a in w.agents
    && var p := w.agents[s.a];
       match s
       case TakePermit(_, _) => p.Idle? && w.permits > 0
       case NoPermit(_) => p.Idle? && w.permits <= 0
       case FindLock(_) => p.Permitted?
       case TakeLock(_) => p.Resolved? && p.lock !in w.held
       case LockBusy(_) => p.Resolved? && p.lock in w.held
       case Return(_) => p.Running?
       case Raise(_) => p.Running?
       case GiveBackPermit(_) => p.Unlocked?
  }

  /** A step.  `execute` returning and `execute` raising both run the `finally` block. */
  function Take(w: World, s: Step): World
    requires Enabled(w, s)
  {
    var p := w.agents[s.a];
    match s
    case TakePermit(a, market) => Set(w.(permits := w.permits - 1), a, Permitted(market))
    case NoPermit(_) => w
    case FindLock(a) =>
      var (lock, registry) := LockOf(w.registry, p.market);
      Set(w.(registry := registry), a, Resolved(p.market, lock))
    case TakeLock(a) => Set(w.(held := w.held + {p.lock}), a, Running(p.market, p.lock))
    case LockBusy(a) => Set(w.(permits := w.permits + 1), a, Idle)
    case Return(a) => Set(w.(held := w.held - {p.lock}), a, Unlocked(p.market))
    case Raise(a) => Set(w.(held := w.held - {p.lock}), a, Unlocked(p.market))
    case GiveBackPermit(a) => Set(w.(permits := w.permits + 1), a, Idle)
  }

  predicate Init(w: World, max: nat) {
    w.permits == max && w.held == {} && w.registry == map[] && forall a :: a in w.agents ==> w.agents[a] == Idle
  }

  predicate Run(ws: seq<World>, steps: seq<Step>, max: nat) {
    && |ws| == |steps| + 1
    && Init(ws[0], max)
    && forall i :: 0 <= i < |steps| ==> Enabled(ws[i], steps[i]) && ws[i + 1] == Take(ws[i], steps[i])
  }

  /** Agents between taking a permit and giving it back. */
  function Holders(w: World): set<AgentId> {
    set a | a in w.agents && !w.agents[a].Idle?
  }

  predicate RegistryOk(registry: map<string, LockId>) {
    && (forall m :: m in registry ==> registry[m] < |registry|)
    && (forall m, n :: m in registry && n in registry && registry[m] == registry[n] ==> m == n)
  }

  predicate HasLock(p: Phase) {
    p.Resolved? || p.Running?
  }

  ghost predicate Inv(w: World, max: nat) {
    && w.permits + |Holders(w)| == max
    && RegistryOk(w.registry)
    && (forall a :: a in w.agents && HasLock(w.agents[a]) ==>
          w.agents[a].market in w.registry && w.registry[w.agents[a].market] == w.agents[a].lock)
    && (forall l :: l in w.held <==> exists a :: a in w.agents && w.agents[a].Running? && w.agents[a].lock == l)
    && (forall a, b :: (a in w.agents && b in w.agents && w.agents[a].Running? && w.agents[b].Running?
                        && w.agents[a].lock == w.agents[b].lock) ==> a == b)
  }

  function Taken(p: Phase): int {
    if p.Idle? then 0 else 1
  }

  lemma HoldersAfter(w: World, w': World, a: AgentId, p: Phase)
    requires a in w.agents && w'.agents == w.agents[a := p]
    ensures |Holders(w')| == |Holders(w)| + Taken(p) - Taken(w.agents[a])
  {
    var before := Holders(w);
    assert a in before <==> !w.agents[a].Idle?;
    if p.Idle? {
      assert Holders(w') == before - {a};
      RemoveOne(before, a);
    } else {
      assert Holders(w') == before + {a};
      AddOne(before, a);
    }
  }

  lemma AddOne<T>(s: set<T>, x: T)
    ensures |s + {x}| == if x in s then |s| else |s| + 1
  {
    if x in s { assert s + {x} == s; }
  }

  lemma RemoveOne<T>(s: set<T>, x: T)
    ensures |s - {x}| == if x in s then |s| - 1 else |s|
  {
    if x !in s { assert s - {x} == s; }
  }

  lemma FreshLock(registry: map<string, LockId>, market: string)
    requires RegistryOk(registry)
    ensures RegistryOk(LockOf(registry, market).1)
    ensures var (lock, after) := LockOf(registry, market);
            market in after && after[market] == lock && forall m :: m in registry ==> m in after && after[m] == registry[m]
  {
    if market !in registry {
      var after := registry[market := |registry|];
      assert after.Keys == registry.Keys + {market};
      assert |after| == |registry| + 1;
    }
  }

  /** A move that neither starts nor ends an execution. */
  lemma QuietMoveKeepsInv(w: World, a: AgentId, p: Phase, permits: int, registry: map<string, LockId>, max: nat)
    requires Inv(w, max) && a in w.agents && !w.agents[a].Running? && !p.Running?
    requires permits == w.permits + Taken(w.agents[a]) - Taken(p)
    requires RegistryOk(registry) && forall m :: m in w.registry ==> m in registry && registry[m] == w.registry[m]
    requires HasLock(p) ==> p.market in registry && registry[p.market] == p.lock
    ensures Inv(World(permits, w.held, registry, w.agents[a := p]), max)
  {
    var w' := World(permits, w.held, registry, w.agents[a := p]);
    HoldersAfter(w, w', a, p);
    forall l ensures l in w'.held <==> exists b :: b in w'.agents && w'.agents[b].Running? && w'.agents[b].lock == l {
      if l in w.held {
        var b :| b in w.agents && w.agents[b].Running? && w.agents[b].lock == l;
        assert w'.agents[b].Running? && w'.agents[b].lock == l;
      }
    }
  }

  lemma TakeLockKeepsInv(w: World, a: AgentId, max: nat)
    requires Inv(w, max) && Enabled(w, TakeLock(a))
    ensures Inv(Take(w, TakeLock(a)), max)
  {
    var p := w.agents[a];
    var w' := Take(w, TakeLock(a));
    HoldersAfter(w, w', a, Running(p.market, p.lock));
    forall l ensures l in w'.held <==> exists b :: b in w'.agents && w'.agents[b].Running? && w'.agents[b].lock == l {
      if l == p.lock {
        assert w'.agents[a].Running?;
      } else if l in w.held {
        var b :| b in w.agents && w.agents[b].Running? && w.agents[b].lock == l;
        assert w'.agents[b].Running? && w'.agents[b].lock == l;
      }
    }
  }

  /** Both ways out of `execute` release exactly this agent's lock. */
  lemma FinallyKeepsInv(w: World, a: AgentId, max: nat)
    requires Inv(w, max) && a in w.agents && w.agents[a].Running?
    ensures Take(w, Return(a)) == Take(w, Raise(a))
    ensures Inv(Take(w, Return(a)), max)
  {
    var p := w.agents[a];
    var w' := Take(w, Return(a));
    HoldersAfter(w, w', a, Unlocked(p.market));
    forall l ensures l in w'.held <==> exists b :: b in w'.agents && w'.agents[b].Running? && w'.agents[b].lock == l {
      if l in w'.held {
        var b :| b in w.agents && w.agents[b].Running? && w.agents[b].lock == l;
        assert b != a;
        assert w'.agents[b].Running? && w'.agents[b].lock == l;
      }
    }
  }

  lemma StepKeepsInv(w: World, s: Step, max: nat)
    requires Inv(w, max) && Enabled(w, s)
    ensures Inv(Take(w, s), max)
  {
    match s
    case FindLock(a) =>
      FreshLock(w.registry, w.agents[a].market);
      var (lock, registry) := LockOf(w.registry, w.agents[a].market);
      QuietMoveKeepsInv(w, a, Resolved(w.agents[a].market, lock), w.permits, registry, max);
    case TakeLock(a) => TakeLockKeepsInv(w, a, max);
    case Return(a) => FinallyKeepsInv(w, a, max);
    case Raise(a) => FinallyKeepsInv(w, a, max);
    case TakePermit(a, market) => QuietMoveKeepsInv(w, a, Permitted(market), w.permits - 1, w.registry, max);
    case LockBusy(a) => QuietMoveKeepsInv(w, a, Idle, w.permits + 1, w.registry, max);
    case GiveBackPermit(a) => QuietMoveKeepsInv(w, a, Idle, w.permits + 1, w.registry, max);
    case NoPermit(_) =>
  }

  lemma {:induction false} RunKeepsInv(ws: seq<World>, steps: seq<Step>, max: nat, k: nat)
    requires Run(ws, steps, max) && k <= |steps|
    ensures Inv(ws[k], max) && 0 <= ws[k].permits <= max
    decreases k
  {
    if k == 0 {
      assert Holders(ws[0]) == {};
    } else {
      RunKeepsInv(ws, steps, max, k - 1);
      assert ws[k - 1 + 1] == Take(ws[k - 1], steps[k - 1]);
      StepKeepsInv(ws[k - 1], steps[k - 1], max);
      PermitsNeverNegative(ws[k - 1], steps[k - 1]);
    }
  }

  lemma PermitsNeverNegative(w: World, s: Step)
    requires Enabled(w, s) && 0 <= w.permits
    ensures 0 <= Take(w, s).permits
  {}

  // ----------------------------------------------------------- main results

  /** The market an agent asked for when it last took a permit, read off the steps alone. */
  function Requested(steps: seq<Step>, a: AgentId): Option<string> {
    if steps == [] then None
    else
      var s := steps[|steps| - 1];
      if s.TakePermit? && s.a == a then Some(s.market) else Requested(steps[..|steps| - 1], a)
  }

  /** An attempt under way is about the market that was asked for. */
  lemma {:induction false} AttemptsNameTheirRequest(ws: seq<World>, steps: seq<Step>, max: nat, k: nat, a: AgentId)
    requires Run(ws, steps, max) && k <= |steps| && a in ws[k].agents && !ws[k].agents[a].Idle?
    ensures Requested(steps[..k], a) == Some(ws[k].agents[a].market)
    decreases k
  {
    if k > 0 {
      var before, s := ws[k - 1], steps[k - 1];
      assert steps[..k][..k - 1] == steps[..k - 1];
      assert ws[k - 1 + 1] == Take(before, s);
      if s.a != a || !s.TakePermit? { AttemptsNameTheirRequest(ws, steps, max, k - 1, a); }
    }
  }

  /** In every state of every interleaving, free permits and permit holders add up to the configured
      maximum, and two agents never execute at once what was requested for one market. */
  lemma SafeInEveryRun(ws: seq<World>, steps: seq<Step>, max: nat, k: nat, a: AgentId, b: AgentId)
    requires Run(ws, steps, max) && k <= |steps|
    ensures ws[k].permits + |Holders(ws[k])| == max && 0 <= ws[k].permits <= max
    ensures (a in ws[k].agents && b in ws[k].agents && ws[k].agents[a].Running? && ws[k].agents[b].Running?
             && Requested(steps[..k], a) == Requested(steps[..k], b)) ==> a == b
  {
    RunKeepsInv(ws, steps, max, k);
    if a in ws[k].agents && ws[k].agents[a].Running? { AttemptsNameTheirRequest(ws, steps, max, k, a); }
    if b in ws[k].agents && ws[k].agents[b].Running? { AttemptsNameTheirRequest(ws, steps, max, k, b); }
  }

  /** Nor are attempts refused for anything else: an agent is turned away for want of a permit if and only if as many
      attempts as the maximum are under way, and at its market's lock if and only if another executes what was
      requested for the same market. */
  lemma RefusedExactlyWhen(ws: seq<World>, steps: seq<Step>, max: nat, k: nat, a: AgentId)
    requires Run(ws, steps, max) && k <= |steps| && a in ws[k].agents
    ensures ws[k].agents[a].Idle? ==> (Enabled(ws[k], NoPermit(a)) <==> |Holders(ws[k])| == max)
    ensures ws[k].agents[a].Idle? ==> forall m :: Enabled(ws[k], TakePermit(a, m)) <==> |Holders(ws[k])| < max
    ensures ws[k].agents[a].Resolved? ==>
              (Enabled(ws[k], LockBusy(a)) <==>
               exists b :: b in ws[k].agents && ws[k].agents[b].Running? && Requested(steps[..k], b) == Requested(steps[..k], a))
    ensures ws[k].agents[a].Resolved? ==> (Enabled(ws[k], TakeLock(a)) <==> !Enabled(ws[k], LockBusy(a)))
  {
    RunKeepsInv(ws, steps, max, k);
    if ws[k].agents[a].Resolved? {
      AttemptsNameTheirRequest(ws, steps, max, k, a);
      forall b | b in ws[k].agents && ws[k].agents[b].Running?
        ensures Requested(steps[..k], b) == Some(ws[k].agents[b].market)
        ensures ws[k].agents[b].market == ws[k].agents[a].market <==> ws[k].agents[b].lock == ws[k].agents[a].lock
      {
        AttemptsNameTheirRequest(ws, steps, max, k, b);
      }
    }
  }

  /** Every exit path gives back exactly what it took: once every attempt has ended, by refusal, by a busy
      lock, by return or by exception, all permits are free and no market lock is held. */
  lemma NothingLeaksWhenIdle(ws: seq<World>, steps: seq<Step>, max: nat, k: nat)
    requires Run(ws, steps, max) && k <= |steps|
    requires forall a :: a in ws[k].agents ==> ws[k].agents[a].Idle?
    ensures ws[k].permits == max && ws[k].held == {}
  {
    RunKeepsInv(ws, steps, max, k);
    assert Holders(ws[k]) == {};
  }

  /** A market keeps its lock for the rest of the run, and no other market ever shares it. */
  lemma {:induction false} LocksNeverChange(ws: seq<World>, steps: seq<Step>, max: nat, k: nat, l: nat, market: string, other: string)
    requires Run(ws, steps, max) && k <= l <= |steps| && market in ws[k].registry
    ensures market in ws[l].registry && ws[l].registry[market] == ws[k].registry[market]
    ensures other in ws[l].registry && other != market ==> ws[l].registry[other] != ws[k].registry[market]
    decreases l
  {
    RunKeepsInv(ws, steps, max, l);
    if k < l {
      LocksNeverChange(ws, steps, max, k, l - 1, market, other);
      assert ws[l - 1 + 1] == Take(ws[l - 1], steps[l - 1]);
    }
  }

  /** Steps an attempt still has to take, counted from its phase. */
  function Remaining(p: Phase): nat {
    match p
    case Idle => 0
    case Unlocked(_) => 1
    case Running(_, _) => 2
    case Resolved(_, _) => 3
    case Permitted(_) => 4
  }

  /** Nothing ever waits: an attempt under way always has a step of its own, and every such step brings
      it strictly closer to its end whatever the others hold. */
  lemma AttemptsNeverBlock(w: World, a: AgentId)
    requires a in w.agents && !w.agents[a].Idle?
    ensures exists s: Step :: s.a == a && Enabled(w, s)
    ensures forall s: Step :: s.a == a && Enabled(w, s) ==> Remaining(Take(w, s).agents[a]) < Remaining(w.agents[a])
  {
    var p := w.agents[a];
    var s :=
      match p
      case Permitted(_) => FindLock(a)
      case Resolved(_, lock) => if lock in w.held then LockBusy(a) else TakeLock(a)
      case Running(_, _) => Return(a)
      case Unlocked(_) => GiveBackPermit(a)
      case Idle => NoPermit(a);
    assert s.a == a && Enabled(w, s);
  }

  // -------------------------------------------------------------- the registry

  /** The module-level lock registry. */
  class MarketLocks {
    var registry: map<string, LockId>

    constructor ()
      ensures registry == map[]
    {
      registry := map[];
    }

    method Get(market: string) returns (lock: LockId)
      modifies this
      ensures (lock, registry) == LockOf(old(registry), market)
    {
      if market !in registry {
        registry := registry[market := |registry|];
      }
      lock := registry[market];
    }
  }
}
