/** Forced resynchronization: what an invalidation of the cache achieves, depending on what the
    consumer is doing when it happens. */
module Forced {
  import opened Basics
  import opened Text
  import opened Fabrics
  import opened Builds
  import Mailbox
  import PushCycle
  import opened Adapter
  import HostNames

  function Begins(steps: seq<Step>): nat {
    if steps == [] then 0 else Begins(steps[..|steps| - 1]) + if Last(steps).Begin? then 1 else 0
  }

  function StepPushes(s: State, step: Step): multiset<string> {
    if step.Inner? then PushCycle.PushedBy(Cycle(s), step.inner) else multiset{}
  }

  /** The fabrics whose netconfigs are pushed to ONOS in the course of these steps. */
  ghost function Pushed(s0: State, steps: seq<Step>): multiset<string> {
    if steps == [] then multiset{}
    else
      var front := steps[..|steps| - 1];
      Pushed(s0, front) + if Exec(s0, front).Some? then StepPushes(Exec(s0, front).value, Last(steps)) else multiset{}
  }

  /** The fabrics for which these requests post a netconfig to ONOS. */
  function Posted(requests: seq<PushCycle.Request>): multiset<string> {
    if requests == [] then multiset{}
    else Posted(requests[..|requests| - 1])
         + if Last(requests).NetConfigPost? then multiset{Last(requests).fabric} else multiset{}
  }

  lemma {:induction false} PostedConcat(a: seq<PushCycle.Request>, b: seq<PushCycle.Request>)
    ensures Posted(a + b) == Posted(a) + Posted(b)
  {
    if b == [] {
      assert a + b == a;
    } else {
      assert (a + b)[..|a + b| - 1] == a + b[..|b| - 1];
      PostedConcat(a, b[..|b| - 1]);
    }
  }

  /** What is pushed in a run are the netconfigs posted by the requests of that run. */
  lemma {:induction false} PushesArePosted(s0: State, steps: seq<Step>, s: State)
    requires Exec(s0, steps) == Some(s)
    ensures Pushed(s0, steps) == Posted(RequestsIn(s0, steps))
    decreases |steps|
  {
    hide Enabled, Apply, Posted, StepPushes, PushCycle.RequestOf;
    if steps == [] {
      assert Posted([]) == multiset{} by { NothingPosted(); }
    } else {
      var front, step := steps[..|steps| - 1], Last(steps);
      var before := Exec(s0, front).value;
      PushesArePosted(s0, front, before);
      var requests := if step.Inner? then PushCycle.RequestOf(Cycle(before), step.inner) else [];
      StepPosts(before, step);
      PostedConcat(RequestsIn(s0, front), requests);
      assert RequestsIn(s0, steps) == RequestsIn(s0, front) + requests;
    }
  }

  lemma NothingPosted()
    ensures Posted([]) == multiset{}
  {
  }

  lemma StepPosts(s: State, step: Step)
    requires Enabled(s, step)
    ensures StepPushes(s, step) == Posted(if step.Inner? then PushCycle.RequestOf(Cycle(s), step.inner) else [])
  {
    hide NetConfigFrom, DrawnAs, ChassisFrom, KnownSwitches, PushCycle.CacheKey;
  }

  /** There is a fabric that the attempt has yet to build. */
  predicate StillToBuild(a: PushCycle.Attempt) {
    if a.phase.Between? then a.todo != {} else a.todo - {a.phase.fabric} != {}
  }

  /** A netconfig that the attempt has built and not yet put in the cache. */
  predicate AtHand(p: PushCycle.Phase) {
    p.Built? || p.Missed? || p.Accepted?
  }

  /** No attempt is under way that will put anything in the cache. */
  predicate Done(s: State) {
    s.attempt.Some? ==> !StillToBuild(s.attempt.value) && !AtHand(s.attempt.value.phase)
  }

  /** No attempt is under way that will put anything in the cache that can be built again: nothing but a
      netconfig with a host name in it. */
  ghost predicate Spent(s: State) {
    s.attempt.Some? ==>
      && !StillToBuild(s.attempt.value)
      && (AtHand(s.attempt.value.phase) ==> HasHostName(s.world.ip, s.attempt.value.phase.nc))
  }

  // ---------- the next attempt pushes everything itself ----------

  /** Since the invalidation `begins` attempts have begun, and `pushed` been pushed. When `strict`,
      nothing was left that could still be put in the cache. */
  ghost predicate ColdSoFar(s: State, strict: bool, begins: nat, pushed: multiset<string>) {
    && (begins == 0 ==>
          && (if strict then Done(s) && s.world.cache == map[] && pushed == multiset{} else Spent(s))
          && forall key | key in s.world.cache :: HasHostName(s.world.ip, s.world.cache[key]))
    && (begins == 1 && s.attempt.Some? ==>
          && PushCycle.Cold(Cycle(s), strict)
          && (if strict then pushed == multiset(PushCycle.DealtWith(s.attempt.value))
              else multiset(PushCycle.DealtWith(s.attempt.value)) <= pushed))
    && (begins == 1 && s.attempt.None? ==>
          s.last.Returned?
          && (s.last.fatal || (if strict then pushed == multiset(ForestOf(s, s.last.update).Keys)
                               else multiset(ForestOf(s, s.last.update).Keys) <= pushed)))
  }

  lemma ColdBegin(w: PushCycle.World, strict: bool, forest: PushCycle.Forest)
    requires forall key | key in w.cache :: !strict && HasHostName(w.ip, w.cache[key])
    ensures PushCycle.Cold(PushCycle.Cycle.Cycle(w, PushCycle.Fresh(forest)), strict)
    ensures PushCycle.DealtWith(PushCycle.Fresh(forest)) == {}
  {
    hide HasHostName;
  }

  lemma SpentInner(s: State, strict: bool, pushed: multiset<string>, i: PushCycle.Step)
    requires ColdSoFar(s, strict, 0, pushed) && Enabled(s, Inner(i))
    ensures ColdSoFar(Apply(s, Inner(i)), strict, 0, pushed + StepPushes(s, Inner(i)))
    ensures strict ==> !i.Hit?
  {
    hide NetConfigFrom, DrawnAs, ChassisFrom, KnownSwitches, Sorted, PushCycle.CacheKey, HasHostName;
    var a, a' := s.attempt.value, Apply(s, Inner(i)).attempt.value;
    assert a'.todo <= a.todo;
    if a.phase.Stratum? && a'.phase.Between? { assert a'.todo == a.todo - {a.phase.fabric}; }
  }

  lemma ColdInner(s: State, strict: bool, i: PushCycle.Step, pushed: multiset<string>)
    requires ColdSoFar(s, strict, 1, pushed) && Enabled(s, Inner(i)) && (strict || PushCycle.FreshlyBuilt(Cycle(s)))
    ensures !i.Hit? && ColdSoFar(Apply(s, Inner(i)), strict, 1, pushed + StepPushes(s, Inner(i)))
  {
    hide PushCycle.Enabled, PushCycle.Apply, PushCycle.Cold, PushCycle.DealtWith, PushCycle.PushedBy,
         PushCycle.FreshlyBuilt;
    PushCycle.ColdStep(Cycle(s), strict, i);
  }

  lemma StillCold(s: State, strict: bool)
    requires s.attempt.Some? && PushCycle.Cold(Cycle(s), strict)
    ensures PushCycle.Cold(Cycle(Apply(s, Invalidate)), strict)
  {
  }

  lemma ColdReturn(a: PushCycle.Attempt)
    requires a.phase.Between? && a.todo == {}
    ensures PushCycle.DealtWith(a) == a.forest.Keys
  {
  }

  lemma ColdStep(s: State, strict: bool, begins: nat, pushed: multiset<string>, step: Step)
    requires Coherent(s) && ColdSoFar(s, strict, begins, pushed) && Enabled(s, step)
    requires begins + (if step.Begin? then 1 else 0) <= 1 && (strict || PushCycle.FreshlyBuilt(Cycle(s)))
    ensures begins == 1 || strict ==> step != Inner(PushCycle.Hit)
    ensures ColdSoFar(Apply(s, step), strict, begins + (if step.Begin? then 1 else 0), pushed + StepPushes(s, step))
  {
    hide PushCycle.Enabled, PushCycle.Apply, PushCycle.Cold, PushCycle.DealtWith, Mailbox.Enabled, Mailbox.Apply,
         PushCycle.FreshlyBuilt, HasHostName;
    match step {
      case Inner(i) => if begins == 0 { SpentInner(s, strict, pushed, i); } else { ColdInner(s, strict, i, pushed); }
      case Begin => ColdBegin(s.world, strict, ForestOf(s, s.box.consumer.update));
      case Invalidate => if begins == 1 && s.attempt.Some? { StillCold(s, strict); }
      case Finish => ColdReturn(s.attempt.value);
      case _ =>
    }
  }

  lemma CoherentAfter(n: nat, start: PushCycle.World, earlier: seq<Step>, s0: State, steps: seq<Step>, s: State)
    requires Exec(Init(n, start), earlier) == Some(s0) && Exec(Apply(s0, Invalidate), steps) == Some(s)
    ensures Coherent(s) && Exec(Init(n, start), earlier + [Invalidate] + steps) == Some(s)
  {
    hide Exec, Coherent, Mailbox.Reachable;
    ExecStep(Init(n, start), earlier, s0, Invalidate);
    ExecConcat(Init(n, start), earlier + [Invalidate], Apply(s0, Invalidate), steps, s);
    CoherentThroughout(n, start, earlier + [Invalidate] + steps, s);
  }

  lemma FreshAfter(n: nat, start: PushCycle.World, earlier: seq<Step>, s0: State, steps: seq<Step>, s: State)
    requires Exec(Init(n, start), earlier) == Some(s0) && Exec(Apply(s0, Invalidate), steps) == Some(s)
    requires s.world.next <= TWO_32
    ensures PushCycle.FreshlyBuilt(Cycle(s))
  {
    hide Exec, Coherent, PushCycle.AllDated, PushCycle.FreshlyBuilt;
    CoherentAfter(n, start, earlier, s0, steps, s);
    HostNames.FreshThroughout(n, start, earlier + [Invalidate] + steps, s);
  }

  lemma {:induction false} ColdThroughout(n: nat, start: PushCycle.World, earlier: seq<Step>, s0: State, strict: bool,
                                          steps: seq<Step>, s: State)
    requires Exec(Init(n, start), earlier) == Some(s0) && Spent(s0)
    requires Exec(Apply(s0, Invalidate), steps) == Some(s) && Begins(steps) <= 1
    requires if strict then Done(s0) else s.world.next <= TWO_32
    ensures strict ==> Inner(PushCycle.Hit) !in steps
    ensures ColdSoFar(s, strict, Begins(steps), Pushed(Apply(s0, Invalidate), steps))
    decreases |steps|
  {
    var s1 := Apply(s0, Invalidate);
    hide Enabled, Apply, ColdSoFar, Coherent, StepPushes, Spent, Done, PushCycle.FreshlyBuilt;
    if steps == [] {
      assert ColdSoFar(s1, strict, 0, multiset{}) by { ColdAtFirst(s0, strict); }
    } else {
      var front := steps[..|steps| - 1];
      var before := Exec(s1, front).value;
      HostNames.NextGrows(before, Last(steps));
      ColdThroughout(n, start, earlier, s0, strict, front, before);
      CoherentAfter(n, start, earlier, s0, front, before);
      if !strict { FreshAfter(n, start, earlier, s0, front, before); }
      ColdStep(before, strict, Begins(front), Pushed(s1, front), Last(steps));
    }
  }

  lemma ColdAtFirst(s0: State, strict: bool)
    requires Spent(s0) && (strict ==> Done(s0))
    ensures ColdSoFar(Apply(s0, Invalidate), strict, 0, multiset{})
  {
    hide HasHostName;
  }

  /** A Forced update that arrives when no attempt has anything left to push or to remember is really
      pushed. Until a second attempt begins the cache is never hit, and the netconfigs pushed to ONOS are
      those of the fabrics that the first one has reached, each once; of all its fabrics, once it has
      returned without an error. */
  lemma ForcedResync(n: nat, start: PushCycle.World, earlier: seq<Step>, s0: State, steps: seq<Step>, s: State)
    requires Exec(Init(n, start), earlier) == Some(s0) && Done(s0)
    requires Exec(Apply(s0, Invalidate), steps) == Some(s) && Begins(steps) == 1
    ensures Inner(PushCycle.Hit) !in steps
    ensures var pushed := Pushed(Apply(s0, Invalidate), steps);
            if s.attempt.Some? then pushed == multiset(PushCycle.DealtWith(s.attempt.value))
            else s.last.Returned? && (s.last.fatal || pushed == multiset(ForestOf(s, s.last.update).Keys))
  {
    hide Exec, Begins, Pushed, Apply, PushCycle.Cold, PushCycle.DealtWith, HasHostName;
    ColdThroughout(n, start, earlier, s0, true, steps, s);
  }

  lemma {:induction false} SinceThroughout(s0: State, floor: nat, steps: seq<Step>, s: State)
    requires Since(s0, floor) && Exec(s0, steps) == Some(s)
    ensures Since(s, floor)
    decreases |steps|
  {
    hide Enabled, Apply, Since;
    if steps != [] {
      var before := Exec(s0, steps[..|steps| - 1]).value;
      SinceThroughout(s0, floor, steps[..|steps| - 1], before);
      SinceStep(before, floor, Last(steps));
    }
  }

  /** If the synchronizer is idle when the Forced update arrives, that attempt is one at an update
      issued since; with a single producer, the Forced update itself or a newer one. */
  lemma ForcedAttemptIsNew(n: nat, start: PushCycle.World, earlier: seq<Step>, idle: State, steps: seq<Step>, s: State)
    requires Exec(Init(n, start), earlier) == Some(idle) && idle.box.busy == 0
    requires Exec(Apply(idle, Invalidate), steps) == Some(s)
    ensures Done(idle)
    ensures s.attempt.Some? ==>
              && s.box.consumer.Attempting? && |idle.forests| < s.box.consumer.update <= |s.forests|
              && s.attempt.value.forest == s.forests[s.box.consumer.update - 1]
  {
    hide Exec, Mailbox.Reachable, PushCycle.Enabled, PushCycle.Apply;
    CoherentThroughout(n, start, earlier, idle);
    Mailbox.BusyConserved(n, idle.box);
    SinceQuiet(idle);
    SinceStep(idle, |idle.forests|, Invalidate);
    SinceThroughout(Apply(idle, Invalidate), |idle.forests|, steps, s);
    CoherentAfter(n, start, earlier, idle, steps, s);
  }

  // ---------- every fabric is pushed again ----------

  /** A netconfig of this fabric has been pushed since, or it has a host name and will not be built again. */
  ghost predicate PushedOrOutdated(s: State, f: string, nc: NetConfig, pushed: multiset<string>, strict: bool) {
    f in pushed || (!strict && HasHostName(s.world.ip, nc))
  }

  /** Whatever is in the cache that can be built again, and whatever has been dealt with by an attempt
      begun since, has been pushed since the invalidation. */
  ghost predicate PushedSince(s: State, strict: bool, begins: nat, pushed: multiset<string>) {
    && (forall f | PushCycle.CacheKey(f) in s.world.cache ::
          PushedOrOutdated(s, f, s.world.cache[PushCycle.CacheKey(f)], pushed, strict))
    && (s.attempt.Some? && s.attempt.value.phase.Accepted? ==>
          && PushedOrOutdated(s, s.attempt.value.phase.fabric, s.attempt.value.phase.nc, pushed, strict)
          && (begins > 0 ==> s.attempt.value.phase.fabric in pushed))
    && (begins > 0 && s.attempt.Some? ==> forall f | f in PushCycle.DealtWith(s.attempt.value) :: f in pushed)
    && (begins > 0 && s.attempt.None? ==>
          s.last.Returned? && (s.last.fatal || forall f | f in ForestOf(s, s.last.update) :: f in pushed))
  }

  lemma PushedSinceInner(s: State, strict: bool, begins: nat, pushed: multiset<string>, i: PushCycle.Step)
    requires PushedSince(s, strict, begins, pushed) && Enabled(s, Inner(i))
    requires strict || PushCycle.FreshlyBuilt(Cycle(s))
    ensures PushedSince(Apply(s, Inner(i)), strict, begins, pushed + StepPushes(s, Inner(i)))
  {
    hide NetConfigFrom, DrawnAs, ChassisFrom, KnownSwitches, Sorted, PushCycle.CacheKey, HasHostName;
    if i.Remember? {
      forall f | PushCycle.CacheKey(f) == PushCycle.CacheKey(s.attempt.value.phase.fabric)
        ensures f == s.attempt.value.phase.fabric
      {
        PushCycle.CacheKeyInjective(f, s.attempt.value.phase.fabric);
      }
    }
  }

  lemma PushedSinceStep(s: State, strict: bool, begins: nat, pushed: multiset<string>, step: Step)
    requires Coherent(s) && PushedSince(s, strict, begins, pushed) && Enabled(s, step)
    requires strict || PushCycle.FreshlyBuilt(Cycle(s))
    ensures PushedSince(Apply(s, step), strict, begins + (if step.Begin? then 1 else 0), pushed + StepPushes(s, step))
  {
    hide PushCycle.Enabled, PushCycle.Apply, PushCycle.CacheKey, Mailbox.Enabled, Mailbox.Apply, HasHostName,
         PushCycle.FreshlyBuilt;
    match step {
      case Inner(i) => PushedSinceInner(s, strict, begins, pushed, i);
      case Finish => ColdReturn(s.attempt.value);
      case _ =>
    }
  }

  /** A cache update is on its way. */
  predicate Remembering(s: State) {
    s.attempt.Some? && s.attempt.value.phase.Accepted?
  }

  /** A cache update is on its way, with a netconfig that can be built again. */
  ghost predicate RememberingRepeatable(s: State) {
    Remembering(s) && !HasHostName(s.world.ip, s.attempt.value.phase.nc)
  }

  lemma {:induction false} PushedThroughout(n: nat, start: PushCycle.World, earlier: seq<Step>, s0: State, strict: bool,
                                            steps: seq<Step>, s: State)
    requires Exec(Init(n, start), earlier) == Some(s0) && !RememberingRepeatable(s0)
    requires Exec(Apply(s0, Invalidate), steps) == Some(s)
    requires if strict then !Remembering(s0) else s.world.next <= TWO_32
    ensures PushedSince(s, strict, Begins(steps), Pushed(Apply(s0, Invalidate), steps))
    decreases |steps|
  {
    var s1 := Apply(s0, Invalidate);
    hide Enabled, Apply, PushedSince, Coherent, StepPushes, PushCycle.FreshlyBuilt, RememberingRepeatable;
    if steps == [] {
      assert PushedSince(s1, strict, 0, multiset{}) by { NothingCached(s0, strict); }
    } else {
      var front := steps[..|steps| - 1];
      var before := Exec(s1, front).value;
      HostNames.NextGrows(before, Last(steps));
      PushedThroughout(n, start, earlier, s0, strict, front, before);
      CoherentAfter(n, start, earlier, s0, front, before);
      if !strict { FreshAfter(n, start, earlier, s0, front, before); }
      PushedSinceStep(before, strict, Begins(front), Pushed(s1, front), Last(steps));
    }
  }

  lemma NothingCached(s0: State, strict: bool)
    requires !RememberingRepeatable(s0) && (strict ==> !Remembering(s0))
    ensures PushedSince(Apply(s0, Invalidate), strict, 0, multiset{})
  {
    hide HasHostName;
  }

  /** For any number of producers and attempts: unless a cache update was on its way, every fabric that
      an attempt begun since then is through with has been pushed to ONOS since then. A cache update of a
      netconfig with a host name does not matter until the counter wraps. */
  lemma EveryFabricPushedAgain(n: nat, start: PushCycle.World, earlier: seq<Step>, s0: State, steps: seq<Step>,
                               s: State, f: string)
    requires Exec(Init(n, start), earlier) == Some(s0)
    requires !Remembering(s0) || (!RememberingRepeatable(s0) && s.world.next <= TWO_32)
    requires Exec(Apply(s0, Invalidate), steps) == Some(s) && Begins(steps) > 0
    requires if s.attempt.Some? then f in PushCycle.DealtWith(s.attempt.value)
             else s.last.Returned? && !s.last.fatal && f in ForestOf(s, s.last.update)
    ensures f in Pushed(Apply(s0, Invalidate), steps)
  {
    hide Exec, Begins, Pushed, Apply, PushCycle.CacheKey, PushCycle.DealtWith, HasHostName;
    PushedThroughout(n, start, earlier, s0, !Remembering(s0), steps, s);
  }

  // ---------- otherwise ----------

  /** Some steps lead from `s0` to `s`, in which `begins` attempts begin and `pushed` are pushed. */
  ghost predicate ReachableFrom(s0: State, s: State, begins: nat, pushed: multiset<string>) {
    exists steps :: Exec(s0, steps) == Some(s) && Begins(steps) == begins && Pushed(s0, steps) == pushed
  }

  lemma Play(s0: State, s: State, begins: nat, pushed: multiset<string>, step: Step) returns (s': State)
    requires ReachableFrom(s0, s, begins, pushed) && Enabled(s, step)
    ensures s' == Apply(s, step)
    ensures ReachableFrom(s0, s', begins + (if step.Begin? then 1 else 0), pushed + StepPushes(s, step))
  {
    hide Enabled, Apply, StepPushes;
    var steps :| Exec(s0, steps) == Some(s) && Begins(steps) == begins && Pushed(s0, steps) == pushed;
    ExecStep(s0, steps, s, step);
    s' := Apply(s, step);
    assert (steps + [step])[..|steps|] == steps && Last(steps + [step]) == step;
    assert Begins(steps + [step]) == begins + (if step.Begin? then 1 else 0);
    assert Pushed(s0, steps + [step]) == pushed + StepPushes(s, step);
  }

  /** A step of the attempt under way. */
  lemma Within(s0: State, s: State, begins: nat, pushed: multiset<string>, i: PushCycle.Step) returns (s': State)
    requires ReachableFrom(s0, s, begins, pushed) && s.attempt.Some? && PushCycle.Enabled(Cycle(s), i)
    ensures var c := PushCycle.Apply(Cycle(s), i);
            s' == s.(world := c.world, attempt := Some(c.attempt))
    ensures ReachableFrom(s0, s', begins, pushed + PushCycle.PushedBy(Cycle(s), i))
  {
    hide ReachableFrom, PushCycle.Enabled, PushCycle.Apply, PushCycle.PushedBy;
    s' := Play(s0, s, begins, pushed, Inner(i));
  }

  /** An attempt whose remaining fabrics are not in the cache and have switches under their own IDs. */
  ghost predicate Willing(s: State) {
    && s.world.caching && s.box.consumer.Attempting? && s.attempt.Some?
    && var a := s.attempt.value;
       && a.todo <= a.forest.Keys && (forall f | f in a.forest :: SwitchesKeyed(a.forest[f]))
       && (forall f | f in a.todo && !Through(a.phase, f) :: PushCycle.CacheKey(f) !in s.world.cache)
       && (!a.phase.Between? ==> a.phase.fabric in a.todo)
       && (AtHand(a.phase) ==> Given(s.world, a.forest[a.phase.fabric], a.phase.nc))
  }

  predicate Through(p: PushCycle.Phase, f: string) {
    (p.OnosDone? || p.Stratum?) && p.fabric == f
  }

  /** Some build gives this netconfig. */
  ghost predicate Given(w: PushCycle.World, fabric: Fabric, nc: NetConfig) {
    exists done, sids :: NetConfigFrom(w.ip, fabric, done, sids, nc)
  }

  /** The attempt has put a netconfig of fabric `g` in the cache that can be built again. */
  ghost predicate Remembered(s: State, forest: PushCycle.Forest, g: string, nc: NetConfig) {
    && s.world.caching && s.box.consumer.Attempting?
    && PushCycle.CacheKey(g) in s.world.cache && s.world.cache[PushCycle.CacheKey(g)] == nc
    && g in forest && SwitchesKeyed(forest[g]) && Given(s.world, forest[g], nc) && !HasHostName(s.world.ip, nc)
    && s.attempt.Some? && s.attempt.value.forest == forest
  }

  ghost predicate SameButAttempt(s: State, s': State) {
    s' == s.(world := s'.world, attempt := s'.attempt) && s'.world.next == s.world.next && s'.world.ip == s.world.ip
  }

  /** A netconfig at hand is pushed, if it has not been, and put in the cache. */
  lemma RememberNext(s0: State, s: State, begins: nat, pushed: multiset<string>)
      returns (s': State, pushed': multiset<string>, g: string, nc: NetConfig)
    requires ReachableFrom(s0, s, begins, pushed) && Willing(s) && AtHand(s.attempt.value.phase)
    ensures g == s.attempt.value.phase.fabric && nc == s.attempt.value.phase.nc
    ensures ReachableFrom(s0, s', begins, pushed') && SameButAttempt(s, s') && Willing(s')
    ensures s'.attempt == Some(s.attempt.value.(phase := PushCycle.OnosDone(g)))
    ensures PushCycle.CacheKey(g) in s'.world.cache && s'.world.cache[PushCycle.CacheKey(g)] == nc
    ensures s.attempt.value.phase.Accepted? ==> pushed' == pushed
  {
    hide ReachableFrom, PushCycle.CacheKey, NetConfigFrom, DrawnAs, ChassisFrom, KnownSwitches, Sorted, SwitchesKeyed;
    var a := s.attempt.value;
    g, nc, pushed', s' := a.phase.fabric, a.phase.nc, pushed, s;
    if s'.attempt.value.phase.Built? {
      s' := Within(s0, s', begins, pushed', PushCycle.Miss);
      pushed' := pushed' + multiset{};
    }
    if s'.attempt.value.phase.Missed? {
      s' := Within(s0, s', begins, pushed', PushCycle.Push(Applied));
      pushed' := pushed' + multiset{g};
    }
    s' := Within(s0, s', begins, pushed', PushCycle.Remember);
    pushed' := pushed' + multiset{};
    WillingStill(s, s', g);
  }

  lemma WillingStill(s: State, s': State, g: string)
    requires Willing(s) && AtHand(s.attempt.value.phase) && g == s.attempt.value.phase.fabric
    requires SameButAttempt(s, s') && s'.world.caching
    requires s'.world.cache.Keys == s.world.cache.Keys + {PushCycle.CacheKey(g)}
    requires s'.attempt == Some(s.attempt.value.(phase := PushCycle.OnosDone(g)))
    ensures Willing(s')
  {
    hide PushCycle.CacheKey, NetConfigFrom, DrawnAs, SwitchesKeyed;
    forall f | f in s.attempt.value.todo && f != g
      ensures PushCycle.CacheKey(f) !in s'.world.cache
    {
      if PushCycle.CacheKey(f) == PushCycle.CacheKey(g) { PushCycle.CacheKeyInjective(f, g); }
    }
  }

  /** An attempt that is through with ONOS for a fabric can always be through with the fabric. */
  lemma LeaveFabric(s0: State, s: State, begins: nat, pushed: multiset<string>) returns (s': State)
    requires ReachableFrom(s0, s, begins, pushed) && s.attempt.Some?
    requires s.attempt.value.phase.OnosDone? || s.attempt.value.phase.Stratum?
    requires s.attempt.value.phase.fabric in s.attempt.value.forest
    requires s.attempt.value.phase.Stratum? ==>
               var a := s.attempt.value;
               forall k | k in a.phase.rest :: k in KnownSwitches(a.forest[a.phase.fabric])
    ensures ReachableFrom(s0, s', begins, pushed)
    ensures var a := s.attempt.value;
            && s' == s.(attempt := s'.attempt) && s'.attempt.Some?
            && s'.attempt.value.phase.Between? && s'.attempt.value.forest == a.forest
            && s'.attempt.value.todo == a.todo - {a.phase.fabric}
  {
    hide ReachableFrom, PushCycle.CacheKey, NetConfigFrom, DrawnAs, ChassisFrom, KnownSwitches, Sorted;
    var f := s.attempt.value.phase.fabric;
    var fabric := s.attempt.value.forest[f];
    s' := s;
    assert pushed + multiset{} == pushed;
    if s'.attempt.value.phase.OnosDone? {
      var order := SomeSorted(KnownSwitches(fabric));
      s' := Within(s0, s', begins, pushed, PushCycle.ListSwitches(order));
    }
    var rest := s'.attempt.value.phase.rest;
    if rest == [] {
      s' := Within(s0, s', begins, pushed, PushCycle.EndFabric);
    } else {
      assert rest[0] in rest;
      var cc := SomeChassis(fabric, rest[0]);
      s' := Within(s0, s', begins, pushed, PushCycle.PushChassis(cc, Refused));
    }
  }

  lemma LeftWilling(s: State, s': State)
    requires Willing(s) && (s.attempt.value.phase.OnosDone? || s.attempt.value.phase.Stratum?)
    requires s' == s.(attempt := s'.attempt) && s'.attempt.Some? && s'.attempt.value.phase.Between?
    requires s'.attempt.value.forest == s.attempt.value.forest
    requires s'.attempt.value.todo == s.attempt.value.todo - {s.attempt.value.phase.fabric}
    ensures Willing(s')
  {
    hide PushCycle.CacheKey, NetConfigFrom, DrawnAs, SwitchesKeyed;
  }

  lemma BuildNext(s0: State, s: State, begins: nat, pushed: multiset<string>) returns (s': State)
    requires ReachableFrom(s0, s, begins, pushed) && Willing(s)
    requires s.attempt.value.phase.Between? && s.attempt.value.todo != {}
    ensures ReachableFrom(s0, s', begins, pushed) && SameButAttempt(s, s')
    ensures Willing(s') && s'.attempt.value.phase.Built? && s'.attempt.value.forest == s.attempt.value.forest
    ensures s'.attempt.value.todo == s.attempt.value.todo && !HasHostName(s'.world.ip, s'.attempt.value.phase.nc)
  {
    hide ReachableFrom, PushCycle.CacheKey, NetConfigFrom, DrawnAs, SwitchesKeyed, HasHostName;
    var a := s.attempt.value;
    var f :| f in a.todo;
    var nc := SomeBuild(s.world.ip, a.forest[f], s.world.next);
    assert pushed + multiset{} == pushed;
    s' := Within(s0, s, begins, pushed, PushCycle.Build(f, {}, nc, map[], s.world.next));
    assert Given(s'.world, a.forest[f], nc);
  }

  /** What is known of the switches still to be pushed. */
  ghost predicate RestKnown(c: PushCycle.Cycle) {
    c.attempt.phase.Stratum? && c.attempt.phase.fabric in c.attempt.forest ==>
      forall k | k in c.attempt.phase.rest :: k in KnownSwitches(c.attempt.forest[c.attempt.phase.fabric])
  }

  lemma RestKnownStep(c: PushCycle.Cycle, i: PushCycle.Step)
    requires RestKnown(c) && PushCycle.Enabled(c, i)
    ensures RestKnown(PushCycle.Apply(c, i))
  {
    hide NetConfigFrom, DrawnAs, ChassisFrom, KnownSwitches, Sorted, PushCycle.CacheKey;
  }

  lemma {:induction false} RestKnownThroughout(n: nat, start: PushCycle.World, steps: seq<Step>, s: State)
    requires Exec(Init(n, start), steps) == Some(s)
    ensures RestKnown(Cycle(s))
    decreases |steps|
  {
    hide PushCycle.Enabled, PushCycle.Apply, Mailbox.Enabled, Mailbox.Apply, KnownSwitches;
    if steps != [] {
      var before := Exec(Init(n, start), steps[..|steps| - 1]).value;
      RestKnownThroughout(n, start, steps[..|steps| - 1], before);
      if Last(steps).Inner? { RestKnownStep(Cycle(before), Last(steps).inner); }
    }
  }

  /** The attempt goes on until it has put a netconfig in the cache that can be built again, and leaves
      that fabric. */
  lemma RememberOne(s0: State, s: State, begins: nat)
      returns (s': State, pushed: multiset<string>, g: string, nc: NetConfig)
    requires ReachableFrom(s0, s, begins, multiset{}) && Willing(s) && !Spent(s) && RestKnown(Cycle(s))
    ensures ReachableFrom(s0, s', begins, pushed) && SameButAttempt(s, s')
    ensures Remembered(s', s.attempt.value.forest, g, nc) && s'.attempt.value.phase.Between?
    ensures RememberingRepeatable(s) ==> pushed == multiset{}
  {
    hide ReachableFrom, PushCycle.CacheKey, NetConfigFrom, DrawnAs, KnownSwitches, HasHostName, SwitchesKeyed;
    var forest := s.attempt.value.forest;
    s', pushed := s, multiset{};
    if AtHand(s'.attempt.value.phase) && HasHostName(s'.world.ip, s'.attempt.value.phase.nc) {
      s', pushed, g, nc := RememberNext(s0, s', begins, pushed);
    }
    if s'.attempt.value.phase.OnosDone? || s'.attempt.value.phase.Stratum? {
      var left := LeaveFabric(s0, s', begins, pushed);
      LeftWilling(s', left);
      s' := left;
    }
    if s'.attempt.value.phase.Between? {
      s' := BuildNext(s0, s', begins, pushed);
    }
    s', pushed, g, nc := RememberNext(s0, s', begins, pushed);
    s' := LeaveFabric(s0, s', begins, pushed);
  }

  /** A producer enqueues a configuration, while the consumer stays where it is. */
  lemma EnqueueNow(s0: State, s: State, forest: PushCycle.Forest) returns (s': State)
    requires ReachableFrom(s0, s, 0, multiset{}) && s.box.producers == [Mailbox.Idle] && |s.box.queue| <= 1
    requires s.box.ledger.issued == |s.forests|
    ensures ReachableFrom(s0, s', 0, multiset{})
    ensures s' == s.(box := s'.box, forests := s.forests + [forest])
    ensures s'.box == s.box.(busy := s.box.busy + 1 - |s.box.queue|, queue := [|s.forests| + 1],
                             ledger := s'.box.ledger)
  {
    hide ReachableFrom, PushCycle.Enabled, PushCycle.Apply;
    var none: multiset<string> := multiset{};
    assert none + none == none;
    s' := Play(s0, s, 0, multiset{}, Enqueue(0, forest));
    if s.box.queue != [] {
      s' := Play(s0, s', 0, multiset{}, Box(Mailbox.DrainReceive(0)));
      s' := Play(s0, s', 0, multiset{}, Box(Mailbox.DrainDecrement(0)));
    }
    s' := Play(s0, s', 0, multiset{}, Box(Mailbox.DrainEmpty(0)));
    s' := Play(s0, s', 0, multiset{}, Box(Mailbox.Send(0)));
  }

  /** The attempt returns, and its update is finished or given up, because another one is queued. */
  lemma ReturnNow(s0: State, s: State, pushed: multiset<string>) returns (s': State)
    requires ReachableFrom(s0, s, 0, pushed) && s.box.consumer.Attempting? && s.box.queue != []
    requires s.attempt.Some? && s.attempt.value.phase.Between?
    ensures ReachableFrom(s0, s', 0, pushed)
    ensures s' == s.(box := s'.box, last := s'.last, attempt := None)
    ensures s'.box == s.box.(consumer := s'.box.consumer, ledger := s'.box.ledger) && s'.box.consumer.Finishing?
    ensures s'.box.ledger.issued == s.box.ledger.issued
  {
    hide ReachableFrom, PushCycle.Enabled, PushCycle.Apply;
    assert pushed + multiset{} == pushed;
    s' := Play(s0, s, 0, pushed, if s.attempt.value.todo == {} then Finish else LookupFailed);
    if s'.box.consumer.Sleeping? {
      s' := Play(s0, s', 0, pushed, Box(Mailbox.Wake));
      s' := Play(s0, s', 0, pushed, Box(Mailbox.CheckPending));
    }
  }

  /** The update that is queued is attempted next. */
  lemma ServeNext(s0: State, s: State, pushed: multiset<string>, u: Ticket) returns (s': State)
    requires ReachableFrom(s0, s, 0, pushed) && s.box.consumer.Finishing? && s.box.queue == [u]
    ensures ReachableFrom(s0, s', 1, pushed)
    ensures s' == s.(box := s'.box, last := s'.last, attempt := Some(PushCycle.Fresh(ForestOf(s, u))))
    ensures s'.box.consumer == Mailbox.Attempting(u) && s'.box.busy == s.box.busy - 1
  {
    hide ReachableFrom, PushCycle.Enabled, PushCycle.Apply;
    assert pushed + multiset{} == pushed;
    s' := Play(s0, s, 0, pushed, Box(Mailbox.Complete));
    s' := Play(s0, s', 0, pushed, Box(Mailbox.Dequeue));
    s' := Play(s0, s', 0, pushed, Box(Mailbox.CheckPending));
    s' := Play(s0, s', 0, pushed, Begin);
  }

  /** From any state in which an attempt has something left to put in the cache that can be built again:
      the Forced update arrives, the attempt under way fills the cache again, and the first attempt of the
      Forced update is satisfied with it. If such a cache update was on its way, the fabric is not pushed
      at all. Nothing is drawn from the counter. */
  lemma ForcedSatisfiedByCache(start: PushCycle.World, earlier: seq<Step>, s: State)
      returns (t: State, g: string, pushed: multiset<string>)
    requires Exec(Init(1, start), earlier) == Some(s) && start.caching
    requires s.box.producers == [Mailbox.Idle] && !Spent(s)
    requires forall f | f in s.attempt.value.forest :: SwitchesKeyed(s.attempt.value.forest[f])
    ensures ReachableFrom(Apply(s, Invalidate), t, 1, pushed) && t.world.next == s.world.next
    ensures t.box.consumer == Mailbox.Attempting(|s.forests| + 1) && t.forests == s.forests + [s.attempt.value.forest]
    ensures t.attempt.Some? && t.attempt.value.phase.Built? && t.attempt.value.phase.fabric == g
    ensures Enabled(t, Inner(PushCycle.Hit))
    ensures RememberingRepeatable(s) ==> pushed == multiset{}
  {
    hide ReachableFrom, Exec, PushCycle.CacheKey, NetConfigFrom, DrawnAs, Willing, Remembered, RestKnown, HasHostName,
         SwitchesKeyed;
    var s0 := Apply(s, Invalidate);
    var forest := s.attempt.value.forest;
    AtInvalidation(start, earlier, s);
    t := EnqueueNow(s0, s0, forest);
    assert Willing(t) && RestKnown(Cycle(t)) by { StillWilling(s0, t); }
    var nc;
    t, pushed, g, nc := RememberOne(s0, t, 0);
    var u := |s.forests| + 1;
    assert ForestOf(t, u) == forest;
    assert t.attempt.Some? && t.box.consumer.Attempting? by { RememberedMeans(t, forest, g, nc); }
    var t' := ReturnNow(s0, t, pushed);
    t' := ServeNext(s0, t', pushed, u);
    t := HitNow(s0, t, t', pushed, forest, g, nc);
  }

  lemma AtInvalidation(start: PushCycle.World, earlier: seq<Step>, s: State)
    requires Exec(Init(1, start), earlier) == Some(s) && start.caching && !Spent(s)
    requires s.box.producers == [Mailbox.Idle]
    requires forall f | f in s.attempt.value.forest :: SwitchesKeyed(s.attempt.value.forest[f])
    ensures var s0 := Apply(s, Invalidate);
            && ReachableFrom(s0, s0, 0, multiset{}) && Willing(s0) && RestKnown(Cycle(s0))
            && |s0.box.queue| <= 1 && s0.box.ledger.issued == |s0.forests|
  {
    var s0, t := Apply(s, Invalidate), TrailOf(Init(1, start), earlier);
    assert ReachableFrom(s0, s0, 0, multiset{}) by { ReachableStart(s0); }
    hide ReachableFrom, Exec, TrailOf, Traced, Coherent, Willing, RestKnown, Mailbox.Reachable, SwitchesKeyed, Spent;
    CoherentThroughout(1, start, earlier, s);
    Mailbox.QueueBounded(1, s.box);
    TracedThroughout(1, start, earlier, s);
    OptionsFixed(1, start, earlier, s);
    RestKnownThroughout(1, start, earlier, s);
    WillingNow(s, t);
  }

  lemma WillingNow(s: State, t: PushCycle.Trail)
    requires Coherent(s) && Traced(s, t) && s.world.caching && !Spent(s) && RestKnown(Cycle(s))
    requires forall f | f in s.attempt.value.forest :: SwitchesKeyed(s.attempt.value.forest[f])
    ensures var s0 := Apply(s, Invalidate);
            Willing(s0) && RestKnown(Cycle(s0)) && s0.box.ledger.issued == |s0.forests|
  {
    hide PushCycle.CacheKey, NetConfigFrom, DrawnAs, PushCycle.CacheAgrees, PushCycle.DoubtsFounded,
         PushCycle.DoubtsHeld, PushCycle.OnosFollows, PushCycle.FabricSettled, KnownSwitches, PushCycle.ChassisGood,
         SwitchesKeyed, HasHostName;
    var a := s.attempt.value;
    if AtHand(a.phase) {
      var b := t.built[a.phase.fabric];
      assert NetConfigFrom(Apply(s, Invalidate).world.ip, a.forest[a.phase.fabric], b.done, b.sids, a.phase.nc);
    }
  }

  lemma ReachableStart(s0: State)
    ensures ReachableFrom(s0, s0, 0, multiset{})
  {
    assert Exec(s0, []) == Some(s0) && Begins([]) == 0 && Pushed(s0, []) == multiset{};
  }

  lemma StillWilling(s: State, t: State)
    requires Willing(s) && RestKnown(Cycle(s)) && t == s.(box := t.box, forests := t.forests)
    requires t.box.consumer == s.box.consumer
    ensures Willing(t) && RestKnown(Cycle(t))
  {
  }

  lemma RememberedMeans(t: State, forest: PushCycle.Forest, g: string, nc: NetConfig)
    requires Remembered(t, forest, g, nc)
    ensures t.attempt.Some? && t.box.consumer.Attempting?
  {
  }

  lemma HitNow(s0: State, s: State, t: State, pushed: multiset<string>, forest: PushCycle.Forest, g: string,
               nc: NetConfig) returns (t': State)
    requires ReachableFrom(s0, t, 1, pushed) && Remembered(s, forest, g, nc) && t.world == s.world
    requires t.attempt == Some(PushCycle.Fresh(forest))
    ensures ReachableFrom(s0, t', 1, pushed) && SameButAttempt(t, t') && Enabled(t', Inner(PushCycle.Hit))
    ensures t'.attempt.Some? && t'.attempt.value.phase.Built? && t'.attempt.value.phase.fabric == g
  {
    hide ReachableFrom, PushCycle.CacheKey, NetConfigFrom, DrawnAs, SwitchesKeyed, HasHostName;
    var done, sids :| NetConfigFrom(s.world.ip, forest[g], done, sids, nc);
    Rebuilt(s.world.ip, forest[g], done, sids, nc, s.world.next);
    assert pushed + multiset{} == pushed;
    t' := Within(s0, t, 1, pushed, PushCycle.Build(g, done, nc, sids, s.world.next));
  }

  ghost predicate AttemptKeyed(s: State) {
    s.attempt.Some? ==> forall f | f in s.attempt.value.forest :: SwitchesKeyed(s.attempt.value.forest[f])
  }

  /** So that is the exact condition. With partial updates enabled, one producer, and switches under their
      own IDs, the first attempt that begins after an invalidation never hits the cache until the counter
      of synthetic addresses wraps, if and only if no attempt was under way that still had a fabric to
      build, or a netconfig without host names to push or to remember. */
  lemma ForcedExactly(start: PushCycle.World, earlier: seq<Step>, s: State)
    requires Exec(Init(1, start), earlier) == Some(s) && start.caching && s.box.producers == [Mailbox.Idle]
    requires AttemptKeyed(s) && s.world.next <= TWO_32
    ensures (forall t, pushed | ReachableFrom(Apply(s, Invalidate), t, 1, pushed) && t.world.next <= TWO_32 ::
               !Enabled(t, Inner(PushCycle.Hit)))
            <==> Spent(s)
  {
    var s0 := Apply(s, Invalidate);
    hide Exec, Enabled, Apply, Begins, Pushed, HasHostName, SwitchesKeyed;
    if Spent(s) {
      forall t, pushed | ReachableFrom(s0, t, 1, pushed) && t.world.next <= TWO_32
        ensures !Enabled(t, Inner(PushCycle.Hit))
      {
        NeverHits(start, earlier, s, t, pushed);
      }
    } else {
      var t, g, pushed := ForcedSatisfiedByCache(start, earlier, s);
    }
  }

  lemma NeverHits(start: PushCycle.World, earlier: seq<Step>, s: State, t: State, pushed: multiset<string>)
    requires Exec(Init(1, start), earlier) == Some(s) && Spent(s) && ReachableFrom(Apply(s, Invalidate), t, 1, pushed)
    requires t.world.next <= TWO_32
    ensures !Enabled(t, Inner(PushCycle.Hit))
  {
    var steps :| Exec(Apply(s, Invalidate), steps) == Some(t) && Begins(steps) == 1
                 && Pushed(Apply(s, Invalidate), steps) == pushed;
    hide Exec, PushCycle.Enabled, PushCycle.Apply, Coherent, StepPushes, ColdSoFar, Spent, PushCycle.FreshlyBuilt;
    ColdThroughout(1, start, earlier, s, false, steps, t);
    CoherentAfter(1, start, earlier, s, steps, t);
    FreshAfter(1, start, earlier, s, steps, t);
    if Enabled(t, Inner(PushCycle.Hit)) {
      ColdStep(t, false, 1, pushed, Inner(PushCycle.Hit));
    }
  }

  /** And every fabric that the first attempt begun after an invalidation is through with has been pushed
      since, if and only if no cache update of a netconfig without host names was on its way. */
  lemma PushedAgainExactly(start: PushCycle.World, earlier: seq<Step>, s: State)
    requires Exec(Init(1, start), earlier) == Some(s) && start.caching && s.box.producers == [Mailbox.Idle]
    requires AttemptKeyed(s) && s.world.next <= TWO_32
    ensures (forall t, pushed, f | ReachableFrom(Apply(s, Invalidate), t, 1, pushed) && t.world.next <= TWO_32
                                   && t.attempt.Some? && f in PushCycle.DealtWith(t.attempt.value) :: f in pushed)
            <==> !RememberingRepeatable(s)
  {
    hide Exec, Begins, Pushed, PushCycle.Enabled, PushCycle.Apply, HasHostName, SwitchesKeyed;
    if RememberingRepeatable(s) {
      var t, g, pushed := ForcedSatisfiedByCache(start, earlier, s);
      var t' := HitOnce(Apply(s, Invalidate), t, g);
      assert g in PushCycle.DealtWith(t'.attempt.value) && g !in pushed;
    } else {
      forall t, pushed, f | ReachableFrom(Apply(s, Invalidate), t, 1, pushed) && t.world.next <= TWO_32
                            && t.attempt.Some? && f in PushCycle.DealtWith(t.attempt.value)
        ensures f in pushed
      {
        var steps :| Exec(Apply(s, Invalidate), steps) == Some(t) && Begins(steps) == 1
                     && Pushed(Apply(s, Invalidate), steps) == pushed;
        EveryFabricPushedAgain(1, start, earlier, s, steps, t, f);
      }
    }
  }

  lemma HitOnce(s0: State, t: State, g: string) returns (t': State)
    requires ReachableFrom(s0, t, 1, multiset{}) && Enabled(t, Inner(PushCycle.Hit))
             && t.attempt.value.phase.fabric == g
    ensures ReachableFrom(s0, t', 1, multiset{}) && t'.attempt.Some? && g in PushCycle.DealtWith(t'.attempt.value)
    ensures t'.world.next == t.world.next
  {
    hide ReachableFrom, PushCycle.CacheKey, NetConfigFrom, DrawnAs, ChassisFrom;
    var none: multiset<string> := multiset{};
    assert none + none == none;
    t' := Within(s0, t, 1, multiset{}, PushCycle.Hit);
  }
}
