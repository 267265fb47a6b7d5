/** One synchronization attempt: for each fabric, in any order, build the netconfig, consult the
    push cache, push, remember what was pushed, and then push the chassis configurations. The
    controllers are represented by the content they accepted last. */
module PushCycle {
  import opened Basics
  import opened Text
  import opened Net
  import opened Fabrics
  import opened Builds

  type Forest = map<string, Fabric>

  /** What outlives an attempt. `ip` is the address parser; `onos` and `chassis` are the contents the
      controllers hold, by fabric and by fabric and switch; `next` is the reading of the counter of
      synthetic addresses. */
  datatype World = World(ip: string -> Option<Ip>, caching: bool, cache: map<string, NetConfig>,
                         onos: map<string, NetConfig>, chassis: map<(string, string), Chassis>, next: nat)

  /** Where an attempt is within the fabric at hand. In `Accepted` ONOS has the new netconfig and
      the cache does not know it yet. */
  datatype Phase =
    | Between
    | Built(fabric: string, nc: NetConfig)
    | Missed(fabric: string, nc: NetConfig)
    | Accepted(fabric: string, nc: NetConfig)
    | OnosDone(fabric: string)
    | Stratum(fabric: string, rest: seq<string>)

  datatype Attempt = Attempt(forest: Forest, todo: set<string>, failures: nat, phase: Phase)

  datatype Cycle = Cycle(world: World, attempt: Attempt)

  /** A build covers the switches in `done`, uses the SIDs it was told, whatever they are, and draws
      synthetic addresses up to the reading `next`. */
  datatype Step =
    | Build(fabric: string, done: set<string>, nc: NetConfig, sids: map<string, uint32>, next: nat)
    | Hit
    | Miss
    | Push(effect: Effect)
    | Remember
    | ListSwitches(order: seq<string>)
    | PushChassis(cc: Chassis, effect: Effect)
    | EndFabric

  const IDLE := Attempt(map[], {}, 0, Between)

  function Fresh(forest: Forest): Attempt {
    Attempt(forest, forest.Keys, 0, Between)
  }

  function CacheKey(fabric: string): string {
    "netconfig-" + fabric
  }

  lemma CacheKeyInjective(f: string, g: string)
    requires CacheKey(f) == CacheKey(g)
    ensures f == g
  {
    assert f == CacheKey(f)[10..] == CacheKey(g)[10..] == g;
  }

  /** CacheCheck, as far as partial updates are enabled. */
  predicate Unchanged(w: World, fabric: string, nc: NetConfig) {
    w.caching && CacheKey(fabric) in w.cache && w.cache[CacheKey(fabric)] == nc
  }

  ghost predicate Enabled(c: Cycle, step: Step) {
    var w, a := c.world, c.attempt;
    match step
    case Build(f, done, nc, sids, next) =>
      a.phase.Between? && f in a.todo && f in a.forest
      && BuiltBetween(w.ip, a.forest[f], done, sids, nc, w.next, next)
    case Hit => a.phase.Built? && Unchanged(w, a.phase.fabric, a.phase.nc)
    case Miss => a.phase.Built? && !Unchanged(w, a.phase.fabric, a.phase.nc)
    case Push(_) => a.phase.Missed?
    case Remember => a.phase.Accepted?
    case ListSwitches(order) =>
      a.phase.OnosDone? && a.phase.fabric in a.forest && Sorted(order)
      && forall k :: k in order <==> k in KnownSwitches(a.forest[a.phase.fabric])
    case PushChassis(cc, _) =>
      a.phase.Stratum? && a.phase.rest != [] && a.phase.fabric in a.forest
      && ChassisFrom(a.forest[a.phase.fabric], a.phase.rest[0], cc)
    case EndFabric => a.phase.Stratum? && a.phase.rest == []
  }

  ghost function Apply(c: Cycle, step: Step): Cycle
    requires Enabled(c, step)
  {
    var w, a := c.world, c.attempt;
    match step
    case Build(f, _, nc, _, next) => Cycle(w.(next := next), a.(phase := Built(f, nc)))
    case Hit => c.(attempt := a.(phase := OnosDone(a.phase.fabric)))
    case Miss => c.(attempt := a.(phase := Missed(a.phase.fabric, a.phase.nc)))
    case Push(effect) =>
      var f := a.phase.fabric;
      var w' := if effect.Happened() then w.(onos := w.onos[f := a.phase.nc]) else w;
      Cycle(w', if effect.Reported() then a.(phase := Accepted(f, a.phase.nc))
                else a.(failures := a.failures + 1, phase := OnosDone(f)))
    case Remember =>
      var f := a.phase.fabric;
      Cycle(w.(cache := w.cache[CacheKey(f) := a.phase.nc]), a.(phase := OnosDone(f)))
    case ListSwitches(order) => c.(attempt := a.(phase := Stratum(a.phase.fabric, order)))
    case PushChassis(cc, effect) =>
      var f, k := a.phase.fabric, a.phase.rest[0];
      var w' := if effect.Happened() then w.(chassis := w.chassis[(f, k) := cc]) else w;
      Cycle(w', if effect.Reported() then a.(phase := Stratum(f, a.phase.rest[1..]))
                else a.(todo := a.todo - {f}, failures := a.failures + 1, phase := Between))
    case EndFabric => c.(attempt := a.(todo := a.todo - {a.phase.fabric}, phase := Between))
  }

  ghost function Exec(c: Cycle, steps: seq<Step>): Option<Cycle> {
    if steps == [] then Some(c)
    else
      var before := Exec(c, steps[..|steps| - 1]);
      if before.Some? && Enabled(before.value, Last(steps)) then Some(Apply(before.value, Last(steps)))
      else None
  }

  // ---------- requests ----------

  /** What is sent to the controllers, and how it ends. */
  datatype Request =
    | NetConfigPost(fabric: string, nc: NetConfig, effect: Effect)
    | ChassisSet(fabric: string, switch_: string, cc: Chassis, effect: Effect)

  function RequestOf(c: Cycle, step: Step): seq<Request> {
    var p := c.attempt.phase;
    match step
    case Push(effect) => if p.Missed? then [NetConfigPost(p.fabric, p.nc, effect)] else []
    case PushChassis(cc, effect) =>
      if p.Stratum? && p.rest != [] then [ChassisSet(p.fabric, p.rest[0], cc, effect)] else []
    case _ => []
  }

  ghost function RequestsOf(c0: Cycle, steps: seq<Step>): seq<Request> {
    if steps == [] then []
    else
      var before := Exec(c0, steps[..|steps| - 1]);
      RequestsOf(c0, steps[..|steps| - 1]) + if before.Some? then RequestOf(before.value, Last(steps)) else []
  }

  /** These steps lead from `c0` to `c`, and on the way these requests are made. */
  ghost predicate Ran(c0: Cycle, steps: seq<Step>, requests: seq<Request>, c: Cycle) {
    Exec(c0, steps) == Some(c) && RequestsOf(c0, steps) == requests
  }

  lemma RanNothing(c: Cycle)
    ensures Ran(c, [], [], c)
  {
  }

  lemma RanStep(c0: Cycle, steps: seq<Step>, requests: seq<Request>, c: Cycle, step: Step)
    requires Ran(c0, steps, requests, c) && Enabled(c, step)
    ensures Ran(c0, steps + [step], requests + RequestOf(c, step), Apply(c, step))
  {
    hide Enabled, Apply, RequestOf;
    assert (steps + [step])[..|steps|] == steps;
  }

  lemma {:induction false} RanConcat(c0: Cycle, a: seq<Step>, r: seq<Request>, c1: Cycle, b: seq<Step>,
                                     r': seq<Request>, c2: Cycle)
    requires Ran(c0, a, r, c1) && Ran(c1, b, r', c2)
    ensures Ran(c0, a + b, r + r', c2)
    decreases |b|
  {
    hide Ran, Enabled, Apply;
    if b == [] {
      assert a + b == a && r + r' == r && c2 == c1 by { RanOnce(c1, r', c2); }
    } else {
      var d, front := RanLast(c1, b, r', c2);
      RanConcat(c0, a, r, c1, b[..|b| - 1], front, d);
      RanStep(c0, a + b[..|b| - 1], r + front, d, Last(b));
      assert a + b == a + b[..|b| - 1] + [Last(b)] && r + r' == r + front + RequestOf(d, Last(b));
    }
  }

  lemma RanOnce(c0: Cycle, requests: seq<Request>, c: Cycle)
    requires Ran(c0, [], requests, c)
    ensures requests == [] && c == c0
  {
  }

  lemma RanIsExec(c0: Cycle, steps: seq<Step>, requests: seq<Request>, c: Cycle)
    requires Ran(c0, steps, requests, c)
    ensures Exec(c0, steps) == Some(c)
  {
  }

  lemma RanLast(c0: Cycle, steps: seq<Step>, requests: seq<Request>, c: Cycle) returns (d: Cycle, front: seq<Request>)
    requires steps != [] && Ran(c0, steps, requests, c)
    ensures Ran(c0, steps[..|steps| - 1], front, d) && Enabled(d, Last(steps)) && c == Apply(d, Last(steps))
    ensures requests == front + RequestOf(d, Last(steps))
  {
    hide Enabled, Apply, RequestOf;
    d, front := Exec(c0, steps[..|steps| - 1]).value, RequestsOf(c0, steps[..|steps| - 1]);
  }

  /** How many of these requests were not reported to have succeeded. */
  function Unreported(requests: seq<Request>): nat {
    if requests == [] then 0
    else Unreported(requests[..|requests| - 1]) + if Last(requests).effect.Reported() then 0 else 1
  }

  lemma {:induction false} UnreportedConcat(a: seq<Request>, b: seq<Request>)
    ensures Unreported(a + b) == Unreported(a) + Unreported(b)
  {
    if b == [] {
      assert a + b == a;
    } else {
      assert (a + b)[..|a + b| - 1] == a + b[..|b| - 1];
      UnreportedConcat(a, b[..|b| - 1]);
    }
  }

  /** The failures an attempt counts are the requests it makes that are not reported to have succeeded. */
  lemma {:induction false} FailuresCounted(c0: Cycle, steps: seq<Step>, requests: seq<Request>, c: Cycle)
    requires Ran(c0, steps, requests, c)
    ensures c.attempt.failures == c0.attempt.failures + Unreported(requests)
    decreases |steps|
  {
    hide Enabled, Apply, RequestOf;
    if steps != [] {
      var before, front := RanLast(c0, steps, requests, c);
      FailuresCounted(c0, steps[..|steps| - 1], front, before);
      FailuresStep(before, Last(steps));
      UnreportedConcat(front, RequestOf(before, Last(steps)));
    }
  }

  lemma FailuresStep(c: Cycle, step: Step)
    requires Enabled(c, step)
    ensures Apply(c, step).attempt.failures == c.attempt.failures + Unreported(RequestOf(c, step))
  {
    hide BuiltBetween, ChassisFrom, KnownSwitches, Sorted, CacheKey;
  }

  predicate BuildsNothing(steps: seq<Step>) {
    forall i | 0 <= i < |steps| :: !steps[i].Build?
  }

  // ---------- pushing a netconfig ----------

  /** What follows a build, with the build before it. */
  lemma BuiltThen(w: World, a: Attempt, f: string, done: set<string>, nc: NetConfig, sids: map<string, uint32>,
                  next: nat, more: seq<Step>, requests: seq<Request>, c: Cycle) returns (steps: seq<Step>)
    requires a.phase.Between? && f in a.todo && f in a.forest
    requires BuiltBetween(w.ip, a.forest[f], done, sids, nc, w.next, next)
    requires Ran(Cycle(w.(next := next), a.(phase := Built(f, nc))), more, requests, c) && BuildsNothing(more)
    ensures Ran(Cycle(w, a), steps, requests, c)
    ensures steps != [] && steps[0] == Build(f, done, nc, sids, next) && BuildsNothing(steps[1..])
  {
    hide Ran, BuiltBetween;
    var c0 := Cycle(w, a);
    var build := Build(f, done, nc, sids, next);
    RanNothing(c0);
    RanStep(c0, [], [], c0, build);
    RanConcat(c0, [] + [build], [] + [], Apply(c0, build), more, requests, c);
    steps := [] + [build] + more;
    assert [] + [] + requests == requests;
    assert steps[1..] == more;
  }

  lemma CacheHit(w: World, a: Attempt) returns (steps: seq<Step>)
    requires a.phase.Built? && Unchanged(w, a.phase.fabric, a.phase.nc)
    ensures Ran(Cycle(w, a), steps, [], Cycle(w, a.(phase := OnosDone(a.phase.fabric)))) && BuildsNothing(steps)
  {
    hide Ran, CacheKey, NetConfigFrom, DrawnAs, ChassisFrom;
    var c := Cycle(w, a);
    RanNothing(c);
    RanStep(c, [], [], c, Hit);
    steps := [] + [Hit];
    assert [] + RequestOf(c, Hit) == [];
  }

  /** A push, and the cache update if it is reported to have succeeded. */
  lemma CacheMissed(w: World, a: Attempt, effect: Effect) returns (steps: seq<Step>)
    requires a.phase.Built? && !Unchanged(w, a.phase.fabric, a.phase.nc)
    ensures var f, nc := a.phase.fabric, a.phase.nc;
            var onos := if effect.Happened() then w.onos[f := nc] else w.onos;
            Ran(Cycle(w, a), steps, [NetConfigPost(f, nc, effect)], Cycle(
              w.(onos := onos, cache := if effect.Reported() then w.cache[CacheKey(f) := nc] else w.cache),
              a.(failures := a.failures + (if effect.Reported() then 0 else 1), phase := OnosDone(f))))
    ensures BuildsNothing(steps)
  {
    hide Ran, CacheKey, NetConfigFrom, DrawnAs, ChassisFrom, KnownSwitches, Sorted;
    var c0 := Cycle(w, a);
    RanNothing(c0);
    RanStep(c0, [], [], c0, Miss);
    var c1 := Apply(c0, Miss);
    RanStep(c0, [] + [Miss], [] + RequestOf(c0, Miss), c1, Push(effect));
    steps := [] + [Miss] + [Push(effect)];
    var requests := [NetConfigPost(a.phase.fabric, a.phase.nc, effect)];
    assert [] + RequestOf(c0, Miss) + RequestOf(c1, Push(effect)) == requests;
    if effect.Reported() {
      var c2 := Apply(c1, Push(effect));
      RanStep(c0, steps, requests, c2, Remember);
      steps := steps + [Remember];
      assert requests + RequestOf(c2, Remember) == requests;
    }
  }

  // ---------- what there is to know about a run ----------

  /** What one build did: of which configuration, which switches it covered, and the SIDs it was told. */
  datatype Building = Building(fabric: Fabric, done: set<string>, sids: map<string, uint32>)

  const NO_BUILDING := Building(Fabric(map[], map[], map[]), {}, map[])

  /** `doubts` are the fabrics whose last netconfig push took effect but was reported as failed, while
      the cache held an older netconfig, with the build that was pushed. Of the attempt that was started
      last, `built` are its builds, and `stale` the fabrics for which it was satisfied with the cache
      although they were in doubt, with the doubt. */
  datatype Trail = Trail(doubts: map<string, Building>, built: map<string, Building>, stale: map<string, Building>)

  function Follow(c: Cycle, t: Trail, step: Step): Trail
    requires step.Hit? || step.Push? || step.Remember? ==> !c.attempt.phase.Between?
  {
    match step
    case Build(f, done, _, sids, _) =>
      if f in c.attempt.forest then t.(built := t.built[f := Building(c.attempt.forest[f], done, sids)]) else t
    case Hit =>
      var f := c.attempt.phase.fabric;
      if f in t.doubts then t.(stale := t.stale[f := t.doubts[f]]) else t
    case Push(effect) =>
      var f := c.attempt.phase.fabric;
      if !effect.Unacknowledged? then t
      else if CacheKey(f) !in c.world.cache then t.(doubts := t.doubts - {f})
      else t.(doubts := t.doubts[f := if f in t.built then t.built[f] else NO_BUILDING])
    case Remember => t.(doubts := t.doubts - {c.attempt.phase.fabric})
    case _ => t
  }

  // ---------- the cache agrees with the controllers ----------

  /** Whatever the cache holds for a fabric that is not in doubt is what ONOS accepted last for it,
      except between a push of that fabric and the cache update that follows. */
  ghost predicate CacheAgrees(c: Cycle, doubts: set<string>) {
    && (forall f | CacheKey(f) in c.world.cache && f !in doubts ::
          || (f in c.world.onos && c.world.cache[CacheKey(f)] == c.world.onos[f])
          || (c.attempt.phase.Accepted? && c.attempt.phase.fabric == f))
    && (c.attempt.phase.Accepted? ==>
          c.attempt.phase.fabric in c.world.onos && c.world.onos[c.attempt.phase.fabric] == c.attempt.phase.nc)
  }

  lemma CacheAgreesStep(c: Cycle, t: Trail, step: Step)
    requires CacheAgrees(c, t.doubts.Keys) && Enabled(c, step)
    ensures CacheAgrees(Apply(c, step), Follow(c, t, step).doubts.Keys)
  {
    hide NetConfigFrom, DrawnAs, ChassisFrom, Sorted, KnownSwitches, CacheKey;
    if step.Remember? {
      forall f | CacheKey(f) == CacheKey(c.attempt.phase.fabric)
        ensures f == c.attempt.phase.fabric
      {
        CacheKeyInjective(f, c.attempt.phase.fabric);
      }
    }
  }

  /** A push that takes effect while reporting a failure breaks the agreement if and only if the fabric
      was not in doubt before and the cache holds another netconfig for it. */
  lemma UnacknowledgedPush(c: Cycle, doubts: set<string>)
    requires CacheAgrees(c, doubts) && c.attempt.phase.Missed?
    ensures var f, nc := c.attempt.phase.fabric, c.attempt.phase.nc;
            !CacheAgrees(Apply(c, Push(Unacknowledged)), doubts)
            <==> f !in doubts && CacheKey(f) in c.world.cache && c.world.cache[CacheKey(f)] != nc
  {
    hide CacheKey;
    var c' := Apply(c, Push(Unacknowledged));
    var f := c.attempt.phase.fabric;
    assert CacheKey(f) in c'.world.cache <==> CacheKey(f) in c.world.cache;
  }

  /** And with partial updates enabled, a doubt is never unfounded. */
  ghost predicate DoubtsFounded(c: Cycle, doubts: set<string>) {
    c.world.caching ==>
      && (forall f | f in doubts ::
            || (CacheKey(f) in c.world.cache && f in c.world.onos && c.world.cache[CacheKey(f)] != c.world.onos[f])
            || (c.attempt.phase.Accepted? && c.attempt.phase.fabric == f))
      && (c.attempt.phase.Missed? && CacheKey(c.attempt.phase.fabric) in c.world.cache ==>
            c.world.cache[CacheKey(c.attempt.phase.fabric)] != c.attempt.phase.nc)
  }

  lemma DoubtsFoundedStep(c: Cycle, t: Trail, step: Step)
    requires DoubtsFounded(c, t.doubts.Keys) && Enabled(c, step)
    ensures DoubtsFounded(Apply(c, step), Follow(c, t, step).doubts.Keys)
  {
    hide NetConfigFrom, DrawnAs, ChassisFrom, Sorted, KnownSwitches, CacheKey;
    if step.Remember? {
      forall f | CacheKey(f) == CacheKey(c.attempt.phase.fabric)
        ensures f == c.attempt.phase.fabric
      {
        CacheKeyInjective(f, c.attempt.phase.fabric);
      }
    }
  }

  /** ONOS holds what the doubtful push pushed. */
  ghost predicate DoubtsHeld(c: Cycle, t: Trail) {
    forall f | f in t.doubts && !(c.attempt.phase.Accepted? && c.attempt.phase.fabric == f) ::
      f in c.world.onos && BuiltBy(c.world.ip, t.doubts[f], c.world.onos[f])
  }

  ghost predicate BuiltBy(ip: string -> Option<Ip>, b: Building, nc: NetConfig) {
    NetConfigFrom(ip, b.fabric, b.done, b.sids, nc)
  }

  lemma DoubtsHeldStep(c: Cycle, t: Trail, step: Step)
    requires DoubtsHeld(c, t) && PhaseSettled(c, t) && Enabled(c, step)
    ensures DoubtsHeld(Apply(c, step), Follow(c, t, step))
  {
    hide NetConfigFrom, DrawnAs, ChassisFrom, Sorted, KnownSwitches, CacheKey;
  }

  // ---------- what an attempt leaves at the controllers ----------

  ghost predicate OnosGood(w: World, f: string, fabric: Fabric, sids: map<string, uint32>) {
    f in w.onos && NetConfigFrom(w.ip, fabric, Eligible(fabric), sids, w.onos[f])
  }

  ghost predicate ChassisGood(w: World, f: string, fabric: Fabric, k: string) {
    (f, k) in w.chassis && ChassisFrom(fabric, k, w.chassis[(f, k)])
  }

  /** ONOS holds a complete netconfig of the fabric, with these SIDs, and every switch with a known
      model holds its own chassis configuration. */
  ghost predicate FabricGood(w: World, f: string, fabric: Fabric, sids: map<string, uint32>) {
    && OnosGood(w, f, fabric, sids)
    && forall k | k in KnownSwitches(fabric) :: ChassisGood(w, f, fabric, k)
  }

  /** `nc` is what the attempt's build of the fabric gave. */
  ghost predicate BuiltAs(w: World, t: Trail, f: string, fabric: Fabric, nc: NetConfig) {
    f in t.built && t.built[f].fabric == fabric && BuiltBy(w.ip, t.built[f], nc)
  }

  /** What ONOS holds once an attempt is through with a fabric: what it built, unless it was satisfied
      with the cache while the fabric was in doubt; then ONOS holds something else, what the doubtful push
      pushed. */
  ghost predicate OnosFollows(w: World, t: Trail, f: string, fabric: Fabric) {
    if f in t.stale then
      && f in w.onos && BuiltBy(w.ip, t.stale[f], w.onos[f])
      && exists nc :: BuiltAs(w, t, f, fabric, nc) && w.onos[f] != nc
    else f !in t.doubts && f in w.onos && BuiltAs(w, t, f, fabric, w.onos[f])
  }

  ghost predicate FabricSettled(w: World, t: Trail, f: string, fabric: Fabric) {
    && OnosFollows(w, t, f, fabric)
    && forall k | k in KnownSwitches(fabric) :: ChassisGood(w, f, fabric, k)
  }

  ghost predicate PhaseSettled(c: Cycle, t: Trail) {
    var w, a := c.world, c.attempt;
    a.phase.Between?
    || (var f := a.phase.fabric;
        && f in a.todo && f in a.forest
        && match a.phase {
             case Built(_, nc) => f !in t.stale && BuiltAs(w, t, f, a.forest[f], nc)
             case Missed(_, nc) => f !in t.stale && BuiltAs(w, t, f, a.forest[f], nc)
             case Accepted(_, nc) => f !in t.stale && BuiltAs(w, t, f, a.forest[f], nc)
             case OnosDone(_) => a.failures == 0 ==> OnosFollows(w, t, f, a.forest[f])
             case Stratum(_, rest) =>
               a.failures == 0 ==>
                 && OnosFollows(w, t, f, a.forest[f])
                 && forall k | k in KnownSwitches(a.forest[f]) && k !in rest :: ChassisGood(w, f, a.forest[f], k)
           })
  }

  /** Whether an attempt is through with ONOS for this fabric. */
  predicate PastOnos(a: Attempt, f: string) {
    f in a.forest && (f !in a.todo || ((a.phase.OnosDone? || a.phase.Stratum?) && a.phase.fabric == f))
  }

  ghost predicate AttemptSettled(c: Cycle, t: Trail) {
    var w, a := c.world, c.attempt;
    && a.todo <= a.forest.Keys
    && (forall f | f in t.stale :: PastOnos(a, f))
    && (a.failures == 0 ==> forall f | f in a.forest && f !in a.todo :: FabricSettled(w, t, f, a.forest[f]))
    && PhaseSettled(c, t)
  }

  /** What happens to one fabric does not concern the others. */
  lemma SettledElsewhere(c: Cycle, t: Trail, step: Step, f: string, fabric: Fabric)
    requires Enabled(c, step) && FabricSettled(c.world, t, f, fabric)
    requires if c.attempt.phase.Between? then step.Build? && step.fabric != f else c.attempt.phase.fabric != f
    ensures FabricSettled(Apply(c, step).world, Follow(c, t, step), f, fabric)
  {
    hide NetConfigFrom, DrawnAs, ChassisFrom, KnownSwitches, Eligible, Sorted, CacheKey;
    var w', t' := Apply(c, step).world, Follow(c, t, step);
    if f in t.stale {
      var nc :| BuiltAs(c.world, t, f, fabric, nc) && c.world.onos[f] != nc;
      assert BuiltAs(w', t', f, fabric, nc);
    }
    assert OnosFollows(w', t', f, fabric);
    forall k | k in KnownSwitches(fabric)
      ensures ChassisGood(w', f, fabric, k)
    {
      assert ChassisGood(c.world, f, fabric, k);
    }
  }

  lemma AttemptSettledStep(c: Cycle, t: Trail, step: Step)
    requires CacheAgrees(c, t.doubts.Keys) && DoubtsFounded(c, t.doubts.Keys) && DoubtsHeld(c, t)
    requires AttemptSettled(c, t) && Enabled(c, step)
    ensures AttemptSettled(Apply(c, step), Follow(c, t, step))
  {
    hide NetConfigFrom, DrawnAs, ChassisFrom, KnownSwitches, Eligible, Sorted, CacheKey, FabricSettled, PhaseSettled,
         CacheAgrees, DoubtsFounded, DoubtsHeld;
    var c', t' := Apply(c, step), Follow(c, t, step);
    PhaseFabricTodo(c, t);
    PhaseSettledStep(c, t, step);
    if c'.attempt.failures == 0 {
      forall f | f in c.attempt.forest && f !in c'.attempt.todo
        ensures FabricSettled(c'.world, t', f, c.attempt.forest[f])
      {
        if f in c.attempt.todo {
          FinishedSettled(c, t, step);
        } else {
          SettledElsewhere(c, t, step, f, c.attempt.forest[f]);
        }
      }
    }
  }

  lemma PhaseOf(c: Cycle, t: Trail)
    requires AttemptSettled(c, t)
    ensures PhaseSettled(c, t)
  {
  }

  lemma PhaseFabricTodo(c: Cycle, t: Trail)
    requires PhaseSettled(c, t)
    ensures c.attempt.phase.Between? || (c.attempt.phase.fabric in c.attempt.todo
                                         && c.attempt.phase.fabric in c.attempt.forest)
  {
    hide NetConfigFrom, DrawnAs, ChassisFrom, KnownSwitches, Eligible;
  }

  lemma FinishedSettled(c: Cycle, t: Trail, step: Step)
    requires PhaseSettled(c, t) && Enabled(c, step) && step.EndFabric? && c.attempt.failures == 0
    requires c.attempt.phase.fabric in c.attempt.forest
    ensures FabricSettled(Apply(c, step).world, Follow(c, t, step), c.attempt.phase.fabric,
                          c.attempt.forest[c.attempt.phase.fabric])
  {
    hide NetConfigFrom, DrawnAs, ChassisFrom, KnownSwitches, Eligible;
  }

  lemma PhaseSettledStep(c: Cycle, t: Trail, step: Step)
    requires CacheAgrees(c, t.doubts.Keys) && DoubtsFounded(c, t.doubts.Keys) && DoubtsHeld(c, t)
    requires AttemptSettled(c, t) && Enabled(c, step)
    ensures PhaseSettled(Apply(c, step), Follow(c, t, step))
  {
    hide NetConfigFrom, DrawnAs, ChassisFrom, KnownSwitches, Eligible, Sorted, CacheKey, FabricSettled;
    if step.PushChassis? && step.effect.Reported() {
      ChassisSettledStep(c, t, step);
    } else if step.Hit? {
      HitSettled(c, t);
    } else {
      hide DoubtsHeld, DoubtsFounded;
    }
  }

  lemma HitSettled(c: Cycle, t: Trail)
    requires CacheAgrees(c, t.doubts.Keys) && DoubtsFounded(c, t.doubts.Keys) && DoubtsHeld(c, t)
    requires PhaseSettled(c, t) && Enabled(c, Hit)
    ensures PhaseSettled(Apply(c, Hit), Follow(c, t, Hit))
  {
    hide NetConfigFrom, ChassisFrom, KnownSwitches, CacheKey;
    var f, t' := c.attempt.phase.fabric, Follow(c, t, Hit);
    assert BuiltAs(c.world, t', f, c.attempt.forest[f], c.attempt.phase.nc);
    assert OnosFollows(c.world, t', f, c.attempt.forest[f]);
  }

  lemma ChassisSettledStep(c: Cycle, t: Trail, step: Step)
    requires PhaseSettled(c, t) && Enabled(c, step) && step.PushChassis? && step.effect.Reported()
    ensures PhaseSettled(Apply(c, step), t)
  {
    hide NetConfigFrom, ChassisFrom, KnownSwitches, CacheKey, OnosFollows;
    var a, w, w' := c.attempt, c.world, Apply(c, step).world;
    var f, rest := a.phase.fabric, a.phase.rest;
    OnosFollowsThere(w, w', t, f, a.forest[f]);
    forall k | k in KnownSwitches(a.forest[f]) && k !in rest[1..] && a.failures == 0
      ensures ChassisGood(w', f, a.forest[f], k)
    {
      if k != rest[0] {
        assert k !in rest;
        assert ChassisGood(w, f, a.forest[f], k);
      }
    }
  }

  lemma OnosFollowsThere(w: World, w': World, t: Trail, f: string, fabric: Fabric)
    requires w'.onos == w.onos && w'.ip == w.ip
    ensures OnosFollows(w', t, f, fabric) <==> OnosFollows(w, t, f, fabric)
  {
    hide NetConfigFrom, DrawnAs;
    assert forall nc :: BuiltAs(w, t, f, fabric, nc) <==> BuiltAs(w', t, f, fabric, nc);
  }

  lemma FreshSettled(w: World, forest: Forest, doubts: map<string, Building>)
    ensures AttemptSettled(Cycle(w, Fresh(forest)), Trail(doubts, map[], map[]))
  {
  }

  lemma ForestKept(c: Cycle, step: Step)
    requires Enabled(c, step)
    ensures Apply(c, step).attempt.forest == c.attempt.forest
  {
    hide NetConfigFrom, DrawnAs, ChassisFrom;
  }

  ghost function TrailAfter(c: Cycle, t: Trail, steps: seq<Step>): Trail {
    if steps == [] then t
    else
      var before := Exec(c, steps[..|steps| - 1]);
      if before.Some? && Enabled(before.value, Last(steps))
      then Follow(before.value, TrailAfter(c, t, steps[..|steps| - 1]), Last(steps)) else t
  }

  /** An attempt that ends without push failures leaves every fabric of its configuration as it built
      it, or untouched where it was satisfied with a doubtful cache entry. */
  lemma {:induction false} SuccessSettles(w: World, doubts: map<string, Building>, forest: Forest, steps: seq<Step>,
                                          c: Cycle)
    requires CacheAgrees(Cycle(w, IDLE), doubts.Keys) && DoubtsFounded(Cycle(w, IDLE), doubts.Keys)
    requires DoubtsHeld(Cycle(w, IDLE), Trail(doubts, map[], map[]))
    requires Exec(Cycle(w, Fresh(forest)), steps) == Some(c)
    ensures var t := TrailAfter(Cycle(w, Fresh(forest)), Trail(doubts, map[], map[]), steps);
            && c.attempt.forest == forest && AttemptSettled(c, t)
            && CacheAgrees(c, t.doubts.Keys) && DoubtsFounded(c, t.doubts.Keys) && DoubtsHeld(c, t)
            && (c.attempt.todo == {} && c.attempt.failures == 0 ==>
                  forall f | f in forest :: FabricSettled(c.world, t, f, forest[f]))
    decreases |steps|
  {
    hide Enabled, Apply, Follow, PhaseSettled, FabricSettled;
    var c0, t0 := Cycle(w, Fresh(forest)), Trail(doubts, map[], map[]);
    if steps == [] {
      FreshSettled(w, forest, doubts);
    } else {
      var front := steps[..|steps| - 1];
      var before, t := Exec(c0, front).value, TrailAfter(c0, t0, front);
      SuccessSettles(w, doubts, forest, front, before);
      hide CacheAgrees, DoubtsFounded, DoubtsHeld;
      CacheAgreesStep(before, t, Last(steps));
      DoubtsFoundedStep(before, t, Last(steps));
      DoubtsHeldStep(before, t, Last(steps));
      AttemptSettledStep(before, t, Last(steps));
      ForestKept(before, Last(steps));
    }
  }

  /** No build left out an eligible switch. */
  predicate AllComplete(forest: Forest, steps: seq<Step>) {
    forall i | 0 <= i < |steps| && steps[i].Build? && steps[i].fabric in forest ::
      steps[i].done == Eligible(forest[steps[i].fabric])
  }

  /** All builds were told SIDs that are among `sids`. */
  ghost predicate AllTold(steps: seq<Step>, sids: map<string, uint32>) {
    forall i | 0 <= i < |steps| && steps[i].Build? :: Extends(steps[i].sids, sids)
  }

  /** What an attempt without failures left is right, for all SIDs that include those it was told, if it
      was not satisfied with a doubtful cache entry and its build left out no eligible switch. */
  lemma SettledGood(w: World, t: Trail, f: string, fabric: Fabric, sids: map<string, uint32>)
    requires FabricSettled(w, t, f, fabric)
    requires f !in t.stale && t.built[f].done == Eligible(fabric) && Extends(t.built[f].sids, sids)
    ensures FabricGood(w, f, fabric, sids)
  {
    hide Eligible, ChassisFrom, KnownSwitches, NetConfigFrom, DrawnAs;
    MoreSids(w.ip, fabric, Eligible(fabric), t.built[f].sids, sids, w.onos[f]);
  }

  /** A fabric whose translation leaves nothing to chance. */
  ghost predicate Deterministic(ip: string -> Option<Ip>, fabric: Fabric) {
    WellKeyed(fabric) && Literals(ip, fabric, Eligible(fabric)) && RoutesAlike(fabric)
  }

  /** A netconfig that ONOS holds is one of the whole fabric if and only if the build left out no
      eligible switch. */
  lemma CompletenessIsExact(w: World, f: string, fabric: Fabric, done: set<string>, sids: map<string, uint32>)
    requires WellKeyed(fabric) && f in w.onos && NetConfigFrom(w.ip, fabric, done, sids, w.onos[f])
    ensures OnosGood(w, f, fabric, sids) <==> done == Eligible(fabric)
  {
    hide NetConfigFrom, DrawnAs, Eligible, WellKeyed;
    if OnosGood(w, f, fabric, sids) {
      CoverageVisible(w.ip, fabric, done, Eligible(fabric), sids, w.onos[f]);
    }
  }

  /** Being satisfied with the cache leaves ONOS right if and only if the netconfig in the cache is the
      one that ONOS holds. */
  lemma HitIsExact(c: Cycle, fabric: Fabric, told: map<string, uint32>, sids: map<string, uint32>)
    requires Enabled(c, Hit) && Deterministic(c.world.ip, fabric) && Extends(told, sids)
    requires NetConfigFrom(c.world.ip, fabric, Eligible(fabric), told, c.attempt.phase.nc)
    ensures var f, w := c.attempt.phase.fabric, Apply(c, Hit).world;
            OnosGood(w, f, fabric, sids) <==> f in w.onos && w.onos[f] == w.cache[CacheKey(f)]
  {
    hide NetConfigFrom, DrawnAs, Eligible, Deterministic, Extends, CacheKey;
    var f, w, nc := c.attempt.phase.fabric, c.world, c.attempt.phase.nc;
    MoreSids(w.ip, fabric, Eligible(fabric), told, sids, nc);
    if OnosGood(w, f, fabric, sids) { DeterministicBuild(w.ip, fabric, sids, nc, w.onos[f]); }
  }

  /** The build whose netconfig ONOS holds for a fabric that the attempt is through with. */
  function HeldBuilding(t: Trail, f: string): Building {
    if f in t.stale then t.stale[f] else if f in t.built then t.built[f] else NO_BUILDING
  }

  /** What is right exactly: that build, be it the attempt's own or the doubtful one, left out no eligible
      switch, and was of a configuration that translates alike. */
  ghost predicate HoldsRight(t: Trail, f: string, fabric: Fabric) {
    TranslateAlike(HeldBuilding(t, f).fabric, HeldBuilding(t, f).done, fabric, Eligible(fabric))
  }

  lemma SettledGoodExactly(w: World, t: Trail, f: string, fabric: Fabric, sids: map<string, uint32>)
    requires FabricSettled(w, t, f, fabric) && WellKeyed(fabric) && WellKeyed(HeldBuilding(t, f).fabric)
    requires Extends(HeldBuilding(t, f).sids, sids)
    ensures FabricGood(w, f, fabric, sids) <==> HoldsRight(t, f, fabric)
  {
    hide Eligible, ChassisFrom, KnownSwitches, NetConfigFrom, DrawnAs, WellKeyed, TranslateAlike, Extends;
    var b := HeldBuilding(t, f);
    MoreSids(w.ip, b.fabric, b.done, b.sids, sids, w.onos[f]);
    AlikeExactly(w.ip, b.fabric, b.done, sids, fabric, Eligible(fabric), w.onos[f]);
  }

  /** Of the same configuration, that it left out no eligible switch. */
  lemma HoldsRightSame(t: Trail, f: string, fabric: Fabric)
    requires HeldBuilding(t, f).fabric == fabric
    ensures HoldsRight(t, f, fabric) <==> HeldBuilding(t, f).done == Eligible(fabric)
  {
    hide Eligible, SamePorts, SameDevice, SameRoutes;
    if HeldBuilding(t, f).done == Eligible(fabric) { AlikeItself(fabric, Eligible(fabric)); }
  }

  lemma DeterministicBuild(ip: string -> Option<Ip>, fabric: Fabric, sids: map<string, uint32>, a: NetConfig,
                           b: NetConfig)
    requires Deterministic(ip, fabric)
    requires NetConfigFrom(ip, fabric, Eligible(fabric), sids, a)
             && NetConfigFrom(ip, fabric, Eligible(fabric), sids, b)
    ensures a == b
  {
    hide NetConfigFrom, DrawnAs, Eligible;
    NetConfigDetermined(ip, fabric, Eligible(fabric), sids, a, b);
  }

  // ---------- synchronizing again ----------

  /** The cache and ONOS hold the same complete netconfig of every fabric of `forest`. */
  ghost predicate AllCached(w: World, forest: Forest, sids: map<string, uint32>) {
    forall f | f in forest ::
      && CacheKey(f) in w.cache && Deterministic(w.ip, forest[f]) && OnosGood(w, f, forest[f], sids)
      && w.cache[CacheKey(f)] == w.onos[f]
  }

  /** The build leaves out no switch and is told the same SIDs as before. */
  ghost predicate SameBuild(a: Attempt, step: Step, sids: map<string, uint32>) {
    step.Build? && step.fabric in a.forest ==>
      step.done == Eligible(a.forest[step.fabric]) && Extends(step.sids, sids)
  }

  /** An attempt at such a forest never gets as far as pushing a netconfig. */
  ghost predicate Resyncing(c: Cycle, forest: Forest, sids: map<string, uint32>) {
    var w, a := c.world, c.attempt;
    && w.caching && AllCached(w, forest, sids)
    && a.forest == forest && a.todo <= forest.Keys && !a.phase.Missed? && !a.phase.Accepted?
    && (a.phase.Built? ==>
          a.phase.fabric in forest
          && NetConfigFrom(w.ip, forest[a.phase.fabric], Eligible(forest[a.phase.fabric]), sids, a.phase.nc))
  }

  /** An unchanged fabric that is in the cache is rebuilt to the very same netconfig, which hits the
      cache: nothing is pushed to ONOS. */
  lemma UnchangedFabricHits(c: Cycle, forest: Forest, sids: map<string, uint32>)
    requires Resyncing(c, forest, sids) && c.attempt.phase.Built?
    ensures Enabled(c, Hit) && !Enabled(c, Miss)
  {
    hide NetConfigFrom, DrawnAs, Eligible, Deterministic;
    var f := c.attempt.phase.fabric;
    DeterministicBuild(c.world.ip, forest[f], sids, c.world.onos[f], c.attempt.phase.nc);
  }

  lemma ResyncStep(c: Cycle, forest: Forest, sids: map<string, uint32>, step: Step)
    requires Resyncing(c, forest, sids) && Enabled(c, step) && SameBuild(c.attempt, step, sids)
    ensures !step.Push? && !step.Miss?
    ensures Resyncing(Apply(c, step), forest, sids) && Apply(c, step).world.onos == c.world.onos
  {
    hide CacheKey, Deterministic, NetConfigFrom, DrawnAs, ChassisFrom, KnownSwitches, Eligible, Sorted;
    if c.attempt.phase.Built? {
      UnchangedFabricHits(c, forest, sids);
    }
    if step.Build? {
      MoreSids(c.world.ip, forest[step.fabric], step.done, step.sids, sids, step.nc);
    }
    assert Apply(c, step).world.onos == c.world.onos && Apply(c, step).world.cache == c.world.cache;
    hide AllCached;
    CachedThere(c.world, Apply(c, step).world, forest, sids);
  }

  lemma CachedThere(w: World, w': World, forest: Forest, sids: map<string, uint32>)
    requires AllCached(w, forest, sids) && w' == w.(chassis := w'.chassis, next := w'.next)
    ensures AllCached(w', forest, sids)
  {
    hide CacheKey, Deterministic, NetConfigFrom, DrawnAs, Eligible;
  }

  // ---------- without the cache ----------

  function WithCache(c: Cycle, caching: bool, cache: map<string, NetConfig>): Cycle {
    c.(world := c.world.(caching := caching, cache := cache))
  }

  /** Apart from a hit, a step does not depend on the cache and changes nothing else differently. */
  lemma WithoutCache(c: Cycle, cache: map<string, NetConfig>, step: Step)
    requires Enabled(c, step) && !step.Hit?
    ensures var d := WithCache(c, false, cache);
            Enabled(d, step) && Apply(d, step) == WithCache(Apply(c, step), false, Apply(d, step).world.cache)
  {
    hide NetConfigFrom, DrawnAs, ChassisFrom, CacheKey, KnownSwitches, Sorted;
  }

  ghost predicate Filling(c: Cycle) {
    var w, a := c.world, c.attempt;
    && (a.phase.Between? || a.phase.fabric in a.todo)
    && (a.failures == 0 ==>
          && (forall f | f in a.forest && f !in a.todo :: CacheKey(f) in w.cache)
          && (a.phase.OnosDone? || a.phase.Stratum? ==> CacheKey(a.phase.fabric) in w.cache))
  }

  lemma FillingStep(c: Cycle, step: Step)
    requires Filling(c) && Enabled(c, step)
    ensures Filling(Apply(c, step))
  {
    hide NetConfigFrom, DrawnAs, ChassisFrom, KnownSwitches, Eligible, Sorted, CacheKey;
  }

  /** An attempt without failures, undisturbed by invalidations, leaves every fabric in the cache. */
  lemma {:induction false} SuccessFillsCache(w: World, forest: Forest, steps: seq<Step>, c: Cycle)
    requires Exec(Cycle(w, Fresh(forest)), steps) == Some(c)
    ensures Filling(c)
    ensures c.attempt.todo == {} && c.attempt.failures == 0 ==>
              forall f | f in c.attempt.forest :: CacheKey(f) in c.world.cache
    decreases |steps|
  {
    hide Enabled, Apply, CacheKey;
    if steps != [] {
      var before := Exec(Cycle(w, Fresh(forest)), steps[..|steps| - 1]).value;
      SuccessFillsCache(w, forest, steps[..|steps| - 1], before);
      FillingStep(before, Last(steps));
    }
  }

  // ---------- an empty cache ----------

  /** What is in the cache are fabrics that this attempt is through with and, unless `strict`, netconfigs
      with host names; and no fabric comes twice. */
  ghost predicate Cold(c: Cycle, strict: bool) {
    var w, a := c.world, c.attempt;
    && a.todo <= a.forest.Keys
    && (a.phase.Between? || a.phase.fabric in a.todo)
    && forall f | CacheKey(f) in w.cache :: PastOnos(a, f) || (!strict && HasHostName(w.ip, w.cache[CacheKey(f)]))
  }

  predicate PastPush(p: Phase) {
    p.Accepted? || p.OnosDone? || p.Stratum?
  }

  /** The fabrics whose netconfig the attempt has dealt with so far. */
  function DealtWith(a: Attempt): set<string> {
    (a.forest.Keys - a.todo) + if PastPush(a.phase) then {a.phase.fabric} else {}
  }

  function PushedBy(c: Cycle, step: Step): multiset<string> {
    if step.Push? && !c.attempt.phase.Between? then multiset{c.attempt.phase.fabric} else multiset{}
  }

  /** Started on an empty cache, or on one with nothing but outdated netconfigs with host names in it, an
      attempt never hits it, and pushes every fabric it reaches to ONOS exactly once. */
  lemma ColdStep(c: Cycle, strict: bool, step: Step)
    requires Cold(c, strict) && (strict || FreshlyBuilt(c)) && Enabled(c, step)
    ensures Cold(Apply(c, step), strict) && !step.Hit?
    ensures multiset(DealtWith(Apply(c, step).attempt)) == multiset(DealtWith(c.attempt)) + PushedBy(c, step)
  {
    hide NetConfigFrom, DrawnAs, ChassisFrom, KnownSwitches, Eligible, Sorted, CacheKey, HasHostName;
    if step.Remember? {
      forall f | CacheKey(f) == CacheKey(c.attempt.phase.fabric)
        ensures f == c.attempt.phase.fabric
      {
        CacheKeyInjective(f, c.attempt.phase.fabric);
      }
    }
    if step.Push? {
      assert DealtWith(Apply(c, step).attempt) == DealtWith(c.attempt) + {c.attempt.phase.fabric};
    } else {
      assert DealtWith(Apply(c, step).attempt) == DealtWith(c.attempt);
    }
  }

  // ---------- host names ----------

  /** A netconfig with a host name that has just been built is not the one in the cache. */
  ghost predicate FreshlyBuilt(c: Cycle) {
    var w, p := c.world, c.attempt.phase;
    (p.Built? || p.Missed?) && CacheKey(p.fabric) in w.cache && HasHostName(w.ip, p.nc) ==>
      w.cache[CacheKey(p.fabric)] != p.nc
  }

  /** All synthetic loopbacks anywhere were drawn before the counter's reading. */
  ghost predicate AllDated(c: Cycle) {
    var w, p := c.world, c.attempt.phase;
    && (forall key | key in w.cache :: Dated(w.ip, w.cache[key], w.next))
    && (p.Built? || p.Missed? || p.Accepted? ==> Dated(w.ip, p.nc, w.next))
  }

  lemma NextGrows(c: Cycle, step: Step)
    requires Enabled(c, step)
    ensures c.world.next <= Apply(c, step).world.next && Apply(c, step).world.ip == c.world.ip
  {
    hide NetConfigFrom, DrawnAs, ChassisFrom, KnownSwitches, Sorted, CacheKey;
    if step.Build? {
      BuildDated(c.world.ip, c.attempt.forest[step.fabric], step.done, step.sids, step.nc, c.world.next, step.next);
    }
  }

  lemma DatedStep(c: Cycle, step: Step)
    requires AllDated(c) && FreshlyBuilt(c) && Enabled(c, step) && Apply(c, step).world.next <= TWO_32
    ensures AllDated(Apply(c, step)) && FreshlyBuilt(Apply(c, step))
  {
    hide BuiltBetween, ChassisFrom, KnownSwitches, Sorted, CacheKey, HasHostName, Dated;
    if step.Build? {
      var w, fabric := c.world, c.attempt.forest[step.fabric];
      BuildDated(w.ip, fabric, step.done, step.sids, step.nc, w.next, step.next);
      forall key | key in w.cache
        ensures Dated(w.ip, w.cache[key], step.next)
        ensures HasHostName(w.ip, w.cache[key]) ==> w.cache[key] != step.nc
      {
        DatedLater(w.ip, w.cache[key], w.next, step.next);
        if HasHostName(w.ip, w.cache[key]) {
          NeverRebuilt(w.ip, w.cache[key], fabric, step.done, step.sids, step.nc, w.next, step.next);
        }
      }
    }
  }
}
