/** The synchronizer object: its cache, its update channel and busy count, and the methods that use
    them, in the source's own form. While no other goroutine runs, every method is a run of the
    step-by-step model in the other modules, which is what its contract says. */
module Synchronizer {
  import opened Basics
  import opened Text
  import opened Net
  import opened Fabrics
  import opened Builds
  import opened Translate
  import opened StratumPushes
  import SidStore
  import Mailbox
  import PushCycle
  import Adapter

  const CACHE_MODEL_NETCONFIG := "netconfig"

  /** What the ONOS controllers and the Stratum switches accepted last, and every request made to them so
      far. How the i-th request ends, and whether the i-th lookup of a fabric's controller finds it, is for
      the environment to choose. */
  class Controllers {
    const ends: nat -> Effect
    const found: nat -> bool
    var onos: map<string, NetConfig>
    var chassis: map<(string, string), Chassis>
    var log: seq<PushCycle.Request>
    var lookups: nat

    ghost predicate Valid()
      reads this`log
    {
      forall i | 0 <= i < |log| :: log[i].effect == ends(i)
    }

    /** The requests after the first `n`. */
    ghost function Since(n: nat): seq<PushCycle.Request>
      reads this`log
    {
      if n <= |log| then log[n..] else []
    }

    /** All lookups after the first `n` have found a controller. */
    ghost predicate AllFound(n: nat): (all: bool)
      reads this`lookups
      ensures n >= lookups ==> all
    {
      forall i | n <= i < lookups :: found(i)
    }

    constructor (ends: nat -> Effect, found: nat -> bool)
      ensures Valid() && this.ends == ends && this.found == found
      ensures onos == map[] && chassis == map[] && log == [] && lookups == 0
    {
      this.ends, this.found := ends, found;
      onos, chassis, log, lookups := map[], map[], [], 0;
    }

    method PostNetConfig(fabric: string, nc: NetConfig) returns (effect: Effect)
      requires Valid()
      modifies this`onos, this`log
      ensures Valid() && effect == ends(|old(log)|)
      ensures log == old(log) + [PushCycle.NetConfigPost(fabric, nc, effect)]
      ensures onos == if effect.Happened() then old(onos)[fabric := nc] else old(onos)
    {
      effect := ends(|log|);
      log := log + [PushCycle.NetConfigPost(fabric, nc, effect)];
      if effect.Happened() {
        onos := onos[fabric := nc];
      }
    }

    method SetChassis(fabric: string, switch_: string, cc: Chassis) returns (effect: Effect)
      requires Valid()
      modifies this`chassis, this`log
      ensures Valid() && effect == ends(|old(log)|)
      ensures log == old(log) + [PushCycle.ChassisSet(fabric, switch_, cc, effect)]
      ensures chassis == if effect.Happened() then old(chassis)[(fabric, switch_) := cc] else old(chassis)
    {
      effect := ends(|log|);
      log := log + [PushCycle.ChassisSet(fabric, switch_, cc, effect)];
      if effect.Happened() {
        chassis := chassis[(fabric, switch_) := cc];
      }
    }

    method LookUp(fabric: string) returns (there: bool)
      modifies this`lookups
      ensures there == found(old(lookups)) && lookups == old(lookups) + 1
      ensures forall n: nat | n <= old(lookups) :: AllFound(n) <==> old(AllFound(n)) && there
    {
      there := found(lookups);
      lookups := lookups + 1;
    }
  }

  /** A configuration tree of the gNMI server, which may go on changing it. Not every tree can be copied. */
  class GoStruct {
    var fabric: Fabric
    var copyable: bool

    constructor (fabric: Fabric, copyable: bool)
      ensures this.fabric == fabric && this.copyable == copyable
    {
      this.fabric, this.copyable := fabric, copyable;
    }

    method DeepCopy() returns (copy: Option<GoStruct>)
      ensures copy.Some? <==> copyable
      ensures copy.Some? ==> fresh(copy.value) && copy.value.fabric == fabric
    {
      if !copyable {
        return None;
      }
      var tree := new GoStruct(fabric, true);
      copy := Some(tree);
    }
  }

  class ConfigForest {
    var configs: map<string, GoStruct>

    function View(): PushCycle.Forest
      reads this, configs.Values
    {
      map f | f in configs :: configs[f].fabric
    }

    ghost predicate Copyable()
      reads this, configs.Values
    {
      forall f | f in configs :: configs[f].copyable
    }

    constructor ()
      ensures configs == map[]
    {
      configs := map[];
    }
  }

  datatype CallbackType = Deleted | Forced | Other

  datatype ConfigUpdate = ConfigUpdate(config: ConfigForest, callbackType: CallbackType, target: string) {
    /** Synchronize will queue it. */
    ghost predicate Accepted()
      reads config, config.configs.Values
    {
      !callbackType.Deleted? && config.Copyable()
    }
  }

  predicate ForestManaged(forest: PushCycle.Forest) {
    forall f | f in forest :: AllManaged(forest[f])
  }

  class Synchronizer {
    const ip: string -> Option<Ip>
    const partialUpdateEnable: bool
    const sidStore: SidStore.SIDAtomixStore
    const pool: LoopbackPool
    const controllers: Controllers
    var cache: map<string, OnosNetConfig>
    var busy: int
    var updateChannel: seq<ConfigUpdate>

    /** The steps taken since `start`, the state of the step-by-step model they lead to, and the
        objects that belong to the queued updates. */
    ghost const start: PushCycle.World
    ghost var history: seq<Adapter.Step>
    ghost var model: Adapter.State
    ghost var owned: set<ConfigForest>
    ghost var trees: set<GoStruct>

    /** The requests made before, and the operations of the SID store before the last attempt. */
    ghost const earlier: seq<PushCycle.Request>
    ghost var mark: nat

    ghost predicate Valid(): (valid: bool)
      reads sidStore, controllers`log
      ensures valid ==> sidStore.Valid()
    {
      Conforms(ip) && sidStore.Valid() && controllers.Valid()
    }

    ghost function CacheContents(): map<string, NetConfig>
      reads this`cache, cache.Values
    {
      map k | k in cache :: cache[k].View()
    }

    ghost function World(): (w: PushCycle.World)
      reads this`cache, cache.Values, controllers`onos, controllers`chassis, pool
      ensures w.chassis == controllers.chassis
    {
      PushCycle.World(ip, partialUpdateEnable, CacheContents(), controllers.onos, controllers.chassis, pool.drawn)
    }

    constructor (ip: string -> Option<Ip>, partialUpdateEnable: bool, sidStore: SidStore.SIDAtomixStore,
                 pool: LoopbackPool, controllers: Controllers)
      requires Conforms(ip) && sidStore.Valid() && pool.Valid() && controllers.Valid()
      ensures Valid() && cache == map[] && this.ip == ip && this.partialUpdateEnable == partialUpdateEnable
      ensures this.sidStore == sidStore && this.pool == pool && this.controllers == controllers
      ensures Linked() && busy == 0 && updateChannel == [] && history == []
    {
      this.ip, this.partialUpdateEnable := ip, partialUpdateEnable;
      this.sidStore, this.pool, this.controllers := sidStore, pool, controllers;
      cache, busy, updateChannel := map[], 0, [];
      ghost var w := PushCycle.World(ip, partialUpdateEnable, map[], controllers.onos, controllers.chassis,
                                         pool.drawn);
      start, model, history, owned, trees := w, Adapter.Init(1, w), [], {}, {};
      earlier, mark := controllers.log, sidStore.operations;
      Adapter.ExecNothing(Adapter.Init(1, w));
    }

    /** The model is in step with the object, and the queued configurations are private copies. */
    ghost predicate Linked()
      reads this, owned, trees, cache.Values, sidStore, pool, controllers
    {
      && Valid() && pool.Valid() && Accounted()
      && Adapter.Exec(Adapter.Init(1, start), history) == Some(model)
      && model.world == World() && model.box.busy == busy
      && |model.box.producers| == 1 && Lined(model.box.queue, model.forests)
    }

    /** What the model's history says of the builds of the last attempt. */
    ghost function Trail(): PushCycle.Trail
      reads this`history
    {
      Adapter.TrailOf(Adapter.Init(1, start), history)
    }

    /** Every operation of the SID store has succeeded since the last attempt began, and the synthetic
        addresses sufficed. */
    ghost predicate Supplied()
      reads this`mark, this`model, sidStore, pool
    {
      && sidStore.AllReported(mark)
      && (model.last.Returned? ==> ForestAddressable(ip, Adapter.ForestOf(model, model.last.update), pool.drawn))
    }

    /** Its builds were told the SIDs of the store, and left out no switch for any other reason; and the
        requests made to the controllers are those of the model. */
    ghost predicate Accounted()
      reads this`history, this`mark, this`model, sidStore, pool, controllers`log
      requires Valid()
    {
      && controllers.log == earlier + Adapter.RequestsIn(Adapter.Init(1, start), history)
      && Adapter.ToldFrom(Trail(), sidStore.Sids())
      && (Supplied() && model.last.Returned? ==>
            Adapter.Complete(Trail(), Adapter.ForestOf(model, model.last.update)))
    }

    /** The channel holds private copies of the configurations that are queued in the model. */
    ghost predicate Lined(queue: seq<Mailbox.Ticket>, forests: seq<PushCycle.Forest>)
      reads this`updateChannel, this`owned, this`trees, owned, trees
    {
      && |updateChannel| == |queue| <= 1
      && forall i | 0 <= i < |updateChannel| :: Queued(updateChannel[i].config, Adapter.ForestIn(forests, queue[i]))
    }

    ghost predicate Queued(config: ConfigForest, forest: PushCycle.Forest)
      reads this`owned, this`trees, owned, trees
    {
      && config in owned && config.configs.Values <= trees
      && config.View() == forest && ForestManaged(forest)
    }

    /** A step of the model, to go with what has just been done. */
    ghost method Take(step: Adapter.Step)
      requires Adapter.Exec(Adapter.Init(1, start), history) == Some(model) && Adapter.Enabled(model, step)
      requires Valid() && Accounted() && (step.Enqueue? || step.Box? || step.Invalidate?)
      modifies this`history, this`model
      ensures Adapter.Exec(Adapter.Init(1, start), history) == Some(model) && Accounted()
      ensures model == Adapter.Apply(old(model), step) && history == old(history) + [step]
    {
      hide Adapter.Exec, Adapter.Enabled, Adapter.TrailOf, SidStore.View, ForestAddressable, Adapter.Complete,
           Adapter.ToldFrom, Adapter.RequestsIn, Mailbox.Enabled, Mailbox.Apply;
      Adapter.ExecStep(Adapter.Init(1, start), history, model, step);
      Adapter.TrailStep(Adapter.Init(1, start), history, model, step);
      Adapter.RequestsStep(Adapter.Init(1, start), history, model, step);
      Adapter.QueuedForests(start, history, model, if step.Enqueue? then step.forest else map[]);
      ghost var t, s := Trail(), model;
      history, model := history + [step], Adapter.Apply(model, step);
      assert model.last == s.last
             && (s.last.Returned? ==> Adapter.ForestOf(model, s.last.update) == Adapter.ForestOf(s, s.last.update));
      SameBuilds(t, Trail(), if s.last.Returned? then Adapter.ForestOf(s, s.last.update) else map[], sidStore.Sids());
    }

    // ---------- the push cache ----------

    method CacheCheck(modelName: string, modelID: string, contents: OnosNetConfig) returns (same: bool)
      ensures var key := modelName + "-" + modelID;
              same <==> key in CacheContents() && CacheContents()[key] == contents.View()
    {
      var key := modelName + "-" + modelID;
      if key !in cache {
        return false;
      }
      var entry := cache[key];
      same := entry.devices == contents.devices && entry.ports == contents.ports && entry.apps == contents.apps;
    }

    method CacheUpdate(modelName: string, modelID: string, contents: OnosNetConfig)
      modifies this`cache
      ensures cache == old(cache)[modelName + "-" + modelID := contents]
      ensures CacheContents() == old(CacheContents())[modelName + "-" + modelID := contents.View()]
    {
      var key := modelName + "-" + modelID;
      cache := cache[key := contents];
    }

    /** A step of its own: it may happen while an attempt is under way. */
    method CacheInvalidate()
      requires Linked()
      modifies this`cache, this`history, this`model
      ensures Linked() && history == old(history) + [Adapter.Invalidate]
      ensures cache == map[] && model == old(model).(world := World())
    {
      hide Adapter.Exec, Accounted, Valid, ForestManaged;
      cache := map[];
      Take(Adapter.Invalidate);
    }

    method CacheDelete(modelName: string, modelID: string)
      modifies this`cache
      ensures CacheContents() == old(CacheContents()) - {modelName + "-" + modelID}
    {
      var key := modelName + "-" + modelID;
      cache := cache - {key};
    }

    // ---------- one fabric ----------

    /** Pushes a netconfig, unless partial updates are enabled and the cache holds an equal one. */
    method PushUnlessCached(scope: FabricScope, ghost a: PushCycle.Attempt)
        returns (pushFailures: nat, ghost steps: seq<PushCycle.Step>)
      requires Valid() && a.phase == PushCycle.Built(scope.fabricId, scope.netConfig.View())
      modifies this`cache, controllers`onos, controllers`log
      ensures Valid() && pushFailures <= 1 && PushCycle.BuildsNothing(steps) && old(controllers.log) <= controllers.log
      ensures cache.Values <= old(cache.Values) + {scope.netConfig}
      ensures PushedUnlessCached(partialUpdateEnable, scope.fabricId, scope.netConfig.View(),
                                 controllers.ends(|old(controllers.log)|), old(World()), World(),
                                 controllers.Since(|old(controllers.log)|), pushFailures)
      ensures PushCycle.Ran(PushCycle.Cycle.Cycle(old(World()), a), steps, controllers.Since(|old(controllers.log)|),
                            PushCycle.Cycle.Cycle(World(), a.(failures := a.failures + pushFailures,
                                                             phase := PushCycle.OnosDone(scope.fabricId))))
    {
      hide PushCycle.BuildsNothing, PushCycle.Ran, PushCycle.Enabled, PushCycle.Apply, SidStore.View,
           SidStore.WellFormed, Conforms, Controllers.Valid, Synchronizer.CacheContents;
      ghost var w0 := World();
      assert CACHE_MODEL_NETCONFIG + "-" + scope.fabricId == PushCycle.CacheKey(scope.fabricId);
      hide PushCycle.CacheKey;
      var same := CacheCheck(CACHE_MODEL_NETCONFIG, scope.fabricId, scope.netConfig);
      if partialUpdateEnable && same {
        steps := PushCycle.CacheHit(w0, a);
        return 0, steps;
      }
      var data := NetConfig(scope.netConfig.devices, scope.netConfig.ports, scope.netConfig.apps);
      var effect := controllers.PostNetConfig(scope.fabricId, data);
      steps := PushCycle.CacheMissed(w0, a, effect);
      assert controllers.Since(|old(controllers.log)|) == [PushCycle.NetConfigPost(scope.fabricId, data, effect)];
      if !effect.Reported() {
        return 1, steps;
      }
      CacheUpdate(CACHE_MODEL_NETCONFIG, scope.fabricId, scope.netConfig);
      pushFailures := 0;
    }

    /** Builds the netconfig of a fabric, once, and pushes it if it has to. Whatever switch is missing
        from it is one for which the SID store did not answer, or came too late for a synthetic address. */
    method SynchronizeFabricToOnos(scope: FabricScope, ghost a: PushCycle.Attempt)
        returns (pushFailures: nat, ghost steps: seq<PushCycle.Step>, ghost order: seq<string>,
                 ghost answered: set<string>)
      requires Valid() && pool.Valid() && scope.netConfig !in cache.Values
      requires scope.netConfig.View() == NetConfig(map[], map[], map[])
      requires a.phase.Between? && scope.fabricId in a.todo
      requires scope.fabricId in a.forest && a.forest[scope.fabricId] == scope.fabric
      modifies this`cache, sidStore, pool, controllers`onos, controllers`log, scope, scope.netConfig
      ensures Valid() && pool.Valid() && pushFailures <= 1 && old(controllers.log) <= controllers.log
      ensures old(sidStore.operations) <= sidStore.operations && old(pool.drawn) <= pool.drawn
      ensures Extends(old(sidStore.Sids()), sidStore.Sids())
      ensures steps != [] && steps[0].Build? && steps[0].fabric == scope.fabricId && PushCycle.BuildsNothing(steps[1..])
      ensures steps[0].nc == scope.netConfig.View() && steps[0].sids == sidStore.Sids()
      ensures SwitchOrder(scope.fabric, order) && steps[0].done <= Eligible(scope.fabric)
      ensures AskAll(sidStore.ends, scope.fabric, order, old(sidStore.Contents()))
              == Asked(sidStore.Contents(), answered)
      ensures Excused(ip, scope.fabric, Eligible(scope.fabric) - steps[0].done, answered, pool.drawn)
      ensures cache.Values <= old(cache.Values) + {scope.netConfig}
      ensures PushedUnlessCached(partialUpdateEnable, scope.fabricId, scope.netConfig.View(),
                                 controllers.ends(|old(controllers.log)|), old(World()), World(),
                                 controllers.Since(|old(controllers.log)|), pushFailures)
      ensures PushCycle.Ran(PushCycle.Cycle.Cycle(old(World()), a), steps, controllers.Since(|old(controllers.log)|),
                            PushCycle.Cycle.Cycle(World(), a.(failures := a.failures + pushFailures,
                                                             phase := PushCycle.OnosDone(scope.fabricId))))
    {
      hide Excused, Eligible, PushCycle.BuildsNothing, PushCycle.Ran, PushCycle.Enabled, PushCycle.Apply,
           BuiltBetween, Extends, SidStore.View, SidStore.WellFormed, Conforms, AskAll, SwitchOrder;
      ghost var w0 := World();
      ghost var done;
      done, order, answered := BuildFabric(scope);
      ghost var nc, sids, next := scope.netConfig.View(), sidStore.Sids(), pool.drawn;
      ghost var a1, more := a.(phase := PushCycle.Built(scope.fabricId, nc)), [];
      pushFailures, more := PushUnlessCached(scope, a1);
      steps := PushCycle.BuiltThen(w0, a, scope.fabricId, done, nc, sids, next, more,
                                   controllers.Since(|old(controllers.log)|), PushCycle.Cycle.Cycle(World(),
                 a1.(failures := a1.failures + pushFailures, phase := PushCycle.OnosDone(scope.fabricId))));
    }

    /** What the build asks of the SID store, and what it draws, is what the model says. */
    method BuildFabric(scope: FabricScope)
        returns (ghost done: set<string>, ghost order: seq<string>, ghost answered: set<string>)
      requires Valid() && pool.Valid() && scope.netConfig !in cache.Values
      requires scope.netConfig.View() == NetConfig(map[], map[], map[])
      modifies sidStore, pool, scope, scope.netConfig
      ensures Valid() && pool.Valid() && World() == old(World()).(next := pool.drawn)
      ensures old(sidStore.operations) <= sidStore.operations && old(pool.drawn) <= pool.drawn
      ensures Extends(old(sidStore.Sids()), sidStore.Sids())
      ensures BuiltBetween(ip, scope.fabric, done, sidStore.Sids(), scope.netConfig.View(), old(pool.drawn), pool.drawn)
      ensures SwitchOrder(scope.fabric, order) && done <= Eligible(scope.fabric)
      ensures AskAll(sidStore.ends, scope.fabric, order, old(sidStore.Contents()))
              == Asked(sidStore.Contents(), answered)
      ensures Excused(ip, scope.fabric, Eligible(scope.fabric) - done, answered, pool.drawn)
    {
      hide Excused, Eligible, NetConfigFrom, DrawnAs, DevicesDrawn, DistinctWithin, Extends, SidStore.View,
           SidStore.WellFormed, Conforms, Remaining, AskAll, DrawAll, SwitchOrder;
      ghost var drawn;
      done, drawn, order, answered := BuildNetConfig(ip, sidStore, pool, scope);
      AllAnswered(sidStore.ends, scope.fabric, order, old(sidStore.Contents()));
      DoneIsEligible(ip, scope.fabric, done, sidStore.Sids(), scope.netConfig.View());
      BuildDated(ip, scope.fabric, done, sidStore.Sids(), scope.netConfig.View(), old(pool.drawn), pool.drawn);
      assert CacheContents() == old(CacheContents());
    }

    /** Builds and pushes the chassis configuration of one switch. */
    method PushSwitch(scope: FabricScope, k: string) returns (effect: Effect)
      requires k in scope.fabric.switches && ModelKnown(scope.fabric, scope.fabric.switches[k])
      requires Valid() && Managed(scope.fabric.switches[k])
      requires scope.model == Some(ModelOf(scope.fabric, scope.fabric.switches[k]))
      modifies controllers`chassis, controllers`log, scope
      ensures ChassisFrom(scope.fabric, k, scope.chassis)
      ensures Valid() && effect == controllers.ends(|old(controllers.log)|)
      ensures World() == old(World()).(chassis := controllers.chassis)
      ensures controllers.log
              == old(controllers.log) + [PushCycle.ChassisSet(scope.fabricId, k, scope.chassis, effect)]
      ensures controllers.chassis ==
              if effect.Happened() then old(controllers.chassis)[(scope.fabricId, k) := scope.chassis]
              else old(controllers.chassis)
    {
      hide Conforms, SidStore.WellFormed, Controllers.Valid, ChassisOf, Synchronizer.CacheContents;
      var fabric := scope.fabric;
      scope.chassis := EMPTY_CHASSIS;
      scope.sw := Some(fabric.switches[k]);
      var handled := HandleStratumSwitch(scope);
      effect := controllers.SetChassis(scope.fabricId, k, scope.chassis);
    }

    /** Pushes the chassis configurations of the switches with a known model, in the order of their
        keys, up to the first one that fails. */
    method SynchronizeFabricToStratum(scope: FabricScope, ghost a: PushCycle.Attempt)
        returns (pushFailures: nat, ghost steps: seq<PushCycle.Step>, ghost order: seq<string>, ghost pushed: nat)
      requires Valid() && AllManaged(scope.fabric)
      requires a.phase == PushCycle.OnosDone(scope.fabricId)
      requires scope.fabricId in a.forest && a.forest[scope.fabricId] == scope.fabric
      modifies controllers`chassis, controllers`log, scope
      ensures Valid() && pushFailures <= 1 && PushCycle.BuildsNothing(steps) && old(controllers.log) <= controllers.log
      ensures Sorted(order) && forall k :: k in order <==> k in KnownSwitches(scope.fabric)
      ensures pushed <= |order| && (pushFailures == 0 <==> pushed == |order|)
      ensures var requests := controllers.Since(|old(controllers.log)|);
              && |requests| == pushed + pushFailures && Sent(scope.fabric, scope.fabricId, order, requests)
              && (forall i | 0 <= i < pushed :: requests[i].effect.Reported())
              && (pushFailures == 1 ==> !Last(requests).effect.Reported())
      ensures PushedPrefix(scope.fabric, scope.fabricId, order, pushed, old(controllers.chassis), controllers.chassis)
      ensures PushCycle.Ran(PushCycle.Cycle.Cycle(old(World()), a), steps, controllers.Since(|old(controllers.log)|),
                            PushCycle.Cycle.Cycle(World(), a.(failures := a.failures + pushFailures, todo := a.todo
                                                             - {scope.fabricId}, phase := PushCycle.Between)))
    {
      hide PushCycle.Ran, ChassisFrom, Pushing, KnownSwitches, AllManaged, PushedPrefix, Sorted, ModelKnown, Managed,
           PushCycle.BuildsNothing, Sent, Valid, World, OnosNetConfig.View;
      var fabric := scope.fabric;
      var switchIDKeys := SortedKeys(fabric.switches.Keys);
      ghost var w0, first := World(), |controllers.log|;
      steps, order := ListedSwitches(w0, a, scope.fabricId, fabric, switchIDKeys);
      pushed := 0;
      assert switchIDKeys[0..] == switchIDKeys && controllers.Since(first) == [];
      for i := 0 to |switchIDKeys|
        invariant Valid() && World() == w0.(chassis := controllers.chassis) && old(controllers.log) <= controllers.log
        invariant pushed <= |order|
                  && Pushing(w0, a, scope.fabricId, fabric, steps, controllers.Since(first), order, pushed,
                             switchIDKeys[i..], controllers.chassis)
      {
        var k := switchIDKeys[i];
        assert switchIDKeys[i..][0] == k && switchIDKeys[i..][1..] == switchIDKeys[i + 1..];
        ghost var chassis, requests := controllers.chassis, controllers.Since(first);
        assert k in switchIDKeys;
        scope.model := LookupSwitchModel(fabric, fabric.switches[k].modelId);
        if scope.model.None? {
          SkippedUnknown(w0, a, scope.fabricId, fabric, steps, requests, order, pushed, switchIDKeys[i..], chassis);
          continue;
        }
        IsManaged(fabric, k);
        var effect := PushSwitch(scope, k);
        assert controllers.Since(first)
               == requests + [PushCycle.ChassisSet(scope.fabricId, k, scope.chassis, effect)];
        PushedNext(w0, a, scope.fabricId, fabric, steps, requests, order, pushed, switchIDKeys[i..], chassis,
                   scope.chassis, effect);
        SomeSent(w0, a, scope.fabricId, fabric, steps, requests, order, pushed, switchIDKeys[i..], chassis);
        steps := steps + [PushCycle.PushChassis(scope.chassis, effect)];
        if !effect.Reported() {
          return 1, steps, order, pushed;
        }
        pushed := pushed + 1;
      }
      SomeSent(w0, a, scope.fabricId, fabric, steps, controllers.Since(first), order, pushed, [], controllers.chassis);
      steps := PushedAll(w0, a, scope.fabricId, fabric, steps, controllers.Since(first), order, pushed, [],
                         controllers.chassis);
      pushFailures := 0;
    }

    // ---------- one attempt ----------

    /** One fabric, built into a fresh netconfig: first ONOS, then, whether or not that succeeded, the
        Stratum switches. */
    method SynchronizeFabric(fabricID: string, fabric: Fabric, ghost a: PushCycle.Attempt)
        returns (failures: nat, ghost steps: seq<PushCycle.Step>)
      requires Valid() && pool.Valid() && AllManaged(fabric) && a.phase.Between? && fabricID in a.todo
      requires fabricID in a.forest && a.forest[fabricID] == fabric
      modifies this`cache, sidStore, pool, controllers`onos, controllers`chassis, controllers`log
      ensures Valid() && pool.Valid() && failures <= 2 && old(controllers.log) <= controllers.log
      ensures old(sidStore.operations) <= sidStore.operations && old(pool.drawn) <= pool.drawn
      ensures Extends(old(sidStore.Sids()), sidStore.Sids()) && PushCycle.AllTold(steps, sidStore.Sids())
      ensures forall n: nat | n <= old(sidStore.operations) ::
                sidStore.AllReported(n) <==>
                old(sidStore.AllReported(n)) && sidStore.AllReported(old(sidStore.operations))
      ensures sidStore.AllReported(old(sidStore.operations)) && Addressable(ip, fabric, pool.drawn) ==>
                PushCycle.AllComplete(a.forest, steps)
      ensures forall v | v in cache.Values :: v in old(cache.Values) || fresh(v)
      ensures PushCycle.Ran(PushCycle.Cycle.Cycle(old(World()), a), steps, controllers.Since(|old(controllers.log)|),
                            PushCycle.Cycle.Cycle(World(), a.(failures := a.failures + failures,
                                                             todo := a.todo - {fabricID}, phase := PushCycle.Between)))
    {
      hide PushCycle.Ran, PushCycle.Enabled, PushCycle.Apply, SidStore.View, SidStore.WellFormed, Conforms,
           AllManaged, KnownSwitches, Sorted, PushedPrefix, Excused, Eligible, PushCycle.BuildsNothing,
           PushCycle.AllComplete, PushCycle.AllTold, Addressable, Extends, AskAll, SwitchOrder, Sent,
           PushedUnlessCached, Valid, World, OnosNetConfig.View, SidStore.SIDAtomixStore.Valid,
           SidStore.SIDAtomixStore.Sids, SidStore.SIDAtomixStore.Contents;
      ghost var c0 := PushCycle.Cycle.Cycle(World(), a);
      var scope := new FabricScope(fabricID, fabric);
      ghost var first, second, switches, answered, order, pushed;
      var pushFailures, pushStratumFailures;
      pushFailures, first, switches, answered := SynchronizeFabricToOnos(scope, a);
      ghost var log1, requests := controllers.log, controllers.Since(|old(controllers.log)|);
      ghost var c1 := PushCycle.Cycle.Cycle(World(), a.(failures := a.failures + pushFailures,
                                                       phase := PushCycle.OnosDone(fabricID)));
      pushStratumFailures, second, order, pushed := SynchronizeFabricToStratum(scope, c1.attempt);
      failures := pushFailures + pushStratumFailures;
      PushCycle.RanConcat(c0, first, requests, c1, second, controllers.Since(|log1|),
                          PushCycle.Cycle.Cycle(World(), a.(failures := a.failures + failures,
                                                           todo := a.todo - {fabricID},
                                                           phase := PushCycle.Between)));
      assert requests + controllers.Since(|log1|) == controllers.Since(|old(controllers.log)|);
      steps := first + second;
      if sidStore.AllReported(old(sidStore.operations)) && Addressable(ip, fabric, pool.drawn) {
        NothingMissed(ip, fabric, first[0].done, sidStore.ends, switches, old(sidStore.Contents()), pool.drawn);
      }
      OneBuild(a, fabricID, first, second, sidStore.Sids());
    }

    /** Synchronizes every fabric of a configuration, in any order, and counts the requests that were not
        reported to have succeeded. If a controller cannot be found it gives up with an error. A netconfig
        that is in the cache is never written to again: every fabric is built into a fresh one. */
    method SynchronizeDevice(forest: PushCycle.Forest)
        returns (pushFailuresTotal: nat, err: bool, ghost a: PushCycle.Attempt, ghost steps: seq<PushCycle.Step>)
      requires Valid() && pool.Valid() && ForestManaged(forest)
      modifies this`cache, sidStore, pool, controllers
      ensures Valid() && pool.Valid() && old(controllers.log) <= controllers.log
      ensures old(sidStore.operations) <= sidStore.operations && old(pool.drawn) <= pool.drawn
      ensures Extends(old(sidStore.Sids()), sidStore.Sids()) && PushCycle.AllTold(steps, sidStore.Sids())
      ensures sidStore.AllReported(old(sidStore.operations)) && ForestAddressable(ip, forest, pool.drawn) ==>
                PushCycle.AllComplete(forest, steps)
      ensures PushCycle.Ran(PushCycle.Cycle.Cycle(old(World()), PushCycle.Fresh(forest)), steps,
                            controllers.Since(|old(controllers.log)|), PushCycle.Cycle.Cycle(World(), a))
      ensures a.forest == forest && a.phase.Between? && a.todo <= forest.Keys && (err <==> a.todo != {})
      ensures pushFailuresTotal == if err then 0 else PushCycle.Unreported(controllers.Since(|old(controllers.log)|))
      ensures pushFailuresTotal == if err then 0 else a.failures
      ensures err <==> !controllers.AllFound(old(controllers.lookups))
      ensures controllers.lookups == old(controllers.lookups) + DealtWith(forest, a.todo) + if err then 1 else 0
      ensures forall v | v in old(cache.Values) :: v.View() == old(v.View())
      ensures forall v | v in cache.Values :: v in old(cache.Values) || fresh(v)
    {
      hide PushCycle.Ran, AllManaged, PushCycle.AllComplete, PushCycle.AllTold, Addressable, ForestAddressable,
           Extends, World, Valid, SidStore.SIDAtomixStore.Valid, SidStore.SIDAtomixStore.Sids, PushCycle.Unreported,
           SoFar, OnosNetConfig.View, DealtWith, Controllers.AllFound, SidStore.SIDAtomixStore.AllReported;
      ghost var c0, log0 := PushCycle.Cycle.Cycle(World(), PushCycle.Fresh(forest)), controllers.log;
      ghost var sids0, asked0 := sidStore.Sids(), sidStore.operations;
      ExtendsItself(sids0);
      pushFailuresTotal, steps, a := 0, [], PushCycle.Fresh(forest);
      var todo := forest.Keys;
      assert controllers.Since(|log0|) == [];
      NoFabrics(ip, forest, c0, sids0, pool.drawn, sidStore.AllReported(asked0));
      while todo != {}
        invariant Valid() && pool.Valid() && todo <= forest.Keys
        invariant asked0 <= sidStore.operations && old(pool.drawn) <= pool.drawn && log0 <= controllers.log
        invariant Extends(sids0, sidStore.Sids())
        invariant a == PushCycle.Attempt(forest, todo, pushFailuresTotal, PushCycle.Between)
        invariant SoFar(ip, forest, c0, steps, controllers.Since(|log0|), PushCycle.Cycle.Cycle(World(), a),
                        sidStore.Sids(), pool.drawn, sidStore.AllReported(asked0))
        invariant controllers.AllFound(old(controllers.lookups))
        invariant controllers.lookups == old(controllers.lookups) + DealtWith(forest, todo)
        invariant forall v | v in cache.Values :: v in old(cache.Values) || fresh(v)
      {
        var fabricID :| fabricID in todo;
        var found := controllers.LookUp(fabricID);
        if !found {
          AllFabrics(ip, forest, c0, steps, controllers.Since(|log0|), PushCycle.Cycle.Cycle(World(), a),
                     sidStore.Sids(), pool.drawn, sidStore.AllReported(asked0));
          return 0, true, a, steps;
        }
        OneMoreDealtWith(forest, todo, fabricID);
        ghost var c1, more, requests := PushCycle.Cycle.Cycle(World(), a), [], controllers.Since(|log0|);
        ghost var asked, count, sids, log := sidStore.operations, pool.drawn, sidStore.Sids(), controllers.log;
        ghost var reported := sidStore.AllReported(asked0);
        var failures;
        failures, more := SynchronizeFabric(fabricID, forest[fabricID], a);
        a := a.(failures := a.failures + failures, todo := a.todo - {fabricID}, phase := PushCycle.Between);
        assert requests + controllers.Since(|log|) == controllers.Since(|log0|);
        assert sidStore.AllReported(asked0) ==> reported && sidStore.AllReported(asked);
        OneMoreFabric(ip, forest, fabricID, c0, steps, requests, c1, sids, count, reported, more,
                      controllers.Since(|log|), PushCycle.Cycle.Cycle(World(), a), sidStore.Sids(), pool.drawn,
                      sidStore.AllReported(asked0));
        ExtendsOn(sids0, sids, sidStore.Sids());
        steps := steps + more;
        pushFailuresTotal := pushFailuresTotal + failures;
        todo := todo - {fabricID};
      }
      AllFabrics(ip, forest, c0, steps, controllers.Since(|log0|), PushCycle.Cycle.Cycle(World(), a),
                 sidStore.Sids(), pool.drawn, sidStore.AllReported(asked0));
      err := false;
    }

    // ---------- the mailbox ----------

    /** Takes every queued update off the channel and off the busy count. */
    method Drain()
      requires Linked() && model.box.producers[0].Draining?
      modifies this`busy, this`updateChannel, this`history, this`model
      ensures Linked() && history == old(history) + DrainSteps(|old(updateChannel)|)
      ensures updateChannel == [] && busy == old(busy) - |old(updateChannel)|
      ensures model == old(model).(box := old(model.box).(busy := busy, queue := [], ledger := model.box.ledger))
      ensures var l := old(model.box.ledger);
              model.box.ledger == l.(drained := l.drained + multiset(old(model.box.queue)))
    {
      hide Adapter.Exec, Accounted, Queued, Valid, World;
      while updateChannel != []
        invariant history == old(history) + DrainSteps(|old(updateChannel)| - |updateChannel|)
        invariant Linked() && |updateChannel| <= |old(updateChannel)| <= 1 && model.box.producers[0].Draining?
        invariant |updateChannel| == |model.box.queue|
        invariant busy - |updateChannel| == old(busy) - |old(updateChannel)|
        invariant model == old(model).(box := old(model.box).(busy := busy, queue := model.box.queue,
                                                              ledger := model.box.ledger))
        invariant var l := old(model.box.ledger);
                  model.box.ledger.(drained := model.box.ledger.drained + multiset(model.box.queue))
                  == l.(drained := l.drained + multiset(old(model.box.queue)))
        decreases |updateChannel|
      {
        DrainOne();
      }
    }

    method DrainOne()
      requires Linked() && model.box.producers[0].Draining? && updateChannel != []
      modifies this`busy, this`updateChannel, this`history, this`model
      ensures Linked() && history == old(history) + DrainSteps(1)
      ensures |updateChannel| == |model.box.queue| == 0 && |old(updateChannel)| == 1 && busy == old(busy) - 1
      ensures model == old(model).(box := old(model.box).(busy := busy, queue := [], ledger := model.box.ledger))
      ensures var l := old(model.box.ledger);
              model.box.ledger == l.(drained := l.drained + multiset(old(model.box.queue)))
    {
      hide Adapter.Exec, Accounted, PushCycle.Enabled, PushCycle.Apply, Valid, World;
      ghost var u := model.box.queue[0];
      assert model.box.queue == [u];
      updateChannel := updateChannel[1..];
      Take(Adapter.Box(Mailbox.DrainReceive(0)));
      busy := busy - 1;
      Take(Adapter.Box(Mailbox.DrainDecrement(0)));
    }

    /** Copies every configuration tree, in any order, unless one of them cannot be copied. */
    method DeepCopy(config: ConfigForest) returns (copy: Option<ConfigForest>)
      ensures copy.Some? <==> config.Copyable()
      ensures copy.Some? ==>
                && fresh(copy.value) && (forall g | g in copy.value.configs.Values :: fresh(g))
                && copy.value.View() == config.View()
    {
      var configCopy := new ConfigForest();
      var todo := config.configs.Keys;
      while todo != {}
        invariant todo <= config.configs.Keys && fresh(configCopy)
        invariant configCopy.configs.Keys == config.configs.Keys - todo
        invariant forall f | f in configCopy.configs ::
                    config.configs[f].copyable && fresh(configCopy.configs[f])
                    && configCopy.configs[f].fabric == config.configs[f].fabric
      {
        var f :| f in todo;
        var tree := config.configs[f].DeepCopy();
        if tree.None? {
          return None;
        }
        configCopy.configs := configCopy.configs[f := tree.value];
        todo := todo - {f};
      }
      copy := Some(configCopy);
    }

    /** Queues a private copy of a configuration in place of whatever is queued. */
    method Enqueue(config: ConfigForest, callbackType: CallbackType, target: string) returns (failed: bool)
      requires Linked() && model.box.producers == [Mailbox.Idle] && ForestManaged(config.View())
      modifies this`busy, this`updateChannel, this`history, this`model, this`owned, this`trees
      ensures Linked() && fresh(owned - old(owned)) && fresh(trees - old(trees))
      ensures failed <==> !config.Copyable()
      ensures history == old(history) + if failed then [] else EnqueueSteps(config.View(), |old(updateChannel)|)
      ensures failed ==> updateChannel == old(updateChannel) && busy == old(busy) && model == old(model)
      ensures !failed ==>
                && |updateChannel| == 1 && busy == old(busy) + 1 - |old(updateChannel)|
                && updateChannel[0].callbackType == callbackType && updateChannel[0].target == target
                && fresh(updateChannel[0].config) && updateChannel[0].config.View() == config.View()
                && model.forests == old(model.forests) + [config.View()]
                && model == old(model).(box := model.box, forests := model.forests)
                && model.box.producers == [Mailbox.Idle] && model.box.consumer == old(model.box.consumer)
                && model.box.ledger.sent == old(model.box.ledger.sent) + [|model.forests|]
                && SameService(old(model.box.ledger), model.box.ledger)
    {
      hide Linked, World, ForestManaged, ConfigForest.View, ConfigForest.Copyable, DrainSteps, EnqueueSteps;
      ghost var forest := config.View();
      var copy := DeepCopy(config);
      if copy.None? {
        return true;
      }
      var update := ConfigUpdate(copy.value, callbackType, target);
      Increment(forest);
      Drain();
      Send(update);
      InOrder(old(history), forest, |old(updateChannel)|);
      failed := false;
    }

    method Increment(ghost forest: PushCycle.Forest)
      requires Linked() && model.box.producers == [Mailbox.Idle]
      modifies this`busy, this`history, this`model
      ensures Linked() && history == old(history) + [Adapter.Enqueue(0, forest)] && busy == old(busy) + 1
      ensures model.forests == old(model.forests) + [forest]
      ensures model.box.producers == [Mailbox.Draining(|model.forests|)] && model.box.queue == old(model.box.queue)
      ensures model == old(model).(forests := model.forests, box := old(model.box).(busy := busy,
                                   producers := model.box.producers, ledger := model.box.ledger))
      ensures model.box.ledger == old(model.box.ledger).(issued := |model.forests|)
    {
      hide Adapter.Exec, Accounted, PushCycle.Enabled, PushCycle.Apply, Valid, World, ForestManaged;
      Adapter.QueuedForests(start, history, model, forest);
      busy := busy + 1;
      Take(Adapter.Enqueue(0, forest));
    }

    /** The send on the channel, which has just been drained. */
    method Send(update: ConfigUpdate)
      requires Linked() && updateChannel == [] && model.forests != []
      requires model.box.producers == [Mailbox.Draining(|model.forests|)]
      requires update.config.View() == Last(model.forests) && ForestManaged(update.config.View())
      modifies this`updateChannel, this`history, this`model, this`owned, this`trees
      ensures Linked() && updateChannel == [update]
      ensures history == old(history) + [Adapter.Box(Mailbox.DrainEmpty(0)), Adapter.Box(Mailbox.Send(0))]
      ensures owned == old(owned) + {update.config} && trees == old(trees) + update.config.configs.Values
      ensures model == old(model).(box := old(model.box).(queue := model.box.queue, producers := [Mailbox.Idle],
                                   ledger := model.box.ledger))
      ensures model.box.ledger == old(model.box.ledger).(sent := old(model.box.ledger.sent) + [|model.forests|])
    {
      hide Adapter.Exec, Accounted, PushCycle.Enabled, PushCycle.Apply, Valid, World, ForestManaged;
      Take(Adapter.Box(Mailbox.DrainEmpty(0)));
      updateChannel := [update];
      owned, trees := owned + {update.config}, trees + update.config.configs.Values;
      Take(Adapter.Box(Mailbox.Send(0)));
    }

    /** Waits for an update; called when there is one. */
    method Dequeue() returns (update: ConfigUpdate)
      requires Linked() && model.box.consumer.Waiting? && updateChannel != []
      modifies this`updateChannel, this`history, this`model
      ensures Linked() && history == old(history) + [Adapter.Box(Mailbox.Dequeue)]
      ensures updateChannel == old(updateChannel)[1..] && update == old(updateChannel)[0]
      ensures model.box.consumer.Holding? && Serves(update)
      ensures model.forests == old(model.forests) && model.box.producers == old(model.box.producers)
      ensures busy == old(busy)
      ensures model.box.ledger.served == old(model.box.ledger.served) + [model.box.consumer.update]
    {
      hide Adapter.Exec, Accounted, PushCycle.Enabled, PushCycle.Apply, Valid, World, ForestManaged;
      Adapter.QueuedForests(start, history, model, map[]);
      update := updateChannel[0];
      updateChannel := updateChannel[1..];
      Take(Adapter.Box(Mailbox.Dequeue));
    }

    /** `update` is the one in service. */
    ghost predicate Serves(update: ConfigUpdate)
      reads this`model, update.config, update.config.configs.Values
    {
      && !model.box.consumer.Waiting? && 1 <= model.box.consumer.update <= |model.forests|
      && update.config.View() == model.forests[model.box.consumer.update - 1] && ForestManaged(update.config.View())
    }

    method Complete()
      requires Linked() && model.box.consumer.Finishing?
      modifies this`busy, this`history, this`model
      ensures Linked() && history == old(history) + [Adapter.Box(Mailbox.Complete)] && busy == old(busy) - 1
      ensures model.box.consumer == Mailbox.Waiting && model.box.producers == old(model.box.producers)
      ensures model.forests == old(model.forests) && model.last == old(model.last)
      ensures model.box.ledger.served == old(model.box.ledger.served)
    {
      hide Adapter.Exec, Accounted, PushCycle.Enabled, PushCycle.Apply, Valid, World, ForestManaged;
      busy := busy - 1;
      Take(Adapter.Box(Mailbox.Complete));
    }

    method NewUpdatesPending() returns (pending: bool)
      requires Linked() && model.box.consumer.Holding?
      modifies this`history, this`model
      ensures Linked() && history == old(history) + [Adapter.Box(Mailbox.CheckPending)]
      ensures (pending <==> updateChannel != []) && InQueue() == old(InQueue())
      ensures var u := old(model.box.consumer.update);
              model == old(model).(box := old(model.box).(consumer :=
                         if pending then Mailbox.Finishing(u, Mailbox.Obsoleted) else Mailbox.Cleared(u)))
    {
      hide Adapter.Exec, Accounted, PushCycle.Enabled, PushCycle.Apply, Valid, World, ForestManaged;
      pending := |updateChannel| > 0;
      Take(Adapter.Box(Mailbox.CheckPending));
    }

    /** True exactly when nothing is queued, being queued or in service. */
    method IsIdle() returns (idle: bool)
      requires Linked()
      ensures idle <==> Mailbox.Quiet(model.box)
      ensures idle ==> updateChannel == []
    {
      hide Adapter.Exec, Valid, World, Mailbox.Reachable;
      Adapter.CoherentThroughout(1, start, history, model);
      Mailbox.BusyConserved(1, model.box);
      idle := busy == 0;
    }

    // ---------- the producer's side ----------

    /** Called by the gNMI server. A Forced update empties the cache first; a deletion is handled
        elsewhere, which does nothing yet. */
    method Synchronize(config: ConfigForest, callbackType: CallbackType, target: string) returns (failed: bool)
      requires Linked() && model.box.producers == [Mailbox.Idle] && ForestManaged(config.View())
      modifies this`cache, this`busy, this`updateChannel, this`history, this`model, this`owned, this`trees
      ensures Linked() && fresh(owned - old(owned)) && fresh(trees - old(trees))
      ensures cache == if callbackType.Forced? then map[] else old(cache)
      ensures model.box.producers == [Mailbox.Idle] && model.box.consumer == old(model.box.consumer)
      ensures old(model.forests) <= model.forests && model.last == old(model.last)
              && model.attempt == old(model.attempt) && SameService(old(model.box.ledger), model.box.ledger)
      ensures failed <==> !callbackType.Deleted? && !config.Copyable()
      ensures history == old(history)
                         + (if callbackType.Forced? then [Adapter.Invalidate] else [])
                         + if callbackType.Deleted? || failed then []
                           else EnqueueSteps(config.View(), |old(updateChannel)|)
      ensures callbackType.Deleted? || failed ==>
                updateChannel == old(updateChannel) && busy == old(busy) && model.forests == old(model.forests)
      ensures !callbackType.Deleted? && !failed ==>
                && |updateChannel| == 1 && busy == old(busy) + 1 - |old(updateChannel)|
                && updateChannel[0].callbackType == callbackType && updateChannel[0].target == target
                && fresh(updateChannel[0].config) && updateChannel[0].config.View() == config.View()
                && model.forests == old(model.forests) + [config.View()]
    {
      hide Linked, World, ForestManaged, ConfigForest.Copyable;
      if callbackType.Deleted? {
        return false;
      }
      if callbackType.Forced? {
        CacheInvalidate();
      }
      failed := Enqueue(config, callbackType, target);
    }

    // ---------- the consumer's side ----------

    /** synchronizeDeviceFunc, as far as the retry loop is concerned. */
    method SynchronizeDeviceFunc(config: ConfigForest)
        returns (pushErrors: nat, err: bool, ghost c: PushCycle.Cycle, ghost steps: seq<PushCycle.Step>)
      requires Valid() && pool.Valid() && ForestManaged(config.View())
      modifies this`cache, sidStore, pool, controllers
      ensures Valid() && pool.Valid() && old(sidStore.operations) <= sidStore.operations
      ensures PushCycle.AllTold(steps, sidStore.Sids()) && old(controllers.log) <= controllers.log
      ensures sidStore.AllReported(old(sidStore.operations)) && ForestAddressable(ip, config.View(), pool.drawn) ==>
                PushCycle.AllComplete(config.View(), steps)
      ensures PushCycle.Ran(PushCycle.Cycle.Cycle(old(World()), PushCycle.Fresh(config.View())), steps,
                            controllers.Since(|old(controllers.log)|), c)
      ensures c.world == World() && c.attempt.phase.Between? && (err <==> c.attempt.todo != {})
      ensures pushErrors == if err then 0 else c.attempt.failures
      ensures pushErrors == if err then 0 else PushCycle.Unreported(controllers.Since(|old(controllers.log)|))
      ensures (err <==> !controllers.AllFound(old(controllers.lookups)))
              && old(controllers.lookups) <= controllers.lookups
    {
      hide PushCycle.Ran, Valid, World, ForestManaged, PushCycle.AllComplete, PushCycle.AllTold, ForestAddressable,
           Extends, ConfigForest.View, Controllers.AllFound, Controllers.Since, SidStore.SIDAtomixStore.AllReported,
           PushCycle.Unreported, DealtWith, OnosNetConfig.View;
      ghost var a;
      pushErrors, err, a, steps := SynchronizeDevice(config.View());
      c := PushCycle.Cycle.Cycle(World(), a);
    }

    /** One attempt at an update. */
    method Attempt(update: ConfigUpdate) returns (pushErrors: nat, err: bool)
      requires Linked() && model.box.consumer.Cleared? && Serves(update)
      modifies this`cache, this`history, this`model, this`mark, sidStore, pool, controllers
      ensures Linked() && old(history) <= history && mark == old(sidStore.operations) <= sidStore.operations
      ensures model.box.producers == old(model.box.producers) && model.forests == old(model.forests)
      ensures old(controllers.log) <= controllers.log
      ensures pushErrors == if err then 0 else PushCycle.Unreported(controllers.Since(|old(controllers.log)|))
      ensures old(controllers.lookups) <= controllers.lookups
      ensures forall n: nat | n <= old(controllers.lookups) ::
                controllers.AllFound(n) <==> old(controllers.AllFound(n)) && !err
      ensures var u, l := old(model.box.consumer.update), old(model.box.ledger);
              && model.box.ledger == l.(started := l.started + [u],
                                        returned := l.returned + [Mailbox.Outcome(u, pushErrors, err)])
              && model.last == Adapter.Returned(u, pushErrors, err) && model.attempt.None?
              && model.box.consumer == if err then Mailbox.Finishing(u, Mailbox.Abandoned)
                                       else if pushErrors == 0 then Mailbox.Finishing(u, Mailbox.Succeeded)
                                       else Mailbox.Sleeping(u)
    {
      hide Adapter.Exec, PushCycle.Ran, Valid, World, ForestManaged, PushCycle.AllComplete, PushCycle.AllTold,
           ForestAddressable, Lined, PushCycle.Unreported, Accounted, ConfigForest.View,
           SidStore.SIDAtomixStore.AllReported;
      Logged();
      mark := sidStore.operations;
      ghost var c, steps;
      ghost var log := controllers.log;
      pushErrors, err, c, steps := SynchronizeDeviceFunc(update.config);
      assert controllers.log == log + controllers.Since(|log|);
      TakeAttempt(update.config.View(), steps, controllers.Since(|log|), c, err);
    }

    lemma Logged()
      requires Valid() && Accounted()
      ensures controllers.log == earlier + Adapter.RequestsIn(Adapter.Init(1, start), history)
    {
    }

    /** The steps of an attempt that has just been made. */
    ghost method TakeAttempt(forest: PushCycle.Forest, steps: seq<PushCycle.Step>, requests: seq<PushCycle.Request>,
                             c: PushCycle.Cycle, err: bool)
      requires Valid() && Adapter.Exec(Adapter.Init(1, start), history) == Some(model)
      requires model.box.consumer.Cleared? && forest == Adapter.ForestOf(model, model.box.consumer.update)
      requires PushCycle.Ran(PushCycle.Cycle.Cycle(model.world, PushCycle.Fresh(forest)), steps, requests, c)
      requires c.attempt.phase.Between? && (err <==> c.attempt.todo != {})
      requires controllers.log == earlier + Adapter.RequestsIn(Adapter.Init(1, start), history) + requests
      requires PushCycle.AllTold(steps, sidStore.Sids())
      requires sidStore.AllReported(mark) && ForestAddressable(ip, forest, pool.drawn) ==>
                 PushCycle.AllComplete(forest, steps)
      modifies this`history, this`model
      ensures Adapter.Exec(Adapter.Init(1, start), history) == Some(model) && Accounted() && old(history) <= history
      ensures var box, errors := old(model.box), if err then 0 else c.attempt.failures;
              var u := box.consumer.update;
              model == old(model).(world := c.world, attempt := None, last := Adapter.Returned(u, errors, err),
                box := box.(ledger := box.ledger.(started := box.ledger.started + [u],
                                     returned := box.ledger.returned + [Mailbox.Outcome(u, errors, err)]),
                            consumer := if err then Mailbox.Finishing(u, Mailbox.Abandoned)
                                        else if errors == 0 then Mailbox.Finishing(u, Mailbox.Succeeded)
                                        else Mailbox.Sleeping(u)))
    {
      hide Adapter.Exec, PushCycle.Ran, Valid, PushCycle.AllComplete, PushCycle.AllTold, Adapter.TrailOf,
           Adapter.BuiltIn, Adapter.Complete, Adapter.ToldFrom, ForestAddressable, Adapter.RequestsIn,
           SidStore.SIDAtomixStore.AllReported;
      history, model := Adapter.AttemptRun(start, history, model, steps, requests, c, err);
      Adapter.BuiltSoundly(Trail(), steps, forest, sidStore.Sids());
    }

    /** Attempts an update until it succeeds, a controller is missing, or a newer update is queued.
        `naps[i]` is what the gNMI server asks for, if anything, during the i-th sleep; when they are
        used up the update is left sleeping. `outcomes` are what the attempts returned: each but the last
        failed to push something and was followed by a sleep. */
    method SynchronizeAndRetry(update: ConfigUpdate, naps: seq<Option<ConfigUpdate>>)
        returns (verdict: Option<Mailbox.Verdict>, ghost outcomes: seq<Mailbox.Outcome>,
                 ghost arrivals: seq<Option<PushCycle.Forest>>)
      requires Linked() && model.box.consumer.Holding? && Serves(update) && model.box.producers == [Mailbox.Idle]
      requires forall i | 0 <= i < |naps| && naps[i].Some? :: ForestManaged(naps[i].value.config.View())
      modifies this`cache, this`busy, this`updateChannel, this`history, this`model, this`owned, this`trees, this`mark,
               sidStore, pool, controllers
      ensures Linked() && old(history) <= history && model.box.producers == [Mailbox.Idle]
      ensures model.box.ledger.served == old(model.box.ledger.served)
      ensures model.box.ledger.returned == old(model.box.ledger.returned) + outcomes
      ensures Retried(outcomes, old(model.box.consumer.update), |naps|, verdict)
      ensures |arrivals| == |naps| && forall i | 0 <= i < |naps| :: arrivals[i] == old(Arrival(naps[i]))
      ensures Heard(arrivals, outcomes, verdict, old(InQueue()), old(model.forests), InQueue(), model.forests)
      ensures old(controllers.log) <= controllers.log && old(controllers.lookups) <= controllers.lookups
      ensures verdict == Some(Mailbox.Abandoned) <==> !controllers.AllFound(old(controllers.lookups))
      ensures verdict != Some(Mailbox.Abandoned) ==>
                PushCycle.Unreported(controllers.Since(|old(controllers.log)|)) == Mailbox.PushErrors(outcomes)
      ensures outcomes != [] ==> Recorded(Last(outcomes), model.last)
      ensures var u := old(model.box.consumer.update);
              model.box.consumer == if verdict.None? then Mailbox.Sleeping(u) else Mailbox.Finishing(u, verdict.value)
    {
      hide Linked, World, ForestManaged, Replaced, Heard, HeardSoFar, Arrival, PushCycle.Unreported, Mailbox.PushErrors,
           Retried, Retrying, ConfigForest.View, InQueue, Controllers.AllFound;
      ghost var u, returned, log := model.box.consumer.update, model.box.ledger.returned, |controllers.log|;
      ghost var queued, forests := InQueue(), model.forests;
      outcomes := [];
      arrivals := ArrivalsOf(naps);
      NotTriedYet(u, returned, model.last, controllers.Since(log));
      HeardNothing(arrivals, queued, forests);
      var nap := 0;
      while true
        invariant 0 <= nap <= |naps| && Linked() && old(history) <= history
        invariant model.box.ledger.served == old(model.box.ledger.served)
        invariant model.box.consumer == Mailbox.Holding(u) && Serves(update) && model.box.producers == [Mailbox.Idle]
        invariant |outcomes| == nap
        invariant Retrying(u, outcomes, returned, model.box.ledger.returned, model.last, controllers.Since(log))
        invariant HeardSoFar(arrivals, nap, queued, forests, InQueue(), model.forests)
        invariant old(controllers.log) <= controllers.log && old(controllers.lookups) <= controllers.lookups
        invariant controllers.AllFound(old(controllers.lookups))
        decreases |naps| - nap
      {
        Tried(u, outcomes, returned, model.box.ledger.returned, model.last, controllers.Since(log), |naps|);
        HeardPending(arrivals, nap, outcomes, queued, forests, InQueue(), model.forests);
        var pending := NewUpdatesPending();
        if pending {
          return Some(Mailbox.Obsoleted), outcomes, arrivals;
        }
        ghost var requests, before, last := controllers.Since(log), |controllers.log|, model.last;
        ghost var so := model.box.ledger.returned;
        var pushErrors, err := Attempt(update);
        ghost var outcome := Mailbox.Outcome(u, pushErrors, err);
        assert controllers.Since(log) == requests + controllers.Since(before);
        verdict := if err then Some(Mailbox.Abandoned) else if pushErrors == 0 then Some(Mailbox.Succeeded) else None;
        TriedAgain(u, outcomes, returned, so, last, requests, outcome, model.last, controllers.Since(before),
                   |naps|, verdict);
        outcomes := outcomes + [outcome];
        if verdict.Some? || nap == |naps| {
          HeardLast(arrivals, outcomes, verdict, forests, model.forests);
        }
        if err {
          return;
        }
        if pushErrors == 0 {
          return;
        }
        if nap == |naps| {
          return;
        }
        ghost var known := model.forests;
        Sleep(naps[nap]);
        HeardNext(arrivals, nap, forests, known, InQueue(), model.forests);
        nap := nap + 1;
      }
    }

    /** The configuration that is queued, if any. */
    ghost function InQueue(): (queued: Option<PushCycle.Forest>)
      reads this`updateChannel
      reads if updateChannel != [] then {updateChannel[0].config} else {}
      reads if updateChannel != [] then updateChannel[0].config.configs.Values else {}
      ensures queued.Some? <==> updateChannel != []
    {
      if updateChannel == [] then None else Some(updateChannel[0].config.View())
    }

    /** time.Sleep, which lets the gNMI server call Synchronize. */
    method Sleep(arrival: Option<ConfigUpdate>)
      requires Linked() && model.box.consumer.Sleeping? && model.box.producers == [Mailbox.Idle]
      requires arrival.Some? ==> ForestManaged(arrival.value.config.View())
      modifies this`cache, this`busy, this`updateChannel, this`history, this`model, this`owned, this`trees
      ensures Linked() && old(history) <= history
      ensures SameService(old(model.box.ledger), model.box.ledger) && model.last == old(model.last)
      ensures model.box.consumer == Mailbox.Holding(old(model.box.consumer.update))
              && model.box.producers == [Mailbox.Idle]
      ensures cache == if arrival.Some? && arrival.value.callbackType.Forced? then map[] else old(cache)
      ensures Replaced(Arrival(arrival), old(InQueue()), old(model.forests), InQueue(), model.forests)
      ensures if Arrival(arrival).Some? then
                |updateChannel| == 1 && updateChannel[0].callbackType == arrival.value.callbackType
                && updateChannel[0].target == arrival.value.target
              else updateChannel == old(updateChannel)
    {
      hide Linked, World, ForestManaged, ConfigForest.View, ConfigForest.Copyable;
      if arrival.Some? {
        var failed := Synchronize(arrival.value.config, arrival.value.callbackType, arrival.value.target);
      }
      WakeUp();
    }

    method WakeUp()
      requires Linked() && model.box.consumer.Sleeping?
      modifies this`history, this`model
      ensures Linked() && history == old(history) + [Adapter.Box(Mailbox.Wake)] && InQueue() == old(InQueue())
      ensures model == old(model).(box := old(model.box).(consumer := Mailbox.Holding(old(model.box.consumer.update))))
    {
      hide Adapter.Exec, Accounted, PushCycle.Enabled, PushCycle.Apply, Valid, World, ForestManaged;
      Take(Adapter.Box(Mailbox.Wake));
    }

    /** What there is to say once the loop blocks: the last attempt was one at the newest configuration,
        and if it succeeded, was supplied with what it needed and was not satisfied with a doubtful
        cache entry, then the controllers hold that configuration, with the SIDs of the store. */
    ghost predicate Converged()
      reads this, cache.Values, sidStore, pool, controllers
      requires Valid()
    {
      Adapter.Succeeded(model.last) ==>
        && model.forests != [] && model.last.update == |model.forests|
        && (Supplied() && Trail().stale == map[] ==>
              Adapter.ForestGood(World(), Last(model.forests), sidStore.Sids()))
    }

    lemma BlockedIsIdle()
      requires Linked() && model.box.consumer.Waiting? && model.box.producers == [Mailbox.Idle] && updateChannel == []
      ensures busy == 0 && Converged()
    {
      hide Adapter.Exec, Adapter.TrailOf, Adapter.ForestGood, Adapter.Sound, Adapter.Complete, Adapter.ToldFrom,
           World, ForestAddressable, SidStore.View, SidStore.WellFormed, Conforms;
      Adapter.WhenBlocked(start, history, model, sidStore.Sids());
      if Adapter.Succeeded(model.last) && Supplied() && Trail().stale == map[] {
        Adapter.SoundIf(Trail(), Last(model.forests));
      }
    }

    /** Serves updates, for as long as `naps` describes, and until it blocks on an empty channel. It
        is then idle and has converged, whatever went wrong before its last attempt. */
    method Loop(naps: seq<seq<Option<ConfigUpdate>>>) returns (blocked: bool)
      requires Linked() && model.box.consumer.Waiting? && model.box.producers == [Mailbox.Idle]
      requires forall i, j | 0 <= i < |naps| && 0 <= j < |naps[i]| && naps[i][j].Some? ::
                 ForestManaged(naps[i][j].value.config.View())
      modifies this`cache, this`busy, this`updateChannel, this`history, this`model, this`owned, this`trees, this`mark,
               sidStore, pool, controllers
      ensures Linked() && old(history) <= history && old(model.forests) <= model.forests
      ensures blocked <==> model.box.consumer.Waiting? && updateChannel == []
      ensures blocked ==> busy == 0 && Converged()
      ensures !blocked ==>
                var rounds := |model.box.ledger.served| - |old(model.box.ledger.served)|;
                if model.box.consumer.Sleeping?
                then 1 <= rounds <= |naps| && Insisted(model.box, |naps[rounds - 1]| + 1)
                else rounds == |naps|
    {
      hide Linked, Converged, World, ForestManaged, Heard, Retried, Insisted, Mailbox.PushErrors, PushCycle.Unreported;
      var round := 0;
      while round < |naps| && updateChannel != []
        invariant 0 <= round <= |naps| && Linked() && old(history) <= history && old(model.forests) <= model.forests
        invariant model.box.consumer.Waiting? && model.box.producers == [Mailbox.Idle]
        invariant |model.box.ledger.served| == |old(model.box.ledger.served)| + round
      {
        var update := Dequeue();
        var verdict;
        ghost var outcomes, arrivals;
        ghost var u, returned, forests := model.box.consumer.update, model.box.ledger.returned, model.forests;
        ghost var queued := InQueue();
        verdict, outcomes, arrivals := SynchronizeAndRetry(update, naps[round]);
        HeardMore(arrivals, outcomes, verdict, queued, forests, InQueue(), model.forests);
        if verdict.None? {
          InsistedIf(model.box, returned, outcomes, u, |naps[round]|);
          return false;
        }
        Complete();
        round := round + 1;
      }
      blocked := updateChannel == [];
      if blocked {
        BlockedIsIdle();
      }
    }
  }

  /** The configuration that is queued because of this, if any. */
  ghost function Arrival(nap: Option<ConfigUpdate>): Option<PushCycle.Forest>
    reads if nap.Some? then {nap.value.config} else {}
    reads if nap.Some? then nap.value.config.configs.Values else {}
  {
    if nap.Some? && nap.value.Accepted() then Some(nap.value.config.View()) else None
  }

  lemma {:induction false} ArrivalsOf(naps: seq<Option<ConfigUpdate>>) returns (arrivals: seq<Option<PushCycle.Forest>>)
    ensures |arrivals| == |naps| && forall i | 0 <= i < |naps| :: arrivals[i] == Arrival(naps[i])
  {
    hide Arrival;
    if naps == [] {
      arrivals := [];
    } else {
      arrivals := ArrivalsOf(naps[..|naps| - 1]);
      arrivals := arrivals + [Arrival(Last(naps))];
    }
  }

  /** What is queued, and what has been issued, before and after that. */
  ghost predicate Replaced(arrival: Option<PushCycle.Forest>, queued: Option<PushCycle.Forest>,
                           forests: seq<PushCycle.Forest>, queued': Option<PushCycle.Forest>,
                           forests': seq<PushCycle.Forest>) {
    if arrival.Some? then queued' == arrival && forests' == forests + [arrival.value]
    else queued' == queued && forests' == forests
  }

  /** What has been queued during the sleeps of one call: nothing, except perhaps during the last one, and
      then the update is obsoleted by it. An update that is already obsolete is not attempted. */
  ghost predicate Heard(arrivals: seq<Option<PushCycle.Forest>>, outcomes: seq<Mailbox.Outcome>,
                        verdict: Option<Mailbox.Verdict>, queued: Option<PushCycle.Forest>,
                        forests: seq<PushCycle.Forest>, queued': Option<PushCycle.Forest>,
                        forests': seq<PushCycle.Forest>) {
    if queued.Some? then
      outcomes == [] && verdict == Some(Mailbox.Obsoleted) && queued' == queued && forests' == forests
    else
      && 1 <= |outcomes| <= |arrivals| + 1
      && (forall i | 0 <= i < |outcomes| - 1 :: arrivals[i].None?)
      && (verdict == Some(Mailbox.Obsoleted) <==>
            |outcomes| <= |arrivals| && Last(outcomes).Failed() && arrivals[|outcomes| - 1].Some?)
      && Replaced(if verdict == Some(Mailbox.Obsoleted) then arrivals[|outcomes| - 1] else None,
                  queued, forests, queued', forests')
  }

  /** The same after the first `nap` sleeps, each of which followed an attempt. */
  ghost predicate HeardSoFar(arrivals: seq<Option<PushCycle.Forest>>, nap: nat, queued: Option<PushCycle.Forest>,
                             forests: seq<PushCycle.Forest>, queued': Option<PushCycle.Forest>,
                             forests': seq<PushCycle.Forest>)
    requires nap <= |arrivals|
  {
    if nap == 0 then queued' == queued && forests' == forests
    else
      && queued.None? && (forall i | 0 <= i < nap - 1 :: arrivals[i].None?)
      && Replaced(arrivals[nap - 1], queued, forests, queued', forests')
  }

  lemma HeardNothing(arrivals: seq<Option<PushCycle.Forest>>, queued: Option<PushCycle.Forest>,
                     forests: seq<PushCycle.Forest>)
    ensures HeardSoFar(arrivals, 0, queued, forests, queued, forests)
  {
  }

  lemma HeardPending(arrivals: seq<Option<PushCycle.Forest>>, nap: nat, outcomes: seq<Mailbox.Outcome>,
                     queued: Option<PushCycle.Forest>, forests: seq<PushCycle.Forest>,
                     queued': Option<PushCycle.Forest>, forests': seq<PushCycle.Forest>)
    requires nap <= |arrivals| && HeardSoFar(arrivals, nap, queued, forests, queued', forests')
    requires |outcomes| == nap && forall i | 0 <= i < nap :: outcomes[i].Failed()
    ensures if queued'.Some? then Heard(arrivals, outcomes, Some(Mailbox.Obsoleted), queued, forests, queued', forests')
            else queued.None? && forests' == forests
  {
  }

  lemma HeardLast(arrivals: seq<Option<PushCycle.Forest>>, outcomes: seq<Mailbox.Outcome>,
                  verdict: Option<Mailbox.Verdict>, forests: seq<PushCycle.Forest>, forests': seq<PushCycle.Forest>)
    requires 1 <= |outcomes| <= |arrivals| + 1 && HeardSoFar(arrivals, |outcomes| - 1, None, forests, None, forests')
    requires verdict != Some(Mailbox.Obsoleted) && (Last(outcomes).Failed() ==> |outcomes| > |arrivals|)
    ensures Heard(arrivals, outcomes, verdict, None, forests, None, forests')
  {
  }

  lemma HeardNext(arrivals: seq<Option<PushCycle.Forest>>, nap: nat, forests: seq<PushCycle.Forest>,
                  known: seq<PushCycle.Forest>, queued': Option<PushCycle.Forest>, forests': seq<PushCycle.Forest>)
    requires nap < |arrivals| && HeardSoFar(arrivals, nap, None, forests, None, known)
    requires Replaced(arrivals[nap], None, known, queued', forests')
    ensures HeardSoFar(arrivals, nap + 1, None, forests, queued', forests') && known <= forests'
  {
  }

  function DrainSteps(queued: nat): seq<Adapter.Step> {
    if queued == 0 then []
    else DrainSteps(queued - 1) + [Adapter.Box(Mailbox.DrainReceive(0)), Adapter.Box(Mailbox.DrainDecrement(0))]
  }

  /** The busy count is incremented first, then the channel is drained, and then the update is sent. */
  function EnqueueSteps(forest: PushCycle.Forest, queued: nat): seq<Adapter.Step> {
    [Adapter.Enqueue(0, forest)] + DrainSteps(queued)
    + [Adapter.Box(Mailbox.DrainEmpty(0)), Adapter.Box(Mailbox.Send(0))]
  }

  lemma InOrder(history: seq<Adapter.Step>, forest: PushCycle.Forest, queued: nat)
    ensures history + [Adapter.Enqueue(0, forest)] + DrainSteps(queued)
            + [Adapter.Box(Mailbox.DrainEmpty(0)), Adapter.Box(Mailbox.Send(0))]
            == history + EnqueueSteps(forest, queued)
  {
  }

  /** The ledger but for what producers write in it. */
  ghost predicate SameService(l: Mailbox.Ledger, l': Mailbox.Ledger) {
    l' == l.(issued := l'.issued, sent := l'.sent, drained := l'.drained)
  }

  /** What the attempts of one call returned: all but the last failed to push something, and the last one
      too if the update is obsoleted or if there are no more sleeps. */
  ghost predicate Retried(outcomes: seq<Mailbox.Outcome>, u: Mailbox.Ticket, sleeps: nat,
                          verdict: Option<Mailbox.Verdict>) {
    && (forall i | 0 <= i < |outcomes| :: outcomes[i].update == u)
    && (forall i | 0 <= i < |outcomes| - 1 :: outcomes[i].Failed())
    && match verdict {
         case None => |outcomes| == sleeps + 1 && Last(outcomes).Failed()
         case Some(Obsoleted) => |outcomes| <= sleeps && (outcomes != [] ==> Last(outcomes).Failed())
         case Some(Succeeded) => 1 <= |outcomes| <= sleeps + 1 && Last(outcomes) == Mailbox.Outcome(u, 0, false)
         case Some(Abandoned) => 1 <= |outcomes| <= sleeps + 1 && Last(outcomes) == Mailbox.Outcome(u, 0, true)
       }
  }

  /** Where the loop of one call is when the update is to be attempted again. */
  ghost predicate Retrying(u: Mailbox.Ticket, outcomes: seq<Mailbox.Outcome>, returned: seq<Mailbox.Outcome>,
                           returned': seq<Mailbox.Outcome>, last: Adapter.LastAttempt,
                           requests: seq<PushCycle.Request>) {
    && returned' == returned + outcomes && PushCycle.Unreported(requests) == Mailbox.PushErrors(outcomes)
    && (forall i | 0 <= i < |outcomes| :: outcomes[i].update == u && outcomes[i].Failed())
    && (outcomes != [] ==> Recorded(Last(outcomes), last))
  }

  predicate Recorded(o: Mailbox.Outcome, last: Adapter.LastAttempt) {
    last == Adapter.Returned(o.update, o.pushErrors, o.fatal)
  }

  lemma NotTriedYet(u: Mailbox.Ticket, returned: seq<Mailbox.Outcome>, last: Adapter.LastAttempt,
                    requests: seq<PushCycle.Request>)
    requires requests == []
    ensures Retrying(u, [], returned, returned, last, requests)
  {
  }

  lemma Tried(u: Mailbox.Ticket, outcomes: seq<Mailbox.Outcome>, returned: seq<Mailbox.Outcome>,
              returned': seq<Mailbox.Outcome>, last: Adapter.LastAttempt, requests: seq<PushCycle.Request>,
              sleeps: nat)
    requires Retrying(u, outcomes, returned, returned', last, requests) && |outcomes| <= sleeps
    ensures Retried(outcomes, u, sleeps, Some(Mailbox.Obsoleted))
    ensures forall i | 0 <= i < |outcomes| :: outcomes[i].Failed()
    ensures returned' == returned + outcomes && PushCycle.Unreported(requests) == Mailbox.PushErrors(outcomes)
    ensures outcomes != [] ==> Recorded(Last(outcomes), last)
  {
  }

  lemma TriedAgain(u: Mailbox.Ticket, outcomes: seq<Mailbox.Outcome>, returned: seq<Mailbox.Outcome>,
                   returned': seq<Mailbox.Outcome>, last: Adapter.LastAttempt, requests: seq<PushCycle.Request>,
                   o: Mailbox.Outcome, last': Adapter.LastAttempt, more: seq<PushCycle.Request>, sleeps: nat,
                   verdict: Option<Mailbox.Verdict>)
    requires Retrying(u, outcomes, returned, returned', last, requests) && |outcomes| <= sleeps
    requires o.update == u && Recorded(o, last') && (o.fatal ==> o.pushErrors == 0)
    requires !o.fatal ==> o.pushErrors == PushCycle.Unreported(more)
    requires verdict == if o.fatal then Some(Mailbox.Abandoned)
                        else if o.pushErrors == 0 then Some(Mailbox.Succeeded) else None
    ensures verdict.Some? || |outcomes| == sleeps ==> Retried(outcomes + [o], u, sleeps, verdict)
    ensures o.Failed() ==> Retrying(u, outcomes + [o], returned, returned' + [o], last', requests + more)
    ensures returned' + [o] == returned + (outcomes + [o]) && Last(outcomes + [o]) == o
    ensures !o.fatal ==> PushCycle.Unreported(requests + more) == Mailbox.PushErrors(outcomes + [o])
  {
    hide PushCycle.Unreported;
    PushCycle.UnreportedConcat(requests, more);
    Mailbox.PushErrorsSnoc(outcomes, o);
  }

  /** The last `n` attempts were attempts at the update that is left sleeping, and failed to push something. */
  ghost predicate Insisted(box: Mailbox.State, n: nat) {
    && box.consumer.Sleeping? && n <= |box.ledger.returned|
    && forall i | |box.ledger.returned| - n <= i < |box.ledger.returned| ::
         box.ledger.returned[i].update == box.consumer.update && box.ledger.returned[i].Failed()
  }

  /** Where an attempt at a forest is after some of its fabrics: `reported` says that every operation of the
      SID store so far has succeeded. */
  ghost predicate SoFar(ip: string -> Option<Ip>, forest: PushCycle.Forest, c0: PushCycle.Cycle,
                        steps: seq<PushCycle.Step>, requests: seq<PushCycle.Request>, c: PushCycle.Cycle,
                        sids: map<string, uint32>, count: nat, reported: bool) {
    && PushCycle.Ran(c0, steps, requests, c) && PushCycle.AllTold(steps, sids)
    && (reported && ForestAddressable(ip, forest, count) ==> PushCycle.AllComplete(forest, steps))
  }

  lemma InsistedIf(box: Mailbox.State, returned: seq<Mailbox.Outcome>, outcomes: seq<Mailbox.Outcome>,
                   u: Mailbox.Ticket, sleeps: nat)
    requires Retried(outcomes, u, sleeps, None) && box.ledger.returned == returned + outcomes
    requires box.consumer == Mailbox.Sleeping(u)
    ensures Insisted(box, sleeps + 1)
  {
  }

  lemma HeardMore(arrivals: seq<Option<PushCycle.Forest>>, outcomes: seq<Mailbox.Outcome>,
                  verdict: Option<Mailbox.Verdict>, queued: Option<PushCycle.Forest>, forests: seq<PushCycle.Forest>,
                  queued': Option<PushCycle.Forest>, forests': seq<PushCycle.Forest>)
    requires Heard(arrivals, outcomes, verdict, queued, forests, queued', forests')
    ensures forests <= forests'
  {
  }

  lemma NoFabrics(ip: string -> Option<Ip>, forest: PushCycle.Forest, c0: PushCycle.Cycle, sids: map<string, uint32>,
                  count: nat, reported: bool)
    ensures SoFar(ip, forest, c0, [], [], c0, sids, count, reported)
  {
  }

  lemma OneMoreFabric(ip: string -> Option<Ip>, forest: PushCycle.Forest, f: string, c0: PushCycle.Cycle,
                      steps: seq<PushCycle.Step>, requests: seq<PushCycle.Request>, c1: PushCycle.Cycle,
                      sids: map<string, uint32>, count: nat, reported: bool, more: seq<PushCycle.Step>,
                      requests': seq<PushCycle.Request>, c2: PushCycle.Cycle, sids': map<string, uint32>, count': nat,
                      reported': bool)
    requires SoFar(ip, forest, c0, steps, requests, c1, sids, count, reported) && f in forest && count <= count'
    requires PushCycle.Ran(c1, more, requests', c2) && PushCycle.AllTold(more, sids') && Extends(sids, sids')
    requires reported' ==> reported && (Addressable(ip, forest[f], count') ==> PushCycle.AllComplete(forest, more))
    ensures SoFar(ip, forest, c0, steps + more, requests + requests', c2, sids', count', reported')
  {
    hide PushCycle.Ran, PushCycle.AllComplete, PushCycle.AllTold, Addressable, ForestAddressable, Extends;
    PushCycle.RanConcat(c0, steps, requests, c1, more, requests', c2);
    AddressableBefore(ip, forest, f, count, count');
    MoreTold(steps, more, sids, sids');
    if reported' && ForestAddressable(ip, forest, count') {
      MoreBuilds(forest, steps, more);
    }
  }

  lemma AllFabrics(ip: string -> Option<Ip>, forest: PushCycle.Forest, c0: PushCycle.Cycle, steps: seq<PushCycle.Step>,
                   requests: seq<PushCycle.Request>, c: PushCycle.Cycle, sids: map<string, uint32>, count: nat,
                   reported: bool)
    requires SoFar(ip, forest, c0, steps, requests, c, sids, count, reported)
    ensures PushCycle.Ran(c0, steps, requests, c) && PushCycle.AllTold(steps, sids)
    ensures reported && ForestAddressable(ip, forest, count) ==> PushCycle.AllComplete(forest, steps)
    ensures c.attempt.failures == c0.attempt.failures + PushCycle.Unreported(requests)
  {
    hide PushCycle.Ran, PushCycle.AllComplete, PushCycle.AllTold, ForestAddressable;
    PushCycle.FailuresCounted(c0, steps, requests, c);
  }

  lemma OneBuild(a: PushCycle.Attempt, f: string, first: seq<PushCycle.Step>, second: seq<PushCycle.Step>,
                 sids: map<string, uint32>)
    requires f in a.forest && first != [] && first[0].Build? && first[0].fabric == f && first[0].sids == sids
    requires PushCycle.BuildsNothing(first[1..]) && PushCycle.BuildsNothing(second)
    ensures PushCycle.AllTold(first + second, sids)
    ensures first[0].done == Eligible(a.forest[f]) ==> PushCycle.AllComplete(a.forest, first + second)
  {
    hide Eligible;
    assert forall i | 1 <= i < |first| :: first[i] == first[1..][i - 1];
  }

  /** What pushing the netconfig of a fabric comes to: nothing if partial updates are enabled and the cache
      holds an equal one, and otherwise one request, whose ending decides what ONOS holds, what the cache
      remembers, and whether it counts as a failure. */
  ghost predicate PushedUnlessCached(partialUpdateEnable: bool, f: string, nc: NetConfig, effect: Effect,
                                     before: PushCycle.World, after: PushCycle.World,
                                     requests: seq<PushCycle.Request>, failures: nat) {
    var key := "netconfig-" + f;
    if partialUpdateEnable && key in before.cache && before.cache[key] == nc then
      requests == [] && after.onos == before.onos && after.cache == before.cache && failures == 0
    else
      && requests == [PushCycle.NetConfigPost(f, nc, effect)]
      && after.onos == (if effect.Happened() then before.onos[f := nc] else before.onos)
      && after.cache == (if effect.Reported() then before.cache[key := nc] else before.cache)
      && failures == (if effect.Reported() then 0 else 1)
  }

  lemma MoreBuilds(forest: PushCycle.Forest, steps: seq<PushCycle.Step>, more: seq<PushCycle.Step>)
    requires PushCycle.AllComplete(forest, steps) && PushCycle.AllComplete(forest, more)
    ensures PushCycle.AllComplete(forest, steps + more)
  {
    hide Eligible;
  }

  lemma MoreTold(steps: seq<PushCycle.Step>, more: seq<PushCycle.Step>, sids: map<string, uint32>,
                 sids': map<string, uint32>)
    requires PushCycle.AllTold(steps, sids) && PushCycle.AllTold(more, sids') && Extends(sids, sids')
    ensures PushCycle.AllTold(steps + more, sids')
  {
    hide Extends;
    forall i | 0 <= i < |steps + more| && (steps + more)[i].Build?
      ensures Extends((steps + more)[i].sids, sids')
    {
      if i < |steps| { ExtendsOn(steps[i].sids, sids, sids'); }
    }
  }

  ghost predicate ForestAddressable(ip: string -> Option<Ip>, forest: PushCycle.Forest, count: nat) {
    forall f | f in forest :: Addressable(ip, forest[f], count)
  }

  /** How many fabrics have been dealt with once these are left. */
  function DealtWith(forest: PushCycle.Forest, todo: set<string>): (n: nat)
    ensures todo == forest.Keys ==> n == 0
  {
    |forest.Keys - todo|
  }

  lemma OneMoreDealtWith(forest: PushCycle.Forest, todo: set<string>, f: string)
    requires f in todo && todo <= forest.Keys
    ensures DealtWith(forest, todo - {f}) == DealtWith(forest, todo) + 1
  {
    assert forest.Keys - (todo - {f}) == forest.Keys - todo + {f};
  }

  lemma AddressableBefore(ip: string -> Option<Ip>, forest: PushCycle.Forest, f: string, count: nat, count': nat)
    requires f in forest && count <= count'
    ensures ForestAddressable(ip, forest, count') ==>
              ForestAddressable(ip, forest, count) && Addressable(ip, forest[f], count')
  {
  }

  lemma SameBuilds(t: PushCycle.Trail, t': PushCycle.Trail, forest: PushCycle.Forest, sids: map<string, uint32>)
    requires t'.built == t.built
    ensures Adapter.Complete(t', forest) <==> Adapter.Complete(t, forest)
    ensures Adapter.ToldFrom(t', sids) <==> Adapter.ToldFrom(t, sids)
  {
  }
}
