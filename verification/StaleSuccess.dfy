/** Two whole runs, from the start of the adapter, in which it reports success and is wrong. In the first
    a push that took effect was reported as failed, the configuration was changed back, and the cache,
    which still holds the netconfig from before, is satisfied. In the second a Forced update arrives
    between a push and the cache update that follows it, and pushes nothing. */
module StaleSuccess {
  import opened Basics
  import opened Net
  import opened Fabrics
  import opened Builds
  import Mailbox
  import PushCycle
  import Adapter
  import Forced

  const PLAIN := Fabric(map[], map[], map[])
  const ROUTED := Fabric(map[], map[], map["r" := Route(Some("10.0.0.0/8"), Some("10.0.0.1"))])

  const PLAIN_NETCONFIG := NetConfig(map[], map[], map[])
  const ROUTED_NETCONFIG := NetConfig(map[], map[], map[ROUTE_APP := [OnosRoute("10.0.0.0/8", "10.0.0.1")]])

  /** Neither fabric has switches, so that no build of them can be incomplete. */
  function NetConfigOf(fabric: Fabric): NetConfig {
    if fabric == PLAIN then PLAIN_NETCONFIG else ROUTED_NETCONFIG
  }

  lemma Different()
    ensures PLAIN != ROUTED && PLAIN_NETCONFIG != ROUTED_NETCONFIG
  {
    assert "r" in ROUTED.routes && ROUTE_APP in ROUTED_NETCONFIG.apps;
  }

  lemma BuiltFrom(ip: string -> Option<Ip>, fabric: Fabric, sids: map<string, uint32>, next: nat)
    requires fabric == PLAIN || fabric == ROUTED
    ensures Eligible(fabric) == {} == KnownSwitches(fabric)
    ensures NetConfigFrom(ip, fabric, {}, sids, NetConfigOf(fabric))
    ensures BuiltBetween(ip, fabric, {}, sids, NetConfigOf(fabric), next, next)
  {
    RightlyBuilt(ip, fabric, sids);
    hide NetConfigFrom, DrawnAs, NetConfigOf;
    Rebuilt(ip, fabric, {}, sids, NetConfigOf(fabric), next);
  }

  lemma RightlyBuilt(ip: string -> Option<Ip>, fabric: Fabric, sids: map<string, uint32>)
    requires fabric == PLAIN || fabric == ROUTED
    ensures Eligible(fabric) == {} == KnownSwitches(fabric) && SwitchesKeyed(fabric)
    ensures NetConfigFrom(ip, fabric, {}, sids, NetConfigOf(fabric)) && !HasHostName(ip, NetConfigOf(fabric))
  {
    Different();
    var order := if fabric == PLAIN then [] else ["r"];
    assert Visits(order, fabric.routes.Keys);
    var m := RouteEntries(fabric);
    if fabric == ROUTED {
      assert m == map["r" := OnosRoute("10.0.0.0/8", "10.0.0.1")];
      assert order[1..] == [] && Emit(m, []) == [];
      assert Emit(m, order) == [m["r"]] + Emit(m, order[1..]) == [OnosRoute("10.0.0.0/8", "10.0.0.1")];
    } else {
      assert Emit(m, order) == [];
    }
    assert NetConfigOf(fabric).apps == AppsWith(Emit(m, order));
  }

  /** ONOS has no business holding the routed netconfig for the plain fabric. */
  lemma RoutedIsWrong(ip: string -> Option<Ip>, done: set<string>, sids: map<string, uint32>)
    ensures !NetConfigFrom(ip, PLAIN, done, sids, ROUTED_NETCONFIG)
  {
    if AppsFrom(PLAIN, ROUTED_NETCONFIG.apps) {
      BuiltFrom(ip, PLAIN, sids, 0);
      RoutesDetermined(PLAIN, ROUTED_NETCONFIG.apps, PLAIN_NETCONFIG.apps);
    }
  }

  lemma NotConverged(w: PushCycle.World, sids: map<string, uint32>)
    requires w.onos == map["f" := ROUTED_NETCONFIG]
    ensures !Adapter.ForestGood(w, ForestWith(PLAIN), sids)
  {
    hide NetConfigFrom, DrawnAs, Eligible, KnownSwitches, PushCycle.ChassisGood;
    RoutedIsWrong(w.ip, Eligible(PLAIN), sids);
    assert "f" in ForestWith(PLAIN) && !PushCycle.FabricGood(w, "f", PLAIN, sids);
  }

  function ForestWith(fabric: Fabric): PushCycle.Forest {
    map["f" := fabric]
  }

  function WorldAfter(w: PushCycle.World, fabric: Fabric, effect: Effect): PushCycle.World {
    var nc, key := NetConfigOf(fabric), PushCycle.CacheKey("f");
    if PushCycle.Unchanged(w, "f", nc) then w
    else w.(onos := if effect.Happened() then w.onos["f" := nc] else w.onos,
            cache := if effect.Reported() then w.cache[key := nc] else w.cache)
  }

  /** An attempt at either fabric: the build, then what the cache and the push make of it. */
  lemma Attempt(w: PushCycle.World, fabric: Fabric, effect: Effect)
      returns (steps: seq<PushCycle.Step>, requests: seq<PushCycle.Request>, c: PushCycle.Cycle)
    requires fabric == PLAIN || fabric == ROUTED
    ensures PushCycle.Ran(PushCycle.Cycle.Cycle(w, PushCycle.Fresh(ForestWith(fabric))), steps, requests, c)
    ensures c.attempt.phase.Between? && c.attempt.todo == {}
    ensures var nc := NetConfigOf(fabric);
            && c.world == WorldAfter(w, fabric, effect)
            && (c.attempt.failures == 0 <==> PushCycle.Unchanged(w, "f", nc) || effect.Reported())
  {
    hide PushCycle.Ran, NetConfigFrom, DrawnAs, PushCycle.CacheKey, Eligible, KnownSwitches;
    var nc := NetConfigOf(fabric);
    var c0 := PushCycle.Cycle.Cycle(w, PushCycle.Fresh(ForestWith(fabric)));
    BuiltFrom(w.ip, fabric, map[], w.next);
    var c1 := c0.(attempt := c0.attempt.(phase := PushCycle.Built("f", nc)));
    var more;
    requests := [];
    if PushCycle.Unchanged(w, "f", nc) {
      more := PushCycle.CacheHit(w, c1.attempt);
    } else {
      more := PushCycle.CacheMissed(w, c1.attempt, effect);
      requests := [PushCycle.NetConfigPost("f", nc, effect)];
    }
    var c2 := PushCycle.Cycle.Cycle(WorldAfter(w, fabric, effect), c1.attempt.(phase := PushCycle.OnosDone("f"),
                                    failures := if requests == [] || effect.Reported() then 0 else 1));
    steps := PushCycle.BuiltThen(w, c0.attempt, "f", {}, nc, map[], w.next, more, requests, c2);
    PushCycle.RanStep(c0, steps, requests, c2, PushCycle.ListSwitches([]));
    var c3 := PushCycle.Apply(c2, PushCycle.ListSwitches([]));
    steps := steps + [PushCycle.ListSwitches([])];
    requests := requests + PushCycle.RequestOf(c2, PushCycle.ListSwitches([]));
    PushCycle.RanStep(c0, steps, requests, c3, PushCycle.EndFabric);
    requests := requests + PushCycle.RequestOf(c3, PushCycle.EndFabric);
    steps, c := steps + [PushCycle.EndFabric], PushCycle.Apply(c3, PushCycle.EndFabric);
  }

  ghost predicate Reachable(start: PushCycle.World, s: Adapter.State) {
    exists steps :: Adapter.Exec(Adapter.Init(1, start), steps) == Some(s)
  }

  lemma Play(start: PushCycle.World, s: Adapter.State, step: Adapter.Step) returns (s': Adapter.State)
    requires Reachable(start, s) && Adapter.Enabled(s, step)
    ensures Reachable(start, s') && s' == Adapter.Apply(s, step)
  {
    hide Adapter.Exec, Adapter.Enabled, Adapter.Apply;
    var steps :| Adapter.Exec(Adapter.Init(1, start), steps) == Some(s);
    Adapter.ExecStep(Adapter.Init(1, start), steps, s, step);
    s' := Adapter.Apply(s, step);
  }

  /** A configuration is enqueued while nothing is queued. */
  lemma Enqueued(start: PushCycle.World, s: Adapter.State, fabric: Fabric) returns (s': Adapter.State)
    requires Reachable(start, s) && s.box.queue == [] && s.box.producers == [Mailbox.Idle]
    requires s.box.ledger.issued == |s.forests|
    ensures Reachable(start, s') && s'.forests == s.forests + [ForestWith(fabric)]
    ensures var l, n := s.box.ledger, |s.forests| + 1;
            s' == s.(forests := s'.forests, box := s.box.(busy := s.box.busy + 1, queue := [n],
                     ledger := l.(issued := n, sent := l.sent + [n])))
  {
    hide Reachable, PushCycle.Enabled, PushCycle.Apply;
    s' := Play(start, s, Adapter.Enqueue(0, ForestWith(fabric)));
    s' := Play(start, s', Adapter.Box(Mailbox.DrainEmpty(0)));
    s' := Play(start, s', Adapter.Box(Mailbox.Send(0)));
  }

  /** It is dequeued and attempted once. */
  lemma Served(start: PushCycle.World, s: Adapter.State, fabric: Fabric, effect: Effect) returns (s': Adapter.State)
    requires Reachable(start, s) && s.box.consumer.Waiting? && s.attempt.None? && (fabric == PLAIN || fabric == ROUTED)
    requires s.forests != [] && Last(s.forests) == ForestWith(fabric) && s.box.queue == [|s.forests|]
    ensures Reachable(start, s')
    ensures var u, w := |s.forests|, s'.world;
            var errors := if s'.last.Returned? then s'.last.pushErrors else 0;
            && s' == s.(world := w, last := Adapter.Returned(u, errors, false), box := s'.box)
            && s'.box == s.box.(queue := [], ledger := s'.box.ledger,
                                consumer := if errors == 0 then Mailbox.Finishing(u, Mailbox.Succeeded)
                                            else Mailbox.Sleeping(u))
            && s'.box.ledger.issued == s.box.ledger.issued
            && w == WorldAfter(s.world, fabric, effect)
            && (errors == 0 <==> PushCycle.Unchanged(s.world, "f", NetConfigOf(fabric)) || effect.Reported())
  {
    hide PushCycle.Enabled, PushCycle.Apply, PushCycle.CacheKey, PushCycle.Ran, Adapter.Exec, NetConfigOf, WorldAfter;
    var s1 := Play(start, s, Adapter.Box(Mailbox.Dequeue));
    s1 := Play(start, s1, Adapter.Box(Mailbox.CheckPending));
    var inner, requests, c := Attempt(s1.world, fabric, effect);
    var steps :| Adapter.Exec(Adapter.Init(1, start), steps) == Some(s1);
    steps, s' := Adapter.AttemptRun(start, steps, s1, inner, requests, c, false);
  }

  /** The first configuration is in place, and the push of the second one has taken effect but is to
      be tried again. */
  lemma PushDoubted(start: PushCycle.World) returns (s: Adapter.State)
    requires start.caching && start.onos == map[] && start.cache == map[]
    ensures Reachable(start, s)
    ensures s.box.busy == 1 && s.box.queue == [] && s.box.producers == [Mailbox.Idle]
    ensures s.box.consumer == Mailbox.Sleeping(2) && s.box.ledger.issued == 2 && s.attempt.None?
    ensures s.forests == [ForestWith(PLAIN), ForestWith(ROUTED)]
    ensures s.world == start.(onos := map["f" := ROUTED_NETCONFIG],
                              cache := map[PushCycle.CacheKey("f") := PLAIN_NETCONFIG])
  {
    hide Reachable, PushCycle.Enabled, PushCycle.Apply, PushCycle.CacheKey, Adapter.Exec, NetConfigFrom, DrawnAs,
         Mailbox.Exec;
    Different();
    s := Adapter.Init(1, start);
    assert Reachable(start, s) by { Begun(start); }
    s := Enqueued(start, s, PLAIN);
    s := Served(start, s, PLAIN, Applied);
    s := Play(start, s, Adapter.Box(Mailbox.Complete));
    assert s.world == start.(onos := map["f" := PLAIN_NETCONFIG],
                             cache := map[PushCycle.CacheKey("f") := PLAIN_NETCONFIG]);
    s := Enqueued(start, s, ROUTED);
    s := Served(start, s, ROUTED, Unacknowledged);
  }

  /** The adapter is idle, its last attempt returned no push failures and no error, and all builds were
      complete; and yet ONOS does not hold a netconfig of the newest configuration, for any SIDs. */
  lemma ReportedSuccess(ip: string -> Option<Ip>) returns (s: Adapter.State)
    ensures Reachable(PushCycle.World(ip, true, map[], map[], map[], 0), s)
    ensures s.box.busy == 0 && s.last == Adapter.Returned(3, 0, false)
    ensures s.forests == [ForestWith(PLAIN), ForestWith(ROUTED), ForestWith(PLAIN)]
    ensures s.world.onos == map["f" := ROUTED_NETCONFIG]
    ensures forall sids :: !Adapter.ForestGood(s.world, Last(s.forests), sids)
  {
    hide Reachable, PushCycle.Enabled, PushCycle.Apply, PushCycle.CacheKey, NetConfigFrom, DrawnAs;
    var start := PushCycle.World(ip, true, map[], map[], map[], 0);
    s := PushDoubted(start);
    s := Enqueued(start, s, PLAIN);
    s := Play(start, s, Adapter.Box(Mailbox.Wake));
    s := Play(start, s, Adapter.Box(Mailbox.CheckPending));
    s := Play(start, s, Adapter.Box(Mailbox.Complete));
    s := Served(start, s, PLAIN, Applied);
    s := Play(start, s, Adapter.Box(Mailbox.Complete));
    forall sids
      ensures !Adapter.ForestGood(s.world, Last(s.forests), sids)
    {
      NotConverged(s.world, sids);
    }
  }

  lemma Begun(start: PushCycle.World)
    requires start.cache == map[]
    ensures Reachable(start, Adapter.Init(1, start))
  {
    Adapter.ExecNothing(Adapter.Init(1, start));
  }

  // ---------- a Forced update that pushes nothing ----------

  function At(phase: PushCycle.Phase): Option<PushCycle.Attempt> {
    Some(PushCycle.Attempt(ForestWith(PLAIN), {"f"}, 0, phase))
  }

  /** The first configuration is being attempted, and is built. */
  lemma FirstBuilt(start: PushCycle.World) returns (s: Adapter.State)
    requires start.caching && start.onos == map[] && start.cache == map[]
    ensures Reachable(start, s) && s.forests == [ForestWith(PLAIN)] && s.world == start
    ensures s.box.busy == 1 && s.box.queue == [] && s.box.producers == [Mailbox.Idle] && s.box.ledger.issued == 1
    ensures s.box.consumer == Mailbox.Attempting(1) && s.attempt == At(PushCycle.Built("f", PLAIN_NETCONFIG))
  {
    hide Reachable, PushCycle.CacheKey, Adapter.Exec, NetConfigFrom, DrawnAs, Mailbox.Exec, ChassisFrom,
         KnownSwitches;
    assert ForestWith(PLAIN).Keys == {"f"};
    s := Adapter.Init(1, start);
    assert Reachable(start, s) by { Begun(start); }
    s := Enqueued(start, s, PLAIN);
    s := Play(start, s, Adapter.Box(Mailbox.Dequeue));
    s := Play(start, s, Adapter.Box(Mailbox.CheckPending));
    s := Play(start, s, Adapter.Begin);
    BuiltFrom(start.ip, PLAIN, map[], start.next);
    s := Play(start, s, Adapter.Inner(PushCycle.Build("f", {}, PLAIN_NETCONFIG, map[], s.world.next)));
  }

  /** It has been pushed, and the cache does not know yet. */
  lemma PushedNotRemembered(start: PushCycle.World) returns (s: Adapter.State)
    requires start.caching && start.onos == map[] && start.cache == map[]
    ensures Reachable(start, s) && s.forests == [ForestWith(PLAIN)]
    ensures s.world == start.(onos := map["f" := PLAIN_NETCONFIG])
    ensures s.box.busy == 1 && s.box.queue == [] && s.box.producers == [Mailbox.Idle] && s.box.ledger.issued == 1
    ensures s.box.consumer == Mailbox.Attempting(1) && s.attempt == At(PushCycle.Accepted("f", PLAIN_NETCONFIG))
  {
    hide Reachable, PushCycle.CacheKey, Adapter.Exec, NetConfigFrom, DrawnAs, ChassisFrom, KnownSwitches,
         Mailbox.Enabled;
    s := FirstBuilt(start);
    s := Play(start, s, Adapter.Inner(PushCycle.Miss));
    s := Play(start, s, Adapter.Inner(PushCycle.Push(Applied)));
  }

  /** What is left of an attempt once ONOS is done. */
  lemma NoSwitches(s0: Adapter.State, s: Adapter.State, begins: nat) returns (s': Adapter.State)
    requires Forced.ReachableFrom(s0, s, begins, multiset{}) && s.attempt == At(PushCycle.OnosDone("f"))
    requires s.box.consumer.Attempting?
    ensures Forced.ReachableFrom(s0, s', begins, multiset{})
    ensures var u := s.box.consumer.update;
            s' == s.(box := s.box.(consumer := Mailbox.Finishing(u, Mailbox.Succeeded), ledger := s'.box.ledger),
                     attempt := None, last := Adapter.Returned(u, 0, false))
    ensures s'.box.ledger.issued == s.box.ledger.issued
  {
    hide Forced.ReachableFrom, PushCycle.CacheKey, NetConfigFrom, DrawnAs, ChassisFrom;
    var none: multiset<string> := multiset{};
    assert none + none == none;
    BuiltFrom(s.world.ip, PLAIN, map[], s.world.next);
    hide KnownSwitches;
    s' := Forced.Within(s0, s, begins, none, PushCycle.ListSwitches([]));
    s' := Forced.Within(s0, s', begins, none, PushCycle.EndFabric);
    s' := Forced.Play(s0, s', begins, none, Adapter.Finish);
  }

  /** The rest of the first attempt, after an invalidation. */
  lemma RememberedAfterwards(s0: Adapter.State, s: Adapter.State) returns (s': Adapter.State)
    requires Forced.ReachableFrom(s0, s, 0, multiset{}) && s.world.cache == map[]
    requires s.box.consumer == Mailbox.Attempting(1) && s.attempt == At(PushCycle.Accepted("f", PLAIN_NETCONFIG))
    ensures Forced.ReachableFrom(s0, s', 0, multiset{})
    ensures s'.world == s.world.(cache := map[PushCycle.CacheKey("f") := PLAIN_NETCONFIG])
    ensures s'.box == s.box.(consumer := Mailbox.Finishing(1, Mailbox.Succeeded), ledger := s'.box.ledger)
    ensures s'.box.ledger.issued == s.box.ledger.issued && s'.forests == s.forests
    ensures s'.attempt.None?
  {
    hide Forced.ReachableFrom, PushCycle.CacheKey, NetConfigFrom, DrawnAs, ChassisFrom, KnownSwitches;
    var none: multiset<string> := multiset{};
    assert none + none == none;
    s' := Forced.Within(s0, s, 0, none, PushCycle.Remember);
    s' := NoSwitches(s0, s', 0);
  }

  /** The whole attempt of the Forced update. */
  lemma SatisfiedByCache(s0: Adapter.State, s: Adapter.State) returns (s': Adapter.State)
    requires Forced.ReachableFrom(s0, s, 1, multiset{}) && s.world.caching
    requires s.world.cache == map[PushCycle.CacheKey("f") := PLAIN_NETCONFIG]
    requires s.box.consumer == Mailbox.Attempting(2) && s.attempt == Some(PushCycle.Fresh(ForestWith(PLAIN)))
    ensures Forced.ReachableFrom(s0, s', 1, multiset{}) && s'.forests == s.forests
    ensures s'.box.busy == s.box.busy - 1 && s'.last == Adapter.Returned(2, 0, false)
  {
    hide Forced.ReachableFrom, PushCycle.CacheKey, NetConfigFrom, DrawnAs, ChassisFrom, KnownSwitches;
    var none: multiset<string> := multiset{};
    assert none + none == none && ForestWith(PLAIN).Keys == {"f"};
    BuiltFrom(s.world.ip, PLAIN, map[], s.world.next);
    s' := Forced.Within(s0, s, 1, none, PushCycle.Build("f", {}, PLAIN_NETCONFIG, map[], s.world.next));
    s' := Forced.Within(s0, s', 1, none, PushCycle.Hit);
    s' := NoSwitches(s0, s', 1);
    s' := Forced.Play(s0, s', 1, none, Adapter.Box(Mailbox.Complete));
  }

  /** A Forced update that arrives while the adapter is busy with the same configuration. From the
      invalidation to the end its attempt is the only one to begin, it returns success, the adapter is
      idle, and nothing has been pushed. */
  lemma ForcedPushesNothing(ip: string -> Option<Ip>) returns (s: Adapter.State, t: Adapter.State)
    ensures Reachable(PushCycle.World(ip, true, map[], map[], map[], 0), s) && s.forests == [ForestWith(PLAIN)]
    ensures Forced.ReachableFrom(Adapter.Apply(s, Adapter.Invalidate), t, 1, multiset{})
    ensures t.forests == [ForestWith(PLAIN), ForestWith(PLAIN)]
    ensures t.box.busy == 0 && t.last == Adapter.Returned(2, 0, false)
  {
    hide Reachable, Forced.ReachableFrom, PushCycle.Enabled, PushCycle.Apply, PushCycle.CacheKey, NetConfigFrom,
         DrawnAs;
    s := PushedNotRemembered(PushCycle.World(ip, true, map[], map[], map[], 0));
    var s0 := Adapter.Apply(s, Adapter.Invalidate);
    assert Forced.ReachableFrom(s0, s0, 0, multiset{}) by { Forced.ReachableStart(s0); }
    t := Forced.EnqueueNow(s0, s0, ForestWith(PLAIN));
    t := RememberedAfterwards(s0, t);
    t := Forced.ServeNext(s0, t, multiset{}, 2);
    t := SatisfiedByCache(s0, t);
  }
}
