/** How far the pushes to the Stratum switches of a fabric have come: they go through the switches with
    a known model in the order of their keys, up to the first one that fails. */
module StratumPushes {
  import opened Basics
  import opened Text
  import opened Fabrics
  import PushCycle

  /** The switches with a known model, in the order given. */
  function KnownOf(fabric: Fabric, keys: seq<string>): (ks: seq<string>)
    requires forall k | k in keys :: k in fabric.switches
    ensures forall k :: k in ks <==> k in keys && k in KnownSwitches(fabric)
  {
    if keys == [] then []
    else
      assert keys == [keys[0]] + keys[1..];
      (if keys[0] in KnownSwitches(fabric) then [keys[0]] else []) + KnownOf(fabric, keys[1..])
  }

  lemma {:induction false} KnownOfSorted(fabric: Fabric, keys: seq<string>)
    requires Sorted(keys) && forall k | k in keys :: k in fabric.switches
    ensures Sorted(KnownOf(fabric, keys))
  {
    if keys != [] {
      KnownOfSorted(fabric, keys[1..]);
      var rest := KnownOf(fabric, keys[1..]);
      forall i | 0 <= i < |rest|
        ensures Less(keys[0], rest[i])
      {
        assert rest[i] in keys[1..];
      }
    }
  }

  /** `pushed` of the switches in `order` have accepted their chassis configurations, at most one more
      may have without acknowledging it, and nothing else has changed. */
  ghost predicate PushedPrefix(fabric: Fabric, f: string, order: seq<string>, pushed: nat,
                               before: map<(string, string), Chassis>, after: map<(string, string), Chassis>)
    requires pushed <= |order|
  {
    && (forall i | 0 <= i < pushed :: (f, order[i]) in after && ChassisFrom(fabric, order[i], after[(f, order[i])]))
    && (forall key | key in before || key in after ::
          || (key.0 == f && key.1 in order[..pushed])
          || (key.0 == f && pushed < |order| && key.1 == order[pushed]
              && key in after && ChassisFrom(fabric, key.1, after[key]))
          || (key in before && key in after && before[key] == after[key]))
  }

  lemma PushedOneMore(fabric: Fabric, f: string, order: seq<string>, pushed: nat,
                      before: map<(string, string), Chassis>,
                      between: map<(string, string), Chassis>, cc: Chassis, effect: Effect)
    requires pushed < |order| && PushedPrefix(fabric, f, order[..pushed], pushed, before, between)
    requires ChassisFrom(fabric, order[pushed], cc)
    ensures var after := if effect.Happened() then between[(f, order[pushed]) := cc] else between;
            if effect.Reported() then PushedPrefix(fabric, f, order[..pushed + 1], pushed + 1, before, after)
            else PushedPrefix(fabric, f, order, pushed, before, after)
  {
    hide ChassisFrom;
    assert order[..pushed + 1] == order[..pushed] + [order[pushed]];
    assert order[..pushed][..pushed] == order[..pushed];
    assert order[..pushed + 1][..pushed + 1] == order[..pushed + 1];
  }

  /** The management fields that are dereferenced when a chassis configuration is pushed. */
  predicate AllManaged(fabric: Fabric) {
    forall k | k in KnownSwitches(fabric) :: Managed(fabric.switches[k])
  }

  /** Where the loop over the switches is: `pushed` of the switches in `order` have been pushed, and
      the rest of them are among the keys that remain. */
  ghost predicate Pushing(w0: PushCycle.World, a: PushCycle.Attempt, f: string, fabric: Fabric,
                          steps: seq<PushCycle.Step>, requests: seq<PushCycle.Request>, order: seq<string>,
                          pushed: nat, keys: seq<string>, chassis: map<(string, string), Chassis>)
    requires pushed <= |order|
  {
    && f in a.forest && a.forest[f] == fabric && PushCycle.BuildsNothing(steps)
    && (forall k | k in keys :: k in fabric.switches)
    && order[pushed..] == KnownOf(fabric, keys)
    && PushedPrefix(fabric, f, order[..pushed], pushed, w0.chassis, chassis)
    && |requests| == pushed && Sent(fabric, f, order, requests)
    && (forall i | 0 <= i < pushed :: requests[i].effect.Reported())
    && PushCycle.Ran(PushCycle.Cycle.Cycle(w0, a.(phase := PushCycle.OnosDone(f))), steps, requests,
                     PushCycle.Cycle.Cycle(w0.(chassis := chassis), a.(phase := PushCycle.Stratum(f, order[pushed..]))))
  }

  /** These requests go to the first of the switches in `order`, each with its own chassis configuration. */
  ghost predicate Sent(fabric: Fabric, f: string, order: seq<string>, requests: seq<PushCycle.Request>) {
    && |requests| <= |order|
    && forall i | 0 <= i < |requests| ::
         && requests[i].ChassisSet? && requests[i].fabric == f && requests[i].switch_ == order[i]
         && ChassisFrom(fabric, order[i], requests[i].cc)
  }

  lemma ListedSwitches(w0: PushCycle.World, a: PushCycle.Attempt, f: string, fabric: Fabric, keys: seq<string>)
      returns (steps: seq<PushCycle.Step>, order: seq<string>)
    requires f in a.forest && a.forest[f] == fabric
    requires Sorted(keys) && forall k :: k in keys <==> k in fabric.switches
    ensures Sorted(order) && forall k :: k in order <==> k in KnownSwitches(fabric)
    ensures Pushing(w0, a, f, fabric, steps, [], order, 0, keys, w0.chassis)
  {
    hide PushCycle.Ran, Sorted, ModelKnown;
    KnownOfSorted(fabric, keys);
    order := KnownOf(fabric, keys);
    hide KnownOf;
    var c0 := PushCycle.Cycle.Cycle(w0, a.(phase := PushCycle.OnosDone(f)));
    PushCycle.RanNothing(c0);
    PushCycle.RanStep(c0, [], [], c0, PushCycle.ListSwitches(order));
    steps := [] + [PushCycle.ListSwitches(order)];
    assert [] + PushCycle.RequestOf(c0, PushCycle.ListSwitches(order)) == [];
    assert order[0..] == order;
  }

  lemma SkippedUnknown(w0: PushCycle.World, a: PushCycle.Attempt, f: string, fabric: Fabric,
                       steps: seq<PushCycle.Step>, requests: seq<PushCycle.Request>, order: seq<string>, pushed: nat,
                       keys: seq<string>, chassis: map<(string, string), Chassis>)
    requires pushed <= |order| && Pushing(w0, a, f, fabric, steps, requests, order, pushed, keys, chassis)
    requires keys != [] && keys[0] in fabric.switches && !ModelKnown(fabric, fabric.switches[keys[0]])
    ensures Pushing(w0, a, f, fabric, steps, requests, order, pushed, keys[1..], chassis)
  {
    hide PushCycle.Ran, PushedPrefix, ModelKnown, Sent;
    assert KnownOf(fabric, keys) == [] + KnownOf(fabric, keys[1..]);
  }

  lemma PushedNext(w0: PushCycle.World, a: PushCycle.Attempt, f: string, fabric: Fabric,
                   steps: seq<PushCycle.Step>, requests: seq<PushCycle.Request>, order: seq<string>, pushed: nat,
                   keys: seq<string>, chassis: map<(string, string), Chassis>, cc: Chassis, effect: Effect)
    requires pushed <= |order| && Pushing(w0, a, f, fabric, steps, requests, order, pushed, keys, chassis)
    requires keys != [] && keys[0] in fabric.switches && ModelKnown(fabric, fabric.switches[keys[0]])
    requires ChassisFrom(fabric, keys[0], cc)
    ensures pushed < |order|
    ensures var steps', requests', after := steps + [PushCycle.PushChassis(cc, effect)],
                                            requests + [PushCycle.ChassisSet(f, keys[0], cc, effect)],
                                            if effect.Happened() then chassis[(f, keys[0]) := cc] else chassis;
            if effect.Reported() then
              Pushing(w0, a, f, fabric, steps', requests', order, pushed + 1, keys[1..], after)
            else
              && PushCycle.BuildsNothing(steps') && Sent(fabric, f, order, requests')
              && PushedPrefix(fabric, f, order, pushed, w0.chassis, after)
              && PushCycle.Ran(PushCycle.Cycle.Cycle(w0, a.(phase := PushCycle.OnosDone(f))), steps', requests',
                               PushCycle.Cycle.Cycle(w0.(chassis := after),
                         a.(failures := a.failures + 1, todo := a.todo - {f}, phase := PushCycle.Between)))
  {
    hide PushCycle.Ran, PushedPrefix, ModelKnown, ChassisFrom;
    var c0 := PushCycle.Cycle.Cycle(w0, a.(phase := PushCycle.OnosDone(f)));
    assert KnownOf(fabric, keys) == [keys[0]] + KnownOf(fabric, keys[1..]);
    hide KnownOf;
    assert order[pushed..][0] == keys[0] && order[pushed..][1..] == order[pushed + 1..];
    var c := PushCycle.Cycle.Cycle(w0.(chassis := chassis), a.(phase := PushCycle.Stratum(f, order[pushed..])));
    PushCycle.RanStep(c0, steps, requests, c, PushCycle.PushChassis(cc, effect));
    PushedOneMore(fabric, f, order, pushed, w0.chassis, chassis, cc, effect);
  }

  lemma SomeSent(w0: PushCycle.World, a: PushCycle.Attempt, f: string, fabric: Fabric,
                 steps: seq<PushCycle.Step>, requests: seq<PushCycle.Request>, order: seq<string>, pushed: nat,
                 keys: seq<string>, chassis: map<(string, string), Chassis>)
    requires pushed <= |order| && Pushing(w0, a, f, fabric, steps, requests, order, pushed, keys, chassis)
    ensures |requests| == pushed && Sent(fabric, f, order, requests)
    ensures forall i | 0 <= i < pushed :: requests[i].effect.Reported()
  {
    hide PushCycle.Ran, PushedPrefix, KnownOf, Sent;
  }

  lemma PushedAll(w0: PushCycle.World, a: PushCycle.Attempt, f: string, fabric: Fabric,
                  steps: seq<PushCycle.Step>, requests: seq<PushCycle.Request>, order: seq<string>, pushed: nat,
                  keys: seq<string>, chassis: map<(string, string), Chassis>) returns (steps': seq<PushCycle.Step>)
    requires pushed <= |order| && Pushing(w0, a, f, fabric, steps, requests, order, pushed, keys, chassis) && keys == []
    ensures pushed == |order| && PushedPrefix(fabric, f, order, pushed, w0.chassis, chassis)
    ensures PushCycle.BuildsNothing(steps')
    ensures PushCycle.Ran(PushCycle.Cycle.Cycle(w0, a.(phase := PushCycle.OnosDone(f))), steps', requests,
                          PushCycle.Cycle.Cycle(w0.(chassis := chassis),
                                                a.(todo := a.todo - {f}, phase := PushCycle.Between)))
  {
    hide PushCycle.Ran, PushedPrefix, Sent;
    var c0 := PushCycle.Cycle.Cycle(w0, a.(phase := PushCycle.OnosDone(f)));
    assert order[..pushed] == order;
    var c := PushCycle.Cycle.Cycle(w0.(chassis := chassis), a.(phase := PushCycle.Stratum(f, order[pushed..])));
    PushCycle.RanStep(c0, steps, requests, c, PushCycle.EndFabric);
    steps' := steps + [PushCycle.EndFabric];
    assert requests + PushCycle.RequestOf(c, PushCycle.EndFabric) == requests;
  }

  lemma IsManaged(fabric: Fabric, k: string)
    requires AllManaged(fabric) && k in fabric.switches && ModelKnown(fabric, fabric.switches[k])
    ensures Managed(fabric.switches[k])
  {
  }
}
