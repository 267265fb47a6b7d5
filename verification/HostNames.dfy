/** Switches with host names, over a whole run of the adapter: their loopbacks are pairwise distinct, their
    fabrics are pushed anew by every attempt, and after 128 of them there are no more. All of this holds
    until the 32-bit counter of synthetic addresses wraps. */
module HostNames {
  import opened Basics
  import opened Net
  import opened Fabrics
  import opened Builds
  import PushCycle
  import opened Adapter

  lemma NextGrows(s: State, step: Step)
    requires Enabled(s, step)
    ensures s.world.next <= Apply(s, step).world.next && Apply(s, step).world.ip == s.world.ip
  {
    hide PushCycle.Enabled, PushCycle.Apply;
    if step.Inner? { PushCycle.NextGrows(Cycle(s), step.inner); }
  }

  lemma FreshStep(s: State, step: Step)
    requires PushCycle.AllDated(Cycle(s)) && PushCycle.FreshlyBuilt(Cycle(s)) && Enabled(s, step)
    requires Apply(s, step).world.next <= TWO_32 && (step.Begin? ==> s.attempt.None?)
    ensures PushCycle.AllDated(Cycle(Apply(s, step))) && PushCycle.FreshlyBuilt(Cycle(Apply(s, step)))
  {
    hide PushCycle.Enabled, PushCycle.Apply, PushCycle.CacheKey, HasHostName, Dated;
    if step.Inner? { PushCycle.DatedStep(Cycle(s), step.inner); }
  }

  lemma IdleBeforeBegin(s: State, step: Step)
    requires Coherent(s) && Enabled(s, step)
    ensures step.Begin? ==> s.attempt.None?
  {
  }

  /** All synthetic loopbacks anywhere were drawn before, and what has just been built is not in the
      cache if it has one. */
  lemma {:induction false} FreshThroughout(n: nat, start: PushCycle.World, steps: seq<Step>, s: State)
    requires Exec(Init(n, start), steps) == Some(s) && s.world.next <= TWO_32
    ensures PushCycle.AllDated(Cycle(s)) && PushCycle.FreshlyBuilt(Cycle(s))
    decreases |steps|
  {
    hide Enabled, Apply, PushCycle.AllDated, PushCycle.FreshlyBuilt, Coherent;
    if steps == [] {
      NothingDated(n, start);
    } else {
      var front := steps[..|steps| - 1];
      var before := Exec(Init(n, start), front).value;
      NextGrows(before, Last(steps));
      FreshThroughout(n, start, front, before);
      CoherentThroughout(n, start, front, before);
      IdleBeforeBegin(before, Last(steps));
      FreshStep(before, Last(steps));
    }
  }

  lemma NothingDated(n: nat, start: PushCycle.World)
    ensures PushCycle.AllDated(Cycle(Init(n, start))) && PushCycle.FreshlyBuilt(Cycle(Init(n, start)))
  {
  }

  /** A netconfig with a host name in it never hits the cache: its fabric is pushed anew by every attempt,
      whether or not its configuration has changed. */
  lemma HostNamesNeverHit(n: nat, start: PushCycle.World, steps: seq<Step>, s: State)
    requires Exec(Init(n, start), steps) == Some(s) && s.world.next <= TWO_32
    requires Enabled(s, Inner(PushCycle.Hit))
    ensures !HasHostName(s.world.ip, s.attempt.value.phase.nc)
  {
    hide Exec, PushCycle.AllDated, HasHostName, PushCycle.CacheKey;
    FreshThroughout(n, start, steps, s);
  }

  // ---------- distinct loopbacks ----------

  lemma {:induction false} StateAt(s0: State, steps: seq<Step>, s: State, i: nat) returns (before: State)
    requires Exec(s0, steps) == Some(s) && i < |steps|
    ensures Exec(s0, steps[..i]) == Some(before) && Enabled(before, steps[i])
    ensures before.world.ip == s0.world.ip && Apply(before, steps[i]).world.next <= s.world.next
    ensures s0.world.next <= before.world.next
    decreases |steps|
  {
    hide Enabled, Apply;
    var front := steps[..|steps| - 1];
    var last := Exec(s0, front).value;
    NextGrows(last, Last(steps));
    if i == |steps| - 1 {
      before := last;
      IpFixed(s0, front, before);
    } else {
      before := StateAt(s0, front, last, i);
      assert front[..i] == steps[..i] && front[i] == steps[i];
    }
  }

  lemma {:induction false} IpFixed(s0: State, steps: seq<Step>, s: State)
    requires Exec(s0, steps) == Some(s)
    ensures s.world.ip == s0.world.ip && s0.world.next <= s.world.next
    decreases |steps|
  {
    hide Enabled, Apply;
    if steps != [] {
      var before := Exec(s0, steps[..|steps| - 1]).value;
      IpFixed(s0, steps[..|steps| - 1], before);
      NextGrows(before, Last(steps));
    }
  }

  /** What a build of the run numbers, it numbers between the readings before and after. */
  lemma NumberedThen(s: State, i: PushCycle.Step, key: string)
    requires Enabled(s, Inner(i)) && i.Build? && key in i.nc.devices && HostDevice(s.world.ip, i.nc.devices[key])
    ensures NumberedWithin(i.nc.devices[key].loopback, s.world.next, i.next)
    ensures Apply(s, Inner(i)).world.next == i.next
    ensures i.next <= TWO_32 ==>
              forall other | other in i.nc.devices && other != key && HostDevice(s.world.ip, i.nc.devices[other]) ::
                i.nc.devices[other].loopback != i.nc.devices[key].loopback
  {
    hide NetConfigFrom, DrawnAs, HostDevice, NumberedWithin;
    BuildNumbers(s.world.ip, s.attempt.value.forest[i.fabric], i.done, i.sids, i.nc, s.world.next, i.next);
  }

  /** Over all fabrics and all attempts of a run, no two devices with host names, of different builds or
      of the same, are ever given the same loopback. */
  lemma LoopbacksDistinct(n: nat, start: PushCycle.World, steps: seq<Step>, s: State,
                          i: nat, a: string, j: nat, b: string)
    requires Exec(Init(n, start), steps) == Some(s) && s.world.next <= TWO_32 && i <= j < |steps|
    requires steps[i].Inner? && steps[i].inner.Build? && steps[j].Inner? && steps[j].inner.Build?
    requires a in steps[i].inner.nc.devices && HostDevice(start.ip, steps[i].inner.nc.devices[a])
    requires b in steps[j].inner.nc.devices && HostDevice(start.ip, steps[j].inner.nc.devices[b])
    requires i < j || a != b
    ensures steps[i].inner.nc.devices[a].loopback != steps[j].inner.nc.devices[b].loopback
  {
    hide Exec, Enabled, Apply, HostDevice, Loopback;
    var s0 := Init(n, start);
    var later := StateAt(s0, steps, s, j);
    NumberedThen(later, steps[j].inner, b);
    if i < j {
      var earlier := StateAt(s0, steps[..j], later, i);
      assert steps[..j][..i] == steps[..i];
      NumberedThen(earlier, steps[i].inner, a);
      ApartIfApart(steps[i].inner.nc.devices[a].loopback, steps[i].inner.next,
                   steps[j].inner.nc.devices[b].loopback, later.world.next);
    }
  }

  lemma ApartIfApart(x: string, next: nat, y: string, first: nat)
    requires exists c: nat :: c < next && x == Loopback(c)
    requires exists d: nat :: first < d < TWO_32 && y == Loopback(d)
    requires next <= first
    ensures x != y
  {
    hide Loopback;
    var c: nat :| c < next && x == Loopback(c);
    var d: nat :| first < d < TWO_32 && y == Loopback(d);
    if x == y { LoopbackInjective(c, d); }
  }

  // ---------- running out ----------

  /** How many devices with host names the builds of a run have given. */
  ghost function NumbersUsed(s0: State, steps: seq<Step>): nat {
    if steps == [] then 0
    else
      var front, step := steps[..|steps| - 1], Last(steps);
      NumbersUsed(s0, front) + if Exec(s0, front).Some? then NumbersIn(Exec(s0, front).value, step) else 0
  }

  ghost function NumbersIn(s: State, step: Step): nat {
    if step.Inner? && step.inner.Build? && s.attempt.Some? && step.inner.fabric in s.attempt.value.forest
    then |Hosts(s.world.ip, s.attempt.value.forest[step.inner.fabric], step.inner.done)| else 0
  }

  lemma UsedUpStep(s: State, step: Step)
    requires Enabled(s, step) && Apply(s, step).world.next <= TWO_32
    ensures NumbersIn(s, step) + Remaining(Apply(s, step).world.next) <= Remaining(s.world.next)
  {
    hide NetConfigFrom, DrawnAs, Hosts, Remaining, ChassisFrom, KnownSwitches, PushCycle.CacheKey, Mailbox.Enabled,
         Mailbox.Apply;
    if step.Inner? && step.inner.Build? {
      var i := step.inner;
      BuildUsesUp(s.world.ip, s.attempt.value.forest[i.fabric], i.done, i.sids, i.nc, s.world.next, i.next);
    }
  }

  /** In the whole run at most 128 of them. */
  lemma {:induction false} AtMost128(n: nat, start: PushCycle.World, steps: seq<Step>, s: State)
    requires Exec(Init(n, start), steps) == Some(s) && s.world.next <= TWO_32
    ensures NumbersUsed(Init(n, start), steps) + Remaining(s.world.next) <= Remaining(start.next) <= 128
    decreases |steps|
  {
    hide Enabled, Apply, NumbersIn, PushCycle.CacheKey;
    if steps != [] {
      var front := steps[..|steps| - 1];
      var before := Exec(Init(n, start), front).value;
      NextGrows(before, Last(steps));
      AtMost128(n, start, front, before);
      hide Remaining;
      UsedUpStep(before, Last(steps));
    }
  }

  /** The numbers had run out when the last attempt began. */
  ghost predicate BegunTooLate(s0: State, steps: seq<Step>) {
    steps != []
    && if Last(steps).Begin? then
         Exec(s0, steps[..|steps| - 1]).Some? && Remaining(Exec(s0, steps[..|steps| - 1]).value.world.next) == 0
       else BegunTooLate(s0, steps[..|steps| - 1])
  }

  ghost predicate NoHosts(ip: string -> Option<Ip>, t: PushCycle.Trail) {
    forall f | f in t.built :: Hosts(ip, t.built[f].fabric, t.built[f].done) == {}
  }

  lemma NoHostsStep(s: State, t: PushCycle.Trail, step: Step)
    requires NoHosts(s.world.ip, t) && Enabled(s, step) && s.world.next >= 255 && Apply(s, step).world.next <= TWO_32
    ensures NoHosts(s.world.ip, After(s, t, step))
  {
    hide NetConfigFrom, DrawnAs, Hosts, Remaining, ChassisFrom, KnownSwitches, PushCycle.CacheKey, Mailbox.Enabled,
         Mailbox.Apply;
    if step.Inner? && step.inner.Build? {
      var i := step.inner;
      BuildUsesUp(s.world.ip, s.attempt.value.forest[i.fabric], i.done, i.sids, i.nc, s.world.next, i.next);
    }
  }

  lemma {:induction false} NoHostsThroughout(n: nat, start: PushCycle.World, steps: seq<Step>, s: State)
    requires Exec(Init(n, start), steps) == Some(s) && s.world.next <= TWO_32
    requires BegunTooLate(Init(n, start), steps)
    ensures NoHosts(s.world.ip, TrailOf(Init(n, start), steps)) && s.world.next >= 255
    decreases |steps|
  {
    hide Enabled, Apply, NoHosts, After;
    var front := steps[..|steps| - 1];
    var before := Exec(Init(n, start), front).value;
    NextGrows(before, Last(steps));
    if Last(steps).Begin? {
      NoneBuilt(s.world.ip, before, TrailOf(Init(n, start), front));
    } else {
      NoHostsThroughout(n, start, front, before);
      NoHostsStep(before, TrailOf(Init(n, start), front), Last(steps));
    }
  }

  lemma NoneBuilt(ip: string -> Option<Ip>, s: State, t: PushCycle.Trail)
    ensures NoHosts(ip, After(s, t, Begin))
  {
  }

  lemma InHosts(ip: string -> Option<Ip>, fabric: Fabric, done: set<string>, k: string)
    requires k in fabric.switches && HostName(ip, fabric.switches[k])
    ensures k in done <==> k in Hosts(ip, fabric, done)
  {
  }

  /** Once that many have been given, no attempt at a configuration with an eligible switch that has a host
      name is sound any more, although it may well return (0, nil). */
  lemma TooLateToBeSound(n: nat, start: PushCycle.World, steps: seq<Step>, s: State, f: string, k: string)
    requires Exec(Init(n, start), steps) == Some(s) && s.world.next <= TWO_32 && Succeeded(s.last)
    requires BegunTooLate(Init(n, start), steps)
    requires var forest := ForestOf(s, s.last.update);
             f in forest && k in Eligible(forest[f]) && HostName(s.world.ip, forest[f].switches[k])
    ensures !Sound(TrailOf(Init(n, start), steps), ForestOf(s, s.last.update))
  {
    hide Exec, TrailOf, BegunTooLate, PushCycle.CacheAgrees, PushCycle.DoubtsFounded, PushCycle.DoubtsHeld,
         PushCycle.AttemptSettled, PushCycle.ChassisGood, NetConfigFrom, HostName;
    var t, fabric := TrailOf(Init(n, start), steps), ForestOf(s, s.last.update)[f];
    NoHostsThroughout(n, start, steps, s);
    TracedThroughout(n, start, steps, s);
    assert PushCycle.FabricSettled(s.world, t, f, fabric);
    if f !in t.stale {
      InHosts(s.world.ip, fabric, t.built[f].done, k);
    }
  }
}
