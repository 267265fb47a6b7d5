/** The whole adapter: producers that call Synchronize, the mailbox, the retry loop, and the
    attempts it makes, interleaved step by step. */
module Adapter {
  import opened Basics
  import opened Fabrics
  import opened Builds
  import Net
  import Mailbox
  import PushCycle
  import SidStore

  type Ticket = Mailbox.Ticket

  datatype LastAttempt = NoneYet | Running | Returned(update: Ticket, pushErrors: nat, fatal: bool)

  /** `forests` holds the private copy of every configuration issued, in order. */
  datatype State = State(box: Mailbox.State, forests: seq<PushCycle.Forest>, world: PushCycle.World,
                         attempt: Option<PushCycle.Attempt>, last: LastAttempt)

  datatype Step =
    | Enqueue(p: nat, forest: PushCycle.Forest)  // deep copy and busy increment
    | Box(move: Mailbox.Step)                    // any other step of the mailbox but the next three
    | Begin                                      // SynchronizeDevice is called
    | Inner(inner: PushCycle.Step)
    | LookupFailed                               // a controller is not found: a fatal error
    | Finish                                     // SynchronizeDevice returns
    | Invalidate                                 // a Forced update empties the cache

  ghost predicate Enabled(s: State, step: Step) {
    match step
    case Enqueue(p, _) => Mailbox.Enabled(s.box, Mailbox.Increment(p))
    case Box(b) => !b.Increment? && !b.Start? && !b.Return? && Mailbox.Enabled(s.box, b)
    case Begin => s.box.consumer.Cleared?
    case Inner(i) => s.attempt.Some? && PushCycle.Enabled(Cycle(s), i)
    case LookupFailed => s.attempt.Some? && s.box.consumer.Attempting? && s.attempt.value.phase.Between?
                         && s.attempt.value.todo != {}
    case Finish => s.attempt.Some? && s.box.consumer.Attempting? && s.attempt.value.phase.Between?
                   && s.attempt.value.todo == {}
    case Invalidate => true
  }

  function ForestIn(forests: seq<PushCycle.Forest>, u: Ticket): PushCycle.Forest {
    if 1 <= u <= |forests| then forests[u - 1] else map[]
  }

  function ForestOf(s: State, u: Ticket): PushCycle.Forest {
    ForestIn(s.forests, u)
  }

  function Cycle(s: State): PushCycle.Cycle {
    PushCycle.Cycle.Cycle(s.world, if s.attempt.Some? then s.attempt.value else PushCycle.IDLE)
  }

  ghost function Apply(s: State, step: Step): State
    requires Enabled(s, step)
  {
    match step
    case Enqueue(p, forest) =>
      s.(box := Mailbox.Apply(s.box, Mailbox.Increment(p)), forests := s.forests + [forest])
    case Box(b) => s.(box := Mailbox.Apply(s.box, b))
    case Begin =>
      s.(box := Mailbox.Apply(s.box, Mailbox.Start), last := Running,
         attempt := Some(PushCycle.Fresh(ForestOf(s, s.box.consumer.update))))
    case Inner(i) =>
      var c := PushCycle.Apply(Cycle(s), i);
      s.(world := c.world, attempt := Some(c.attempt))
    case LookupFailed => Return(s, 0, true)
    case Finish => Return(s, s.attempt.value.failures, false)
    case Invalidate => s.(world := s.world.(cache := map[]))
  }

  function Return(s: State, pushErrors: nat, fatal: bool): State
    requires s.box.consumer.Attempting?
  {
    s.(box := Mailbox.Apply(s.box, Mailbox.Return(pushErrors, fatal)), attempt := None,
       last := Returned(s.box.consumer.update, pushErrors, fatal))
  }

  /** The adapter starts with an empty cache; the controllers and the SID store may hold anything. */
  function Init(n: nat, start: PushCycle.World): State {
    State(Mailbox.Init(n), [], start.(cache := map[]), None, NoneYet)
  }

  ghost function Exec(s: State, steps: seq<Step>): Option<State> {
    if steps == [] then Some(s)
    else
      var before := Exec(s, steps[..|steps| - 1]);
      if before.Some? && Enabled(before.value, Last(steps)) then Some(Apply(before.value, Last(steps)))
      else None
  }

  lemma ExecNothing(s: State)
    ensures Exec(s, []) == Some(s)
  {
  }

  lemma ExecStep(s0: State, steps: seq<Step>, s: State, step: Step)
    requires Exec(s0, steps) == Some(s) && Enabled(s, step)
    ensures Exec(s0, steps + [step]) == Some(Apply(s, step))
  {
    assert (steps + [step])[..|steps|] == steps;
  }

  lemma {:induction false} ExecConcat(s0: State, a: seq<Step>, s1: State, b: seq<Step>, s2: State)
    requires Exec(s0, a) == Some(s1) && Exec(s1, b) == Some(s2)
    ensures Exec(s0, a + b) == Some(s2)
    decreases |b|
  {
    hide Enabled, Apply;
    if b == [] {
      assert a + b == a;
    } else {
      var front := b[..|b| - 1];
      ExecConcat(s0, a, s1, front, Exec(s1, front).value);
      assert (a + b)[..|a + b| - 1] == a + front;
    }
  }

  /** The steps of one attempt are steps of the adapter. */
  function AsInner(steps: seq<PushCycle.Step>): seq<Step> {
    if steps == [] then [] else AsInner(steps[..|steps| - 1]) + [Inner(Last(steps))]
  }

  lemma {:induction false} InnerRun(s0: State, steps: seq<Step>, s: State, inner: seq<PushCycle.Step>,
                                    c: PushCycle.Cycle)
    requires Exec(s0, steps) == Some(s) && s.attempt.Some? && PushCycle.Exec(Cycle(s), inner) == Some(c)
    ensures Exec(s0, steps + AsInner(inner)) == Some(s.(world := c.world, attempt := Some(c.attempt)))
    decreases |inner|
  {
    hide Exec, PushCycle.Enabled, PushCycle.Apply;
    if inner == [] {
      assert steps + AsInner(inner) == steps;
    } else {
      var front := inner[..|inner| - 1];
      var d := PushCycle.Exec(Cycle(s), front).value;
      InnerRun(s0, steps, s, front, d);
      ExecStep(s0, steps + AsInner(front), s.(world := d.world, attempt := Some(d.attempt)), Inner(Last(inner)));
      assert steps + AsInner(inner) == steps + AsInner(front) + [Inner(Last(inner))];
    }
  }

  // ---------- what there is to know about a run ----------

  const NO_TRAIL := PushCycle.Trail(map[], map[], map[])

  function After(s: State, t: PushCycle.Trail, step: Step): PushCycle.Trail {
    match step
    case Inner(i) => if Cycle(s).attempt.phase.Between? && !i.Build? then t else PushCycle.Follow(Cycle(s), t, i)
    case Begin => PushCycle.Trail(t.doubts, map[], map[])
    case Invalidate => t.(doubts := map[])
    case _ => t
  }

  /** The doubts at the end of a run, and the builds and stale hits since its last attempt began. */
  ghost function TrailOf(s0: State, steps: seq<Step>): PushCycle.Trail {
    if steps == [] then NO_TRAIL
    else
      var before, t := Exec(s0, steps[..|steps| - 1]), TrailOf(s0, steps[..|steps| - 1]);
      if before.Some? then After(before.value, t, Last(steps)) else t
  }

  lemma TrailStep(s0: State, steps: seq<Step>, s: State, step: Step)
    requires Exec(s0, steps) == Some(s)
    ensures TrailOf(s0, steps + [step]) == After(s, TrailOf(s0, steps), step)
  {
    hide Exec, After;
    assert (steps + [step])[..|steps|] == steps;
  }

  /** All that is in `built` was built by one of these steps. */
  predicate BuiltIn(built: map<string, PushCycle.Building>, inner: seq<PushCycle.Step>) {
    forall f | f in built ::
      exists i | 0 <= i < |inner| && inner[i].Build? && inner[i].fabric == f ::
        built[f].done == inner[i].done && built[f].sids == inner[i].sids
  }

  lemma {:induction false} InnerTrail(s0: State, steps: seq<Step>, s: State, inner: seq<PushCycle.Step>,
                                      c: PushCycle.Cycle)
    requires Exec(s0, steps) == Some(s) && s.attempt.Some? && PushCycle.Exec(Cycle(s), inner) == Some(c)
    requires TrailOf(s0, steps).built == map[]
    ensures BuiltIn(TrailOf(s0, steps + AsInner(inner)).built, inner)
    decreases |inner|
  {
    hide Exec, PushCycle.Enabled, PushCycle.Apply, TrailOf, PushCycle.CacheKey;
    if inner == [] {
      assert steps + AsInner(inner) == steps;
    } else {
      var front := inner[..|inner| - 1];
      var d := PushCycle.Exec(Cycle(s), front).value;
      InnerTrail(s0, steps, s, front, d);
      InnerRun(s0, steps, s, front, d);
      TrailStep(s0, steps + AsInner(front), s.(world := d.world, attempt := Some(d.attempt)), Inner(Last(inner)));
      assert steps + AsInner(inner) == steps + AsInner(front) + [Inner(Last(inner))];
      var built := TrailOf(s0, steps + AsInner(inner)).built;
      forall f | f in built
        ensures exists i | 0 <= i < |inner| && inner[i].Build? && inner[i].fabric == f ::
                  built[f].done == inner[i].done && built[f].sids == inner[i].sids
      {
        if Last(inner).Build? && Last(inner).fabric == f {
          assert inner[|inner| - 1].Build?;
        } else {
          var i :| 0 <= i < |front| && front[i].Build? && front[i].fabric == f
                   && TrailOf(s0, steps + AsInner(front)).built[f].done == front[i].done
                   && TrailOf(s0, steps + AsInner(front)).built[f].sids == front[i].sids;
          assert inner[i] == front[i];
        }
      }
    }
  }

  /** The requests made to the controllers during a run. */
  ghost function RequestsIn(s0: State, steps: seq<Step>): seq<PushCycle.Request> {
    if steps == [] then []
    else
      var before, last := Exec(s0, steps[..|steps| - 1]), Last(steps);
      RequestsIn(s0, steps[..|steps| - 1])
      + if before.Some? && last.Inner? then PushCycle.RequestOf(Cycle(before.value), last.inner) else []
  }

  lemma RequestsStep(s0: State, steps: seq<Step>, s: State, step: Step)
    requires Exec(s0, steps) == Some(s)
    ensures RequestsIn(s0, steps + [step])
            == RequestsIn(s0, steps) + if step.Inner? then PushCycle.RequestOf(Cycle(s), step.inner) else []
  {
    hide Exec, PushCycle.RequestOf;
    assert (steps + [step])[..|steps|] == steps;
  }

  /** Those of an attempt made in isolation are made by the adapter. */
  lemma {:induction false} InnerRequests(s0: State, steps: seq<Step>, s: State, inner: seq<PushCycle.Step>,
                                         requests: seq<PushCycle.Request>, c: PushCycle.Cycle)
    requires Exec(s0, steps) == Some(s) && s.attempt.Some? && PushCycle.Ran(Cycle(s), inner, requests, c)
    ensures RequestsIn(s0, steps + AsInner(inner)) == RequestsIn(s0, steps) + requests
    decreases |inner|
  {
    hide Exec, PushCycle.Ran, PushCycle.Enabled, PushCycle.Apply, RequestsIn, PushCycle.RequestOf;
    if inner == [] {
      PushCycle.RanOnce(Cycle(s), requests, c);
      assert steps + AsInner(inner) == steps && RequestsIn(s0, steps) + [] == RequestsIn(s0, steps);
    } else {
      var front := inner[..|inner| - 1];
      var d, earlier := PushCycle.RanLast(Cycle(s), inner, requests, c);
      InnerRequests(s0, steps, s, front, earlier, d);
      assert PushCycle.Exec(Cycle(s), front) == Some(d) by { PushCycle.RanIsExec(Cycle(s), front, earlier, d); }
      InnerRun(s0, steps, s, front, d);
      RequestsStep(s0, steps + AsInner(front), s.(world := d.world, attempt := Some(d.attempt)), Inner(Last(inner)));
      assert steps + AsInner(inner) == steps + AsInner(front) + [Inner(Last(inner))];
    }
  }

  /** A whole attempt, from the call of SynchronizeDevice to its return. */
  lemma AttemptRun(start: PushCycle.World, steps: seq<Step>, s: State, inner: seq<PushCycle.Step>,
                   requests: seq<PushCycle.Request>, c: PushCycle.Cycle, fatal: bool)
      returns (steps': seq<Step>, s': State)
    requires Exec(Init(1, start), steps) == Some(s) && s.box.consumer.Cleared?
    requires PushCycle.Ran(PushCycle.Cycle.Cycle(s.world, PushCycle.Fresh(ForestOf(s, s.box.consumer.update))),
                           inner, requests, c)
    requires c.attempt.phase.Between? && (fatal <==> c.attempt.todo != {})
    ensures Exec(Init(1, start), steps') == Some(s') && steps <= steps'
    ensures BuiltIn(TrailOf(Init(1, start), steps').built, inner)
    ensures RequestsIn(Init(1, start), steps') == RequestsIn(Init(1, start), steps) + requests
    ensures var u, errors := s.box.consumer.update, if fatal then 0 else c.attempt.failures;
            s' == s.(world := c.world, attempt := None, last := Returned(u, errors, fatal),
                     box := s.box.(ledger := s.box.ledger.(started := s.box.ledger.started + [u], returned :=
                                               s.box.ledger.returned + [Mailbox.Outcome(u, errors, fatal)]),
                                   consumer := if fatal then Mailbox.Finishing(u, Mailbox.Abandoned)
                                               else if errors == 0 then Mailbox.Finishing(u, Mailbox.Succeeded)
                                               else Mailbox.Sleeping(u)))
  {
    hide Exec, PushCycle.Exec, PushCycle.Enabled, PushCycle.Apply, TrailOf, BuiltIn, RequestsIn, PushCycle.RequestsOf;
    var s0 := Init(1, start);
    var last := if fatal then LookupFailed else Finish;
    ExecStep(s0, steps, s, Begin);
    var s1 := Apply(s, Begin);
    InnerRun(s0, steps + [Begin], s1, inner, c);
    var s2 := s1.(world := c.world, attempt := Some(c.attempt));
    ExecStep(s0, steps + [Begin] + AsInner(inner), s2, last);
    steps', s' := steps + [Begin] + AsInner(inner) + [last], Apply(s2, last);
    TrailStep(s0, steps, s, Begin);
    InnerTrail(s0, steps + [Begin], s1, inner, c);
    TrailStep(s0, steps + [Begin] + AsInner(inner), s2, last);
    RequestsStep(s0, steps, s, Begin);
    InnerRequests(s0, steps + [Begin], s1, inner, requests, c);
    RequestsStep(s0, steps + [Begin] + AsInner(inner), s2, last);
  }

  predicate NoLookupFails(steps: seq<Step>) {
    forall i | 0 <= i < |steps| :: !steps[i].LookupFailed?
  }

  function CountedNow(s: State): nat {
    if s.attempt.Some? then s.attempt.value.failures else 0
  }

  /** Push errors are conserved: in every run without an error, the requests that were not reported to have
      succeeded are those that attempts have returned and those that the one under way has counted. */
  lemma {:induction false} PushErrorsConserved(n: nat, start: PushCycle.World, steps: seq<Step>, s: State)
    requires Exec(Init(n, start), steps) == Some(s) && NoLookupFails(steps)
    ensures PushCycle.Unreported(RequestsIn(Init(n, start), steps))
            == Mailbox.PushErrors(s.box.ledger.returned) + CountedNow(s)
    decreases |steps|
  {
    hide Enabled, Apply, CountedNow, PushCycle.Unreported, Mailbox.PushErrors, PushCycle.RequestOf;
    if steps == [] {
      NothingCounted(n, start);
    } else {
      var front, step := steps[..|steps| - 1], Last(steps);
      var before := Exec(Init(n, start), front).value;
      PushErrorsConserved(n, start, front, before);
      CoherentThroughout(n, start, front, before);
      assert !steps[|steps| - 1].LookupFailed?;
      PushErrorsStep(before, step);
      PushCycle.UnreportedConcat(RequestsIn(Init(n, start), front),
                                 if step.Inner? then PushCycle.RequestOf(Cycle(before), step.inner) else []);
    }
  }

  lemma NothingCounted(n: nat, start: PushCycle.World)
    ensures CountedNow(Init(n, start)) == 0 && Mailbox.PushErrors(Init(n, start).box.ledger.returned) == 0
    ensures PushCycle.Unreported([]) == 0
  {
  }

  lemma PushErrorsStep(s: State, step: Step)
    requires Coherent(s) && Enabled(s, step) && !step.LookupFailed?
    ensures Mailbox.PushErrors(Apply(s, step).box.ledger.returned) + CountedNow(Apply(s, step))
            == Mailbox.PushErrors(s.box.ledger.returned) + CountedNow(s)
               + PushCycle.Unreported(if step.Inner? then PushCycle.RequestOf(Cycle(s), step.inner) else [])
  {
    hide PushCycle.Enabled, PushCycle.Apply, PushCycle.RequestOf, Mailbox.PushErrors;
    match step {
      case Inner(i) => PushCycle.FailuresStep(Cycle(s), i);
      case Finish =>
        var u, errors := s.box.consumer.update, s.attempt.value.failures;
        Mailbox.PushErrorsSnoc(s.box.ledger.returned, Mailbox.Outcome(u, errors, false));
      case _ =>
    }
  }

  // ---------- the mailbox inside ----------

  /** Every run of the adapter is, as far as the mailbox is concerned, a run of the mailbox. */
  lemma {:induction false} MailboxRun(n: nat, start: PushCycle.World, steps: seq<Step>, s: State)
    requires Exec(Init(n, start), steps) == Some(s)
    ensures Mailbox.Reachable(n, s.box)
    decreases |steps|
  {
    hide Mailbox.Reachable, PushCycle.Enabled, PushCycle.Apply;
    if steps == [] {
      Mailbox.ReachInit(n);
    } else {
      var before := Exec(Init(n, start), steps[..|steps| - 1]).value;
      MailboxRun(n, start, steps[..|steps| - 1], before);
      match Last(steps) {
        case Enqueue(p, _) => Mailbox.Reach(n, before.box, Mailbox.Increment(p), s.box);
        case Box(b) => Mailbox.Reach(n, before.box, b, s.box);
        case Begin => Mailbox.Reach(n, before.box, Mailbox.Start, s.box);
        case LookupFailed => Mailbox.Reach(n, before.box, Mailbox.Return(0, true), s.box);
        case Finish => Mailbox.Reach(n, before.box, Mailbox.Return(before.attempt.value.failures, false), s.box);
        case _ =>
      }
    }
  }

  // ---------- what every step keeps ----------

  /** The consumer, the attempt it makes and the record of the last attempt fit together. */
  ghost predicate Coherent(s: State) {
    var u := s.box.consumer;
    && |s.forests| == s.box.ledger.issued
    && (s.attempt.Some? <==> u.Attempting?)
    && (s.last.Running? <==> u.Attempting?)
    && (s.attempt.Some? ==> 1 <= u.update <= |s.forests| && s.attempt.value.forest == ForestOf(s, u.update))
    && (s.last.Returned? ==>
          1 <= s.last.update <= |s.forests|
          && s.box.ledger.started != [] && Last(s.box.ledger.started) == s.last.update)
  }

  lemma HeldIsIssued(n: nat, box: Mailbox.State)
    requires Mailbox.Reachable(n, box)
    ensures !box.consumer.Waiting? ==> 1 <= box.consumer.update <= box.ledger.issued
  {
    if !box.consumer.Waiting? { Mailbox.EveryUpdateInOnePlace(n, box, box.consumer.update); }
  }

  lemma QueuedIsIssued(n: nat, box: Mailbox.State)
    requires Mailbox.Reachable(n, box)
    ensures forall u | u in box.queue :: 1 <= u <= box.ledger.issued
  {
    forall u | u in box.queue
      ensures 1 <= u <= box.ledger.issued
    {
      Mailbox.EveryUpdateInOnePlace(n, box, u);
    }
  }

  lemma StartedIsHeld(n: nat, box: Mailbox.State)
    requires Mailbox.Reachable(n, box) && box.consumer.Attempting?
    ensures box.ledger.started != [] && Last(box.ledger.started) == box.consumer.update
  {
    var steps :| Mailbox.Exec(Mailbox.Init(n), steps) == Some(box);
    Mailbox.LatestThroughout(n, steps, box);
  }

  lemma CoherentStep(n: nat, s: State, step: Step)
    requires Coherent(s) && Mailbox.Reachable(n, s.box) && Enabled(s, step)
    ensures Coherent(Apply(s, step))
  {
    hide Mailbox.Reachable, PushCycle.Enabled, PushCycle.Apply;
    HeldIsIssued(n, s.box);
    if s.box.consumer.Attempting? { StartedIsHeld(n, s.box); }
    if step.Inner? { PushCycle.ForestKept(Cycle(s), step.inner); }
  }

  lemma {:induction false} CoherentThroughout(n: nat, start: PushCycle.World, steps: seq<Step>, s: State)
    requires Exec(Init(n, start), steps) == Some(s)
    ensures Coherent(s) && Mailbox.Reachable(n, s.box)
    decreases |steps|
  {
    hide Enabled, Apply;
    if steps != [] {
      var before := Exec(Init(n, start), steps[..|steps| - 1]).value;
      CoherentThroughout(n, start, steps[..|steps| - 1], before);
      CoherentStep(n, before, Last(steps));
    }
    MailboxRun(n, start, steps, s);
  }

  /** The configurations of queued updates, and of the one attempted last, stay where they are when
      another one is issued. */
  lemma QueuedForests(start: PushCycle.World, steps: seq<Step>, s: State, forest: PushCycle.Forest)
    requires Exec(Init(1, start), steps) == Some(s)
    ensures |s.forests| == s.box.ledger.issued
    ensures forall i | 0 <= i < |s.box.queue| ::
              1 <= s.box.queue[i] <= |s.forests|
              && ForestOf(s, s.box.queue[i]) == ForestOf(s.(forests := s.forests + [forest]), s.box.queue[i])
    ensures s.last.Returned? ==>
              ForestOf(s, s.last.update) == ForestOf(s.(forests := s.forests + [forest]), s.last.update)
  {
    hide Exec, Mailbox.Reachable;
    CoherentThroughout(1, start, steps, s);
    QueuedIsIssued(1, s.box);
    assert forall i | 0 <= i < |s.box.queue| :: s.box.queue[i] in s.box.queue;
  }

  // ---------- what every run keeps ----------

  predicate Succeeded(last: LastAttempt) {
    last.Returned? && last.pushErrors == 0 && !last.fatal
  }

  ghost predicate ForestSettled(w: PushCycle.World, t: PushCycle.Trail, forest: PushCycle.Forest) {
    forall f | f in forest :: PushCycle.FabricSettled(w, t, f, forest[f])
  }

  /** The cache agrees with ONOS except where there is doubt, and each attempt leaves behind what it
      built. */
  ghost predicate Traced(s: State, t: PushCycle.Trail) {
    && PushCycle.CacheAgrees(Cycle(s), t.doubts.Keys) && PushCycle.DoubtsFounded(Cycle(s), t.doubts.Keys)
    && PushCycle.DoubtsHeld(Cycle(s), t)
    && (s.attempt.Some? ==> PushCycle.AttemptSettled(Cycle(s), t))
    && (Succeeded(s.last) ==> ForestSettled(s.world, t, ForestOf(s, s.last.update)))
  }

  lemma TracedStep(s: State, t: PushCycle.Trail, step: Step)
    requires Coherent(s) && Traced(s, t) && Enabled(s, step)
    ensures Traced(Apply(s, step), After(s, t, step))
  {
    hide PushCycle.Enabled, PushCycle.Apply, PushCycle.CacheKey, PushCycle.FabricSettled, PushCycle.Follow,
         PushCycle.PhaseSettled, PushCycle.CacheAgrees, PushCycle.DoubtsFounded, Mailbox.Enabled, Mailbox.Apply;
    match step {
      case Inner(i) => TracedInner(s, t, i);
      case Invalidate => TracedWithoutCache(s, t);
      case LookupFailed => NothingAtHand(s, t);
      case Finish => NothingAtHand(s, t);
      case Begin =>
        PushCycle.FreshSettled(s.world, ForestOf(s, s.box.consumer.update), t.doubts);
        AtTheStart(s, t);
      case _ =>
    }
  }

  lemma TracedInner(s: State, t: PushCycle.Trail, i: PushCycle.Step)
    requires Coherent(s) && Traced(s, t) && Enabled(s, Inner(i))
    ensures Traced(Apply(s, Inner(i)), After(s, t, Inner(i)))
  {
    hide PushCycle.DoubtsHeld, PushCycle.PhaseSettled, PushCycle.Apply, PushCycle.AttemptSettled,
         PushCycle.CacheAgrees, PushCycle.DoubtsFounded, PushCycle.Follow, NetConfigFrom, ChassisFrom, KnownSwitches;
    PushCycle.CacheAgreesStep(Cycle(s), t, i);
    PushCycle.DoubtsFoundedStep(Cycle(s), t, i);
    PushCycle.AttemptSettledStep(Cycle(s), t, i);
    PushCycle.PhaseOf(Cycle(s), t);
    PushCycle.DoubtsHeldStep(Cycle(s), t, i);
  }

  lemma NothingAtHand(s: State, t: PushCycle.Trail)
    requires Traced(s, t) && Cycle(s).attempt.phase.Between?
    ensures PushCycle.CacheAgrees(PushCycle.Cycle.Cycle(s.world, PushCycle.IDLE), t.doubts.Keys)
    ensures PushCycle.DoubtsFounded(PushCycle.Cycle.Cycle(s.world, PushCycle.IDLE), t.doubts.Keys)
  {
    hide PushCycle.CacheKey;
  }

  lemma AtTheStart(s: State, t: PushCycle.Trail)
    requires Traced(s, t) && s.attempt.None? && !s.box.consumer.Waiting?
    ensures var c := PushCycle.Cycle.Cycle(s.world, PushCycle.Fresh(ForestOf(s, s.box.consumer.update)));
            PushCycle.CacheAgrees(c, t.doubts.Keys) && PushCycle.DoubtsFounded(c, t.doubts.Keys)
  {
    hide PushCycle.CacheKey;
  }

  lemma TracedWithoutCache(s: State, t: PushCycle.Trail)
    requires Traced(s, t)
    ensures Traced(Apply(s, Invalidate), t.(doubts := map[]))
  {
    hide PushCycle.CacheKey, PushCycle.FabricSettled, PushCycle.PhaseSettled;
    var w, t' := s.world, t.(doubts := map[]);
    forall f, fabric | PushCycle.FabricSettled(w, t, f, fabric)
      ensures PushCycle.FabricSettled(w.(cache := map[]), t', f, fabric)
    {
      SettledWithoutCache(w, t, f, fabric);
    }
    if s.attempt.Some? { PhaseWithoutCache(Cycle(s), t); }
  }

  lemma SettledWithoutCache(w: PushCycle.World, t: PushCycle.Trail, f: string, fabric: Fabric)
    requires PushCycle.FabricSettled(w, t, f, fabric)
    ensures PushCycle.FabricSettled(w.(cache := map[]), t.(doubts := map[]), f, fabric)
  {
    hide ChassisFrom, KnownSwitches, NetConfigFrom, PushCycle.OnosFollows;
    FollowsWithoutCache(w, t, f, fabric);
    var w' := w.(cache := map[]);
    assert forall k :: PushCycle.ChassisGood(w, f, fabric, k) ==> PushCycle.ChassisGood(w', f, fabric, k);
  }

  lemma PhaseWithoutCache(c: PushCycle.Cycle, t: PushCycle.Trail)
    requires PushCycle.PhaseSettled(c, t)
    ensures PushCycle.PhaseSettled(c.(world := c.world.(cache := map[])), t.(doubts := map[]))
  {
    hide ChassisFrom, KnownSwitches, NetConfigFrom, PushCycle.OnosFollows;
    var w, a := c.world, c.attempt;
    if (a.phase.OnosDone? || a.phase.Stratum?) && a.failures == 0 {
      var f, fabric := a.phase.fabric, a.forest[a.phase.fabric];
      FollowsWithoutCache(w, t, f, fabric);
      var w' := w.(cache := map[]);
      assert forall k :: PushCycle.ChassisGood(w, f, fabric, k) ==> PushCycle.ChassisGood(w', f, fabric, k);
    }
  }

  lemma FollowsWithoutCache(w: PushCycle.World, t: PushCycle.Trail, f: string, fabric: Fabric)
    requires PushCycle.OnosFollows(w, t, f, fabric)
    ensures PushCycle.OnosFollows(w.(cache := map[]), t.(doubts := map[]), f, fabric)
  {
    hide NetConfigFrom;
    var w', t' := w.(cache := map[]), t.(doubts := map[]);
    if f in t.stale {
      var nc :| PushCycle.BuiltAs(w, t, f, fabric, nc) && !(f in w.onos && w.onos[f] == nc);
      assert PushCycle.BuiltAs(w', t', f, fabric, nc);
    }
  }

  /** In every run: any number of producers, any interleaving, pushes acknowledged or not, builds
      complete or not, invalidations at any time. */
  lemma {:induction false} TracedThroughout(n: nat, start: PushCycle.World, steps: seq<Step>, s: State)
    requires Exec(Init(n, start), steps) == Some(s)
    ensures Traced(s, TrailOf(Init(n, start), steps))
    decreases |steps|
  {
    hide Enabled, Apply, Mailbox.Reachable, Coherent, After, Traced;
    if steps == [] {
      assert Traced(s, NO_TRAIL) by { TracedAtFirst(n, start); }
    } else {
      var front := steps[..|steps| - 1];
      var before := Exec(Init(n, start), front).value;
      TracedThroughout(n, start, front, before);
      CoherentThroughout(n, start, front, before);
      TracedStep(before, TrailOf(Init(n, start), front), Last(steps));
    }
  }

  lemma TracedAtFirst(n: nat, start: PushCycle.World)
    ensures Traced(Init(n, start), NO_TRAIL)
  {
  }

  // ---------- the cache, in every run ----------

  /** In every run, outside the window between a push and the cache update that follows it, the cache
      holds what ONOS accepted last for every fabric that is not in doubt; and with partial updates
      enabled it holds something else for every fabric that is. */
  lemma CacheAlwaysAgrees(n: nat, start: PushCycle.World, steps: seq<Step>, s: State, f: string)
    requires Exec(Init(n, start), steps) == Some(s) && PushCycle.CacheKey(f) in s.world.cache
    requires !(s.attempt.Some? && s.attempt.value.phase.Accepted? && s.attempt.value.phase.fabric == f)
    ensures var doubtful := f in TrailOf(Init(n, start), steps).doubts;
            && (!doubtful ==> f in s.world.onos && s.world.onos[f] == s.world.cache[PushCycle.CacheKey(f)])
            && (doubtful && start.caching
                ==> f in s.world.onos && s.world.onos[f] != s.world.cache[PushCycle.CacheKey(f)])
  {
    hide Exec, TrailOf, PushCycle.CacheKey, PushCycle.AttemptSettled, ForestSettled;
    TracedThroughout(n, start, steps, s);
    OptionsFixed(n, start, steps, s);
  }

  ghost predicate AllAcknowledged(steps: seq<Step>) {
    forall i | 0 <= i < |steps| && steps[i].Inner? && steps[i].inner.Push? :: !steps[i].inner.effect.Unacknowledged?
  }

  /** As long as ONOS acknowledges what it accepts, nothing is ever in doubt. */
  lemma {:induction false} NeverInDoubt(s0: State, steps: seq<Step>)
    requires AllAcknowledged(steps)
    ensures TrailOf(s0, steps).doubts == map[] && TrailOf(s0, steps).stale == map[] && NoStaleHit(s0, steps)
    decreases |steps|
  {
    hide Exec, PushCycle.CacheKey;
    if steps != [] {
      NeverInDoubt(s0, steps[..|steps| - 1]);
      assert Last(steps) == steps[|steps| - 1];
    }
  }

  /** A step that is satisfied with the cache for a fabric in doubt. */
  ghost predicate StaleHit(s: State, t: PushCycle.Trail, step: Step) {
    step == Inner(PushCycle.Hit) && Enabled(s, step) && s.attempt.value.phase.fabric in t.doubts
  }

  ghost predicate NoStaleHit(s0: State, steps: seq<Step>) {
    steps == []
    || (NoStaleHit(s0, steps[..|steps| - 1])
        && match Exec(s0, steps[..|steps| - 1]) {
             case Some(s) => !StaleHit(s, TrailOf(s0, steps[..|steps| - 1]), Last(steps))
             case None => true
           })
  }

  // ---------- convergence ----------

  ghost predicate ForestGood(w: PushCycle.World, forest: PushCycle.Forest, sids: map<string, uint32>) {
    forall f | f in forest :: PushCycle.FabricGood(w, f, forest[f], sids)
  }

  /** Since the last attempt began, no build left out an eligible switch, and the cache did not
      satisfy it for a fabric in doubt. */
  ghost predicate Sound(t: PushCycle.Trail, forest: PushCycle.Forest) {
    forall f | f in forest :: f !in t.stale && (f in t.built ==> t.built[f].done == Eligible(forest[f]))
  }

  /** The first half of that. */
  ghost predicate Complete(t: PushCycle.Trail, forest: PushCycle.Forest) {
    forall f | f in forest && f in t.built :: t.built[f].done == Eligible(forest[f])
  }

  lemma SoundIf(t: PushCycle.Trail, forest: PushCycle.Forest)
    requires Complete(t, forest) && t.stale == map[]
    ensures Sound(t, forest)
  {
  }

  lemma BuiltSoundly(t: PushCycle.Trail, inner: seq<PushCycle.Step>, forest: PushCycle.Forest,
                     sids: map<string, uint32>)
    requires BuiltIn(t.built, inner)
    ensures PushCycle.AllComplete(forest, inner) ==> Complete(t, forest)
    ensures PushCycle.AllTold(inner, sids) ==> ToldFrom(t, sids)
  {
    hide Eligible, Extends;
  }

  /** The SIDs that these builds were told are among `sids`. */
  ghost predicate ToldFrom(t: PushCycle.Trail, sids: map<string, uint32>) {
    forall f | f in t.built :: Extends(t.built[f].sids, sids)
  }

  /** In every run, whatever happened before, and whether or not anything is going on now: after an
      attempt that returned no push failures and no error, the controllers hold its configuration if
      the attempt was sound. */
  lemma LastAttemptGood(n: nat, start: PushCycle.World, steps: seq<Step>, s: State, sids: map<string, uint32>)
    requires Exec(Init(n, start), steps) == Some(s) && Succeeded(s.last)
    requires ToldFrom(TrailOf(Init(n, start), steps), sids)
    requires Sound(TrailOf(Init(n, start), steps), ForestOf(s, s.last.update))
    ensures ForestGood(s.world, ForestOf(s, s.last.update), sids)
  {
    hide Exec, TrailOf, PushCycle.FabricGood, Eligible, NetConfigFrom, Extends, PushCycle.CacheAgrees,
         PushCycle.DoubtsFounded, PushCycle.AttemptSettled;
    var t, forest := TrailOf(Init(n, start), steps), ForestOf(s, s.last.update);
    TracedThroughout(n, start, steps, s);
    forall f | f in forest
      ensures PushCycle.FabricGood(s.world, f, forest[f], sids)
    {
      PushCycle.SettledGood(s.world, t, f, forest[f], sids);
    }
  }

  /** The SIDs that the doubtful pushes were told which the attempt was satisfied with. */
  ghost predicate HeldFrom(t: PushCycle.Trail, sids: map<string, uint32>) {
    forall f | f in t.stale :: Extends(t.stale[f].sids, sids)
  }

  /** Map keys repeat the objects' own IDs and cages have two digits, both in this configuration and in
      those of the doubtful pushes. */
  ghost predicate AllWellKeyed(t: PushCycle.Trail, forest: PushCycle.Forest) {
    forall f | f in forest :: WellKeyed(forest[f]) && (f in t.stale ==> WellKeyed(t.stale[f].fabric))
  }

  /** What ONOS holds for each fabric was built, by the last attempt or by the doubtful push, from a
      configuration that translates alike, leaving out no eligible switch. */
  ghost predicate AllHoldRight(t: PushCycle.Trail, forest: PushCycle.Forest) {
    forall f | f in forest :: PushCycle.HoldsRight(t, f, forest[f])
  }

  /** A sound attempt is one case of that; without stale hits it is the only one. */
  lemma SoundHoldsRight(n: nat, start: PushCycle.World, steps: seq<Step>, s: State)
    requires Exec(Init(n, start), steps) == Some(s) && Succeeded(s.last)
    ensures var t, forest := TrailOf(Init(n, start), steps), ForestOf(s, s.last.update);
            && (Sound(t, forest) ==> AllHoldRight(t, forest))
            && (t.stale == map[] && AllHoldRight(t, forest) ==> Sound(t, forest))
  {
    hide Exec, TrailOf, Eligible, NetConfigFrom, PushCycle.CacheAgrees, PushCycle.DoubtsFounded, PushCycle.DoubtsHeld,
         PushCycle.AttemptSettled, PushCycle.HoldsRight, PushCycle.ChassisGood;
    var t, forest := TrailOf(Init(n, start), steps), ForestOf(s, s.last.update);
    TracedThroughout(n, start, steps, s);
    forall f | f in forest && f !in t.stale
      ensures f in t.built && (PushCycle.HoldsRight(t, f, forest[f]) <==> t.built[f].done == Eligible(forest[f]))
    {
      assert PushCycle.FabricSettled(s.world, t, f, forest[f]);
      PushCycle.HoldsRightSame(t, f, forest[f]);
    }
  }

  /** And in every run the controllers hold the configuration if and only if what ONOS holds was built
      right. */
  lemma LastAttemptExactly(n: nat, start: PushCycle.World, steps: seq<Step>, s: State, sids: map<string, uint32>)
    requires Exec(Init(n, start), steps) == Some(s) && Succeeded(s.last)
    requires ToldFrom(TrailOf(Init(n, start), steps), sids) && HeldFrom(TrailOf(Init(n, start), steps), sids)
    requires AllWellKeyed(TrailOf(Init(n, start), steps), ForestOf(s, s.last.update))
    ensures ForestGood(s.world, ForestOf(s, s.last.update), sids)
            <==> AllHoldRight(TrailOf(Init(n, start), steps), ForestOf(s, s.last.update))
  {
    hide Exec, TrailOf, PushCycle.FabricGood, Eligible, NetConfigFrom, Extends, PushCycle.CacheAgrees,
         PushCycle.DoubtsFounded, PushCycle.DoubtsHeld, PushCycle.AttemptSettled, PushCycle.HoldsRight, WellKeyed;
    var t, forest := TrailOf(Init(n, start), steps), ForestOf(s, s.last.update);
    TracedThroughout(n, start, steps, s);
    forall f | f in forest
      ensures PushCycle.FabricGood(s.world, f, forest[f], sids) <==> PushCycle.HoldsRight(t, f, forest[f])
    {
      assert PushCycle.FabricSettled(s.world, t, f, forest[f]);
      PushCycle.SettledGoodExactly(s.world, t, f, forest[f], sids);
    }
  }

  /** Convergence: in every run of a single producer, when the synchronizer is idle and its last
      attempt returned no push failures and no error, the attempt was one at the newest configuration,
      and if it was sound then ONOS holds, for every fabric of that configuration, a netconfig of the
      whole fabric, and every Stratum switch with a known model holds its own chassis configuration. */
  lemma Converges(start: PushCycle.World, steps: seq<Step>, s: State, sids: map<string, uint32>)
    requires Exec(Init(1, start), steps) == Some(s) && s.box.busy == 0 && Succeeded(s.last)
    requires ToldFrom(TrailOf(Init(1, start), steps), sids)
    ensures s.forests != []
    ensures Sound(TrailOf(Init(1, start), steps), Last(s.forests)) ==> ForestGood(s.world, Last(s.forests), sids)
  {
    hide ForestGood, Exec, TrailOf, Sound, ToldFrom;
    LastIsNewest(start, steps, s);
    if Sound(TrailOf(Init(1, start), steps), Last(s.forests)) {
      LastAttemptGood(1, start, steps, s, sids);
    }
  }

  /** And if and only if what ONOS holds was built right. */
  lemma ConvergesExactly(start: PushCycle.World, steps: seq<Step>, s: State, sids: map<string, uint32>)
    requires Exec(Init(1, start), steps) == Some(s) && s.box.busy == 0 && Succeeded(s.last)
    requires ToldFrom(TrailOf(Init(1, start), steps), sids) && HeldFrom(TrailOf(Init(1, start), steps), sids)
    requires s.forests != [] ==> AllWellKeyed(TrailOf(Init(1, start), steps), Last(s.forests))
    ensures s.forests != []
    ensures ForestGood(s.world, Last(s.forests), sids)
            <==> AllHoldRight(TrailOf(Init(1, start), steps), Last(s.forests))
  {
    hide ForestGood, Exec, TrailOf, AllHoldRight, ToldFrom, HeldFrom, AllWellKeyed;
    LastIsNewest(start, steps, s);
    LastAttemptExactly(1, start, steps, s, sids);
  }

  ghost predicate AnsweredBy(t: PushCycle.Trail, store: SidStore.State) {
    forall f | f in t.built :: SidStore.Answered(t.built[f].sids, store)
  }

  /** The SIDs are those of the store, if lookups of one switch do not overlap: whatever the builds were
      told, the store still says. */
  lemma ConvergesWithStore(start: PushCycle.World, steps: seq<Step>, s: State,
                           n: nat, calls: seq<SidStore.Step>, store: SidStore.State)
    requires Exec(Init(1, start), steps) == Some(s) && s.box.busy == 0 && Succeeded(s.last)
    requires SidStore.Run(n, calls, store) && SidStore.NoOverlap(n, calls)
    requires AnsweredBy(TrailOf(Init(1, start), steps), store)
    ensures s.forests != [] && SidStore.WellFormed(store.entries)
    ensures Sound(TrailOf(Init(1, start), steps), Last(s.forests)) ==>
              ForestGood(s.world, Last(s.forests), SidStore.View(store.entries))
  {
    SidStore.ToldSidsStand(n, calls, store, map[]);
    hide ForestGood, Exec, TrailOf, Sound, SidStore.Run, SidStore.NoOverlap, SidStore.View, ToldFrom, AnsweredBy;
    ToldFromStore(TrailOf(Init(1, start), steps), n, calls, store);
    Converges(start, steps, s, SidStore.View(store.entries));
  }

  lemma ToldFromStore(t: PushCycle.Trail, n: nat, calls: seq<SidStore.Step>, store: SidStore.State)
    requires SidStore.Run(n, calls, store) && SidStore.NoOverlap(n, calls) && AnsweredBy(t, store)
    requires SidStore.WellFormed(store.entries)
    ensures ToldFrom(t, SidStore.View(store.entries))
  {
    hide SidStore.Run, SidStore.NoOverlap, SidStore.View, SidStore.Answered, Extends;
    forall f | f in t.built
      ensures Extends(t.built[f].sids, SidStore.View(store.entries))
    {
      SidStore.ToldSidsStand(n, calls, store, t.built[f].sids);
    }
  }

  /** Such a moment is when the loop blocks on an empty channel and nobody is enqueueing. */
  lemma WhenBlocked(start: PushCycle.World, steps: seq<Step>, s: State, sids: map<string, uint32>)
    requires Exec(Init(1, start), steps) == Some(s) && ToldFrom(TrailOf(Init(1, start), steps), sids)
    requires s.box.queue == [] && s.box.consumer.Waiting? && s.box.producers == [Mailbox.Idle]
    ensures s.box.busy == 0
    ensures Succeeded(s.last) ==>
              && s.forests != [] && s.last.update == |s.forests|
              && (Sound(TrailOf(Init(1, start), steps), Last(s.forests)) ==> ForestGood(s.world, Last(s.forests), sids))
  {
    hide Mailbox.Reachable, ForestGood, Exec, TrailOf, Sound, ToldFrom;
    CoherentThroughout(1, start, steps, s);
    Mailbox.BusyConserved(1, s.box);
    if Succeeded(s.last) {
      Converges(start, steps, s, sids);
      LastIsNewest(start, steps, s);
    }
  }

  /** With several producers the same holds of the configuration that was sent last. */
  lemma ConvergesToLastSent(n: nat, start: PushCycle.World, steps: seq<Step>, s: State, sids: map<string, uint32>)
    requires Exec(Init(n, start), steps) == Some(s) && s.box.busy == 0 && Succeeded(s.last)
    requires s.box.ledger.sent != [] && ToldFrom(TrailOf(Init(n, start), steps), sids)
    ensures var w, t := Last(s.box.ledger.sent), TrailOf(Init(n, start), steps);
            && s.last.update == w
            && (Sound(t, ForestOf(s, w)) ==> ForestGood(s.world, ForestOf(s, w), sids))
  {
    hide Mailbox.Reachable, ForestGood, Exec, TrailOf, Sound, ToldFrom;
    CoherentThroughout(n, start, steps, s);
    Mailbox.LastSentIsServed(n, s.box);
    if Sound(TrailOf(Init(n, start), steps), ForestOf(s, s.last.update)) {
      LastAttemptGood(n, start, steps, s, sids);
    }
  }

  // ---------- caching changes nothing the controllers see ----------

  /** The steps an adapter without partial updates takes instead: where the cache is hit it pushes
      the netconfig once more. */
  function Instead(step: Step): seq<Step> {
    if step == Inner(PushCycle.Hit)
    then [Inner(PushCycle.Miss), Inner(PushCycle.Push(Applied)), Inner(PushCycle.Remember)]
    else [step]
  }

  function Expand(steps: seq<Step>): seq<Step> {
    if steps == [] then [] else Expand(steps[..|steps| - 1]) + Instead(Last(steps))
  }

  /** Equal but for the cache and the option. */
  ghost predicate SameButCache(s: State, u: State) {
    !u.world.caching && u == s.(world := s.world.(caching := false, cache := u.world.cache))
  }

  lemma SameStep(s: State, u: State, step: Step)
    requires SameButCache(s, u) && Enabled(s, step) && step != Inner(PushCycle.Hit)
    ensures Enabled(u, step) && SameButCache(Apply(s, step), Apply(u, step))
  {
    hide Mailbox.Enabled, Mailbox.Apply, PushCycle.Enabled, PushCycle.Apply;
    if step.Inner? {
      PushCycle.WithoutCache(Cycle(s), u.world.cache, step.inner);
    }
  }

  lemma HitInstead(u0: State, steps: seq<Step>, s: State, u: State) returns (u': State)
    requires SameButCache(s, u) && Enabled(s, Inner(PushCycle.Hit))
    requires Exec(u0, steps) == Some(u)
    ensures Exec(u0, steps + Instead(Inner(PushCycle.Hit))) == Some(u')
    ensures var f, nc := s.attempt.value.phase.fabric, s.attempt.value.phase.nc;
            && u'.world.onos == s.world.onos[f := nc]
            && (f in s.world.onos && s.world.onos[f] == nc ==> SameButCache(Apply(s, Inner(PushCycle.Hit)), u'))
  {
    hide Exec, PushCycle.CacheKey;
    var a, b, c := Inner(PushCycle.Miss), Inner(PushCycle.Push(Applied)), Inner(PushCycle.Remember);
    var f, nc := s.attempt.value.phase.fabric, s.attempt.value.phase.nc;
    assert f in s.world.onos && s.world.onos[f] == nc ==> s.world.onos[f := nc] == s.world.onos;
    ExecStep(u0, steps, u, a);
    var u1 := Apply(u, a);
    ExecStep(u0, steps + [a], u1, b);
    var u2 := Apply(u1, b);
    ExecStep(u0, steps + [a] + [b], u2, c);
    u' := Apply(u2, c);
    assert steps + [a] + [b] + [c] == steps + [a, b, c];
  }

  /** What the cache holds at a hit is what ONOS holds, unless the fabric is in doubt. */
  lemma HitAgrees(n: nat, start: PushCycle.World, steps: seq<Step>, s: State)
    requires Exec(Init(n, start), steps) == Some(s) && Enabled(s, Inner(PushCycle.Hit))
    ensures var f := s.attempt.value.phase.fabric;
            StaleHit(s, TrailOf(Init(n, start), steps), Inner(PushCycle.Hit))
            <==> !(f in s.world.onos && s.world.onos[f] == s.attempt.value.phase.nc)
  {
    hide Exec, TrailOf, PushCycle.CacheKey;
    CacheAlwaysAgrees(n, start, steps, s, s.attempt.value.phase.fabric);
    OptionsFixed(n, start, steps, s);
  }

  /** Caching refines not caching: whatever an adapter with partial updates does, in any interleaving
      with any number of producers and invalidations, as long as no stale cache entry is hit, one
      without them can do with the same producer and consumer steps, the same results, and the same
      contents at every controller. */
  lemma {:induction false} CachedRefinesUncached(n: nat, start: PushCycle.World, steps: seq<Step>, s: State)
      returns (u: State)
    requires Exec(Init(n, start), steps) == Some(s) && NoStaleHit(Init(n, start), steps)
    ensures Exec(Init(n, start.(caching := false)), Expand(steps)) == Some(u)
    ensures u.world.onos == s.world.onos && u.world.chassis == s.world.chassis
    ensures u.box == s.box && u.forests == s.forests && u.attempt == s.attempt && u.last == s.last
    ensures SameButCache(s, u)
    decreases |steps|
  {
    hide Enabled, Apply, Mailbox.Init, TrailOf, StaleHit;
    var u0 := Init(n, start.(caching := false));
    if steps == [] {
      u := u0;
    } else {
      var front, step := steps[..|steps| - 1], Last(steps);
      var before := Exec(Init(n, start), front).value;
      var v := CachedRefinesUncached(n, start, front, before);
      if step == Inner(PushCycle.Hit) {
        HitAgrees(n, start, front, before);
        u := HitInstead(u0, Expand(front), before, v);
      } else {
        SameStep(before, v, step);
        ExecStep(u0, Expand(front), v, step);
        u := Apply(v, step);
      }
    }
  }

  /** The two agree on what ONOS holds after each step of the run. */
  ghost predicate AgreeThroughout(n: nat, start: PushCycle.World, steps: seq<Step>) {
    forall i | 0 <= i <= |steps| :: AgreeAfter(n, start, steps[..i])
  }

  ghost predicate AgreeAfter(n: nat, start: PushCycle.World, steps: seq<Step>) {
    var s, u := Exec(Init(n, start), steps), Exec(Init(n, start.(caching := false)), Expand(steps));
    s.Some? && u.Some? && s.value.world.onos == u.value.world.onos
  }

  lemma {:induction false} FirstStaleHit(n: nat, start: PushCycle.World, steps: seq<Step>) returns (i: nat)
    requires !NoStaleHit(Init(n, start), steps)
    ensures i < |steps| && NoStaleHit(Init(n, start), steps[..i]) && Exec(Init(n, start), steps[..i]).Some?
    ensures StaleHit(Exec(Init(n, start), steps[..i]).value, TrailOf(Init(n, start), steps[..i]), steps[i])
    decreases |steps|
  {
    hide Exec, TrailOf, StaleHit;
    var front := steps[..|steps| - 1];
    if NoStaleHit(Init(n, start), front) {
      i := |steps| - 1;
    } else {
      i := FirstStaleHit(n, start, front);
      assert front[..i] == steps[..i];
    }
  }

  lemma {:induction false} NoStaleHitBefore(s0: State, steps: seq<Step>, i: nat)
    requires NoStaleHit(s0, steps) && i <= |steps|
    ensures NoStaleHit(s0, steps[..i])
    decreases |steps|
  {
    hide Exec, TrailOf, StaleHit;
    if i == |steps| {
      assert steps[..i] == steps;
    } else {
      NoStaleHitBefore(s0, steps[..|steps| - 1], i);
      assert steps[..|steps| - 1][..i] == steps[..i];
    }
  }

  lemma {:induction false} ExecBefore(s0: State, steps: seq<Step>, i: nat)
    requires Exec(s0, steps).Some? && i <= |steps|
    ensures Exec(s0, steps[..i]).Some?
    decreases |steps|
  {
    hide Enabled, Apply;
    if i == |steps| {
      assert steps[..i] == steps;
    } else {
      ExecBefore(s0, steps[..|steps| - 1], i);
      assert steps[..|steps| - 1][..i] == steps[..i];
    }
  }

  lemma StaleHitDisagrees(n: nat, start: PushCycle.World, steps: seq<Step>, s: State, step: Step)
    requires Exec(Init(n, start), steps) == Some(s) && NoStaleHit(Init(n, start), steps)
    requires StaleHit(s, TrailOf(Init(n, start), steps), step)
    ensures !AgreeAfter(n, start, steps + [step])
  {
    hide Exec, TrailOf, NoStaleHit, PushCycle.CacheKey;
    var u := CachedRefinesUncached(n, start, steps, s);
    HitAgrees(n, start, steps, s);
    var u' := HitInstead(Init(n, start.(caching := false)), Expand(steps), s, u);
    ExecStep(Init(n, start), steps, s, step);
    assert (steps + [step])[..|steps + [step]| - 1] == steps;
    assert u'.world.onos[s.attempt.value.phase.fabric] == s.attempt.value.phase.nc;
    assert Apply(s, step).world.onos == s.world.onos;
  }

  /** And the condition is exact: the two hold the same at ONOS all along if and only if no stale cache
      entry is ever hit. */
  lemma RefinementIsExact(n: nat, start: PushCycle.World, steps: seq<Step>, s: State)
    requires Exec(Init(n, start), steps) == Some(s)
    ensures AgreeThroughout(n, start, steps) <==> NoStaleHit(Init(n, start), steps)
  {
    hide Exec, NoStaleHit, TrailOf, StaleHit, AgreeAfter;
    var s0 := Init(n, start);
    if NoStaleHit(s0, steps) {
      forall i | 0 <= i <= |steps|
        ensures AgreeAfter(n, start, steps[..i])
      {
        ExecBefore(s0, steps, i);
        NoStaleHitBefore(s0, steps, i);
        var u := CachedRefinesUncached(n, start, steps[..i], Exec(s0, steps[..i]).value);
        assert AgreeAfter(n, start, steps[..i]) by { Agrees(n, start, steps[..i], Exec(s0, steps[..i]).value, u); }
      }
    } else {
      var i := FirstStaleHit(n, start, steps);
      StaleHitDisagrees(n, start, steps[..i], Exec(s0, steps[..i]).value, steps[i]);
      assert steps[..i] + [steps[i]] == steps[..i + 1];
    }
  }

  lemma Agrees(n: nat, start: PushCycle.World, steps: seq<Step>, s: State, u: State)
    requires Exec(Init(n, start), steps) == Some(s) && Exec(Init(n, start.(caching := false)), Expand(steps)) == Some(u)
    requires u.world.onos == s.world.onos
    ensures AgreeAfter(n, start, steps)
  {
    hide Exec;
  }

  // ---------- synchronizing the same configuration again ----------

  /** Of the first `floor` updates none is around any more. */
  ghost predicate Since(s: State, floor: nat) {
    && floor <= |s.forests| == s.box.ledger.issued
    && (forall i | 0 <= i < |s.box.queue| :: floor < s.box.queue[i] <= |s.forests|)
    && (forall p | 0 <= p < |s.box.producers| && !s.box.producers[p].Idle? ::
          floor < s.box.producers[p].mine <= |s.forests|)
    && (!s.box.consumer.Waiting? ==> floor < s.box.consumer.update <= |s.forests|)
  }

  lemma SinceStep(s: State, floor: nat, step: Step)
    requires Since(s, floor) && Enabled(s, step)
    ensures Since(Apply(s, step), floor)
  {
    hide PushCycle.Enabled, PushCycle.Apply;
  }

  lemma SinceQuiet(s: State)
    requires Coherent(s) && Mailbox.Quiet(s.box)
    ensures Since(s, |s.forests|)
  {
  }

  /** And all that have been enqueued since are the same. */
  ghost predicate OnlySame(s: State, floor: nat, forest: PushCycle.Forest) {
    Since(s, floor) && forall i | floor <= i < |s.forests| :: s.forests[i] == forest
  }

  lemma OnlySameStep(s: State, floor: nat, forest: PushCycle.Forest, step: Step)
    requires OnlySame(s, floor, forest) && Enabled(s, step) && (step.Enqueue? ==> step.forest == forest)
    ensures OnlySame(Apply(s, step), floor, forest)
  {
    hide PushCycle.Enabled, PushCycle.Apply, Mailbox.Enabled, Mailbox.Apply, Since;
    SinceStep(s, floor, step);
  }

  ghost predicate Settled(s: State, forest: PushCycle.Forest, sids: map<string, uint32>) {
    && s.world.caching && PushCycle.AllCached(s.world, forest, sids)
    && (s.attempt.Some? <==> s.box.consumer.Attempting?)
    && (s.attempt.Some? ==> PushCycle.Resyncing(Cycle(s), forest, sids))
  }

  /** Nothing but `forest` is enqueued, no update is forced, and builds are complete and told the same
      SIDs. */
  ghost predicate Undisturbed(s: State, step: Step, forest: PushCycle.Forest, sids: map<string, uint32>) {
    && !step.Invalidate? && (step.Enqueue? ==> step.forest == forest)
    && (step.Inner? ==> PushCycle.SameBuild(Cycle(s).attempt, step.inner, sids))
  }

  lemma SettledStep(s: State, floor: nat, forest: PushCycle.Forest, sids: map<string, uint32>, step: Step)
    requires Settled(s, forest, sids) && OnlySame(s, floor, forest) && Enabled(s, step)
    requires Undisturbed(s, step, forest, sids)
    ensures Settled(Apply(s, step), forest, sids) && Apply(s, step).world.onos == s.world.onos
    ensures step.Inner? ==> !step.inner.Push? && !step.inner.Miss?
  {
    hide PushCycle.AllCached, PushCycle.Enabled, PushCycle.Apply, PushCycle.SameBuild, NetConfigFrom;
    if step.Inner? {
      PushCycle.ResyncStep(Cycle(s), forest, sids, step.inner);
    }
  }

  ghost predicate UndisturbedRun(s: State, steps: seq<Step>, forest: PushCycle.Forest, sids: map<string, uint32>) {
    steps == []
    || (UndisturbedRun(s, steps[..|steps| - 1], forest, sids)
        && match Exec(s, steps[..|steps| - 1]) {
             case Some(t) => Undisturbed(t, Last(steps), forest, sids)
             case None => true
           })
  }

  lemma {:induction false} ResyncThroughout(s0: State, forest: PushCycle.Forest, sids: map<string, uint32>,
                                            steps: seq<Step>, s: State)
    requires Coherent(s0) && Mailbox.Quiet(s0.box) && Settled(s0, forest, sids)
    requires Exec(s0, steps) == Some(s) && UndisturbedRun(s0, steps, forest, sids)
    ensures Settled(s, forest, sids) && OnlySame(s, |s0.forests|, forest)
    ensures NoPush(steps) && s.world.onos == s0.world.onos
    decreases |steps|
  {
    hide Enabled, Apply, Settled, Undisturbed;
    if steps == [] {
      assert OnlySame(s, |s0.forests|, forest) by { SinceQuiet(s0); }
    } else {
      var front, step := steps[..|steps| - 1], Last(steps);
      var before := Exec(s0, front).value;
      ResyncThroughout(s0, forest, sids, front, before);
      SettledStep(before, |s0.forests|, forest, sids, step);
      OnlySameAgain(before, |s0.forests|, forest, sids, step);
      assert step == steps[|steps| - 1] && forall i | 0 <= i < |front| :: steps[i] == front[i];
    }
  }

  predicate NoPush(steps: seq<Step>) {
    forall i | 0 <= i < |steps| && steps[i].Inner? :: !steps[i].inner.Push?
  }

  lemma {:induction false} OptionsFixed(n: nat, start: PushCycle.World, steps: seq<Step>, s: State)
    requires Exec(Init(n, start), steps) == Some(s)
    ensures s.world.caching == start.caching && s.world.ip == start.ip
    decreases |steps|
  {
    hide Enabled, Apply;
    if steps != [] {
      var before := Exec(Init(n, start), steps[..|steps| - 1]).value;
      OptionsFixed(n, start, steps[..|steps| - 1], before);
      OptionsKept(before, Last(steps));
    }
  }

  lemma OptionsKept(s: State, step: Step)
    requires Enabled(s, step)
    ensures Apply(s, step).world.caching == s.world.caching && Apply(s, step).world.ip == s.world.ip
  {
    hide NetConfigFrom, ChassisFrom, Mailbox.Enabled, Mailbox.Apply, PushCycle.CacheKey, KnownSwitches;
  }

  /** An attempt has been started and no Forced update has arrived since. */
  predicate Calm(steps: seq<Step>) {
    steps != [] && (Last(steps).Begin? || (Calm(steps[..|steps| - 1]) && !Last(steps).Invalidate?))
  }

  ghost predicate Warm(s: State) {
    && (s.attempt.Some? ==> PushCycle.Filling(Cycle(s)))
    && (Succeeded(s.last) ==>
          forall f | f in ForestOf(s, s.last.update) :: PushCycle.CacheKey(f) in s.world.cache)
  }

  lemma WarmStep(s: State, step: Step)
    requires Coherent(s) && Enabled(s, step) && !step.Invalidate? && (Warm(s) || step.Begin?)
    ensures Warm(Apply(s, step))
  {
    hide PushCycle.CacheKey, PushCycle.Enabled, PushCycle.Apply, Mailbox.Enabled, Mailbox.Apply;
    if step.Inner? { PushCycle.FillingStep(Cycle(s), step.inner); }
  }

  lemma {:induction false} WarmThroughout(n: nat, start: PushCycle.World, steps: seq<Step>, s: State)
    requires Exec(Init(n, start), steps) == Some(s) && Calm(steps)
    ensures Warm(s)
    decreases |steps|
  {
    hide Enabled, Apply, Warm, Coherent, Mailbox.Reachable;
    var front := steps[..|steps| - 1];
    var before := Exec(Init(n, start), front).value;
    CoherentThroughout(n, start, front, before);
    if !Last(steps).Begin? { WarmThroughout(n, start, front, before); }
    WarmStep(before, Last(steps));
  }

  /** Synchronizing again is free: after a configuration has been synchronized successfully by a sound
      attempt, and as long as no Forced update intervenes, enqueueing it again any number of times leads
      to no ONOS push at all. */
  lemma ResyncPushesNothing(start: PushCycle.World, earlier: seq<Step>, idle: State, sids: map<string, uint32>,
                            steps: seq<Step>, s: State)
    requires start.caching && Exec(Init(1, start), earlier) == Some(idle) && Calm(earlier)
    requires idle.box.busy == 0 && Succeeded(idle.last) && idle.forests != []
    requires forall f | f in Last(idle.forests) :: PushCycle.Deterministic(start.ip, Last(idle.forests)[f])
    requires Sound(TrailOf(Init(1, start), earlier), Last(idle.forests))
    requires ToldFrom(TrailOf(Init(1, start), earlier), sids)
    requires Exec(idle, steps) == Some(s) && UndisturbedRun(idle, steps, Last(idle.forests), sids)
    ensures NoPush(steps) && s.world.onos == idle.world.onos
  {
    hide Exec, TrailOf, UndisturbedRun, NoPush, Settled;
    CoherentThroughout(1, start, earlier, idle);
    Mailbox.BusyConserved(1, idle.box);
    SettledAfter(start, earlier, idle, sids);
    ResyncThroughout(idle, Last(idle.forests), sids, steps, s);
  }

  lemma SettledAfter(start: PushCycle.World, earlier: seq<Step>, idle: State, sids: map<string, uint32>)
    requires start.caching && Exec(Init(1, start), earlier) == Some(idle) && Calm(earlier)
    requires idle.box.busy == 0 && Succeeded(idle.last) && idle.forests != []
    requires forall f | f in Last(idle.forests) :: PushCycle.Deterministic(start.ip, Last(idle.forests)[f])
    requires Sound(TrailOf(Init(1, start), earlier), Last(idle.forests))
    requires ToldFrom(TrailOf(Init(1, start), earlier), sids)
    ensures Settled(idle, Last(idle.forests), sids)
  {
    hide Exec, TrailOf, PushCycle.CacheKey, PushCycle.Deterministic, NetConfigFrom, ToldFrom, Eligible,
         Mailbox.Reachable, PushCycle.BuiltAs, PushCycle.CacheAgrees, PushCycle.DoubtsFounded,
         PushCycle.AttemptSettled, PushCycle.ChassisGood, PushCycle.Filling;
    var forest := Last(idle.forests);
    OptionsFixed(1, start, earlier, idle);
    WarmThroughout(1, start, earlier, idle);
    CoherentThroughout(1, start, earlier, idle);
    Mailbox.BusyConserved(1, idle.box);
    LastIsNewest(start, earlier, idle);
    Converges(start, earlier, idle, sids);
    TracedThroughout(1, start, earlier, idle);
    forall f | f in forest
      ensures idle.world.cache[PushCycle.CacheKey(f)] == idle.world.onos[f]
    {
      assert PushCycle.FabricSettled(idle.world, TrailOf(Init(1, start), earlier), f, forest[f]);
      assert PushCycle.FabricGood(idle.world, f, forest[f], sids);
      CacheAlwaysAgrees(1, start, earlier, idle, f);
    }
  }

  lemma LastIsNewest(start: PushCycle.World, steps: seq<Step>, s: State)
    requires Exec(Init(1, start), steps) == Some(s) && s.box.busy == 0 && s.last.Returned?
    ensures s.last.update == |s.forests| && s.forests != []
  {
    hide Exec, Mailbox.Reachable;
    CoherentThroughout(1, start, steps, s);
    Mailbox.NewestNeverLost(s.box);
  }

  lemma OnlySameAgain(s: State, floor: nat, forest: PushCycle.Forest, sids: map<string, uint32>, step: Step)
    requires OnlySame(s, floor, forest) && Enabled(s, step) && Undisturbed(s, step, forest, sids)
    ensures OnlySame(Apply(s, step), floor, forest)
  {
    hide Enabled, Apply, OnlySame;
    OnlySameStep(s, floor, forest, step);
  }
}
