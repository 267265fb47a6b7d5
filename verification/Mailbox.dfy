/** The latest-wins mailbox between the gNMI server and the synchronizer, with the retry loop that
    consumes it: any number of producers and one consumer over a channel of capacity 1, every
    channel and counter operation being one step. */
module Mailbox {
  import opened Basics

  /** Updates are named by the order of their busy increments, from 1. */
  type Ticket = nat

  /** A producer inside enqueue. `Removing` has received an update while draining but has not
      taken it off the busy count yet. */
  datatype Producer =
    | Idle
    | Draining(mine: Ticket)
    | Removing(mine: Ticket, taken: Ticket)
    | Sending(mine: Ticket)

  datatype Verdict = Obsoleted | Succeeded | Abandoned

  /** The loop. `Holding` is about to check for newer updates, `Cleared` found none and is about to
      start an attempt. */
  datatype Consumer =
    | Waiting
    | Holding(update: Ticket)
    | Cleared(update: Ticket)
    | Attempting(update: Ticket)
    | Sleeping(update: Ticket)
    | Finishing(update: Ticket, verdict: Verdict)

  /** What an attempt at an update returned. */
  datatype Outcome = Outcome(update: Ticket, pushErrors: nat, fatal: bool) {
    predicate Failed() { !fatal && pushErrors > 0 }
  }

  /** What has happened so far; nothing in the protocol reads it. */
  datatype Ledger = Ledger(issued: nat, sent: seq<Ticket>, served: seq<Ticket>, started: seq<Ticket>,
                           returned: seq<Outcome>, drained: multiset<Ticket>, obsoleted: multiset<Ticket>,
                           finished: multiset<Ticket>)

  datatype State = State(busy: int, queue: seq<Ticket>, producers: seq<Producer>, consumer: Consumer,
                         ledger: Ledger)

  datatype Step =
    | Increment(p: nat)
    | DrainReceive(p: nat)
    | DrainDecrement(p: nat)
    | DrainEmpty(p: nat)
    | Send(p: nat)
    | Dequeue
    | CheckPending
    | Start
    | Return(pushErrors: nat, fatal: bool)
    | Wake
    | Complete

  predicate ProducerStep(step: Step) {
    step.Increment? || step.DrainReceive? || step.DrainDecrement? || step.DrainEmpty? || step.Send?
  }

  predicate Enabled(s: State, step: Step) {
    match step
    case Increment(p) => p < |s.producers| && s.producers[p].Idle?
    case DrainReceive(p) => p < |s.producers| && s.producers[p].Draining? && s.queue != []
    case DrainDecrement(p) => p < |s.producers| && s.producers[p].Removing?
    case DrainEmpty(p) => p < |s.producers| && s.producers[p].Draining? && s.queue == []
    case Send(p) => p < |s.producers| && s.producers[p].Sending? && s.queue == []
    case Dequeue => s.consumer.Waiting? && s.queue != []
    case CheckPending => s.consumer.Holding?
    case Start => s.consumer.Cleared?
    case Return(_, _) => s.consumer.Attempting?
    case Wake => s.consumer.Sleeping?
    case Complete => s.consumer.Finishing?
  }

  function Apply(s: State, step: Step): State
    requires Enabled(s, step)
  {
    var l := s.ledger;
    match step
    case Increment(p) =>
      s.(busy := s.busy + 1, producers := s.producers[p := Draining(l.issued + 1)],
         ledger := l.(issued := l.issued + 1))
    case DrainReceive(p) =>
      s.(queue := s.queue[1..], producers := s.producers[p := Removing(s.producers[p].mine, s.queue[0])],
         ledger := l.(drained := l.drained + multiset{s.queue[0]}))
    case DrainDecrement(p) =>
      s.(busy := s.busy - 1, producers := s.producers[p := Draining(s.producers[p].mine)])
    case DrainEmpty(p) =>
      s.(producers := s.producers[p := Sending(s.producers[p].mine)])
    case Send(p) =>
      s.(queue := [s.producers[p].mine], producers := s.producers[p := Idle],
         ledger := l.(sent := l.sent + [s.producers[p].mine]))
    case Dequeue =>
      s.(queue := s.queue[1..], consumer := Holding(s.queue[0]), ledger := l.(served := l.served + [s.queue[0]]))
    case CheckPending =>
      var u := s.consumer.update;
      s.(consumer := if s.queue != [] then Finishing(u, Obsoleted) else Cleared(u))
    case Start =>
      var u := s.consumer.update;
      s.(consumer := Attempting(u), ledger := l.(started := l.started + [u]))
    case Return(pushErrors, fatal) =>
      var u := s.consumer.update;
      s.(consumer := if fatal then Finishing(u, Abandoned)
                     else if pushErrors == 0 then Finishing(u, Succeeded)
                     else Sleeping(u),
         ledger := l.(returned := l.returned + [Outcome(u, pushErrors, fatal)]))
    case Wake => s.(consumer := Holding(s.consumer.update))
    case Complete =>
      var u := s.consumer.update;
      s.(busy := s.busy - 1, consumer := Waiting,
         ledger := if s.consumer.verdict.Obsoleted? then l.(obsoleted := l.obsoleted + multiset{u})
                   else l.(finished := l.finished + multiset{u}))
  }

  const NOTHING_YET := Ledger(0, [], [], [], [], multiset{}, multiset{}, multiset{})

  function Init(n: nat): State {
    State(0, [], seq(n, _ => Idle), Waiting, NOTHING_YET)
  }

  function Exec(s: State, steps: seq<Step>): Option<State> {
    if steps == [] then Some(s)
    else
      var before := Exec(s, steps[..|steps| - 1]);
      if before.Some? && Enabled(before.value, Last(steps)) then Some(Apply(before.value, Last(steps)))
      else None
  }

  /** Some interleaving of `n` producers and the consumer reaches `s`. */
  ghost predicate Reachable(n: nat, s: State) {
    exists steps :: Exec(Init(n), steps) == Some(s)
  }

  lemma ReachInit(n: nat)
    ensures Reachable(n, Init(n))
  {
    assert Exec(Init(n), []) == Some(Init(n));
  }

  lemma Reach(n: nat, s: State, step: Step, s': State)
    requires Reachable(n, s) && Enabled(s, step) && s' == Apply(s, step)
    ensures Reachable(n, s')
  {
    var steps :| Exec(Init(n), steps) == Some(s);
    assert (steps + [step])[..|steps|] == steps;
    assert Exec(Init(n), steps + [step]) == Some(s');
  }

  // ---------- what the busy count counts ----------

  function Weight(p: Producer): nat {
    match p case Idle => 0 case Removing(_, _) => 2 case _ => 1
  }

  /** An enqueue from its increment to its send counts 1, and 1 more while it holds a drained update. */
  function InEnqueue(ps: seq<Producer>): nat {
    if ps == [] then 0 else InEnqueue(ps[..|ps| - 1]) + Weight(Last(ps))
  }

  lemma {:induction false} InEnqueueUpdate(ps: seq<Producer>, p: nat, x: Producer)
    requires p < |ps|
    ensures InEnqueue(ps[p := x]) == InEnqueue(ps) - Weight(ps[p]) + Weight(x)
  {
    if p == |ps| - 1 {
      assert ps[p := x][..p] == ps[..p];
    } else {
      InEnqueueUpdate(ps[..|ps| - 1], p, x);
      assert ps[p := x][..|ps| - 1] == ps[..|ps| - 1][p := x];
    }
  }

  function Load(s: State): nat {
    |s.queue| + InEnqueue(s.producers) + if s.consumer.Waiting? then 0 else 1
  }

  ghost predicate Counted(n: nat, s: State) {
    s.busy == Load(s) && |s.queue| <= 1 && |s.producers| == n
  }

  lemma CountedStep(n: nat, s: State, step: Step)
    requires Counted(n, s) && Enabled(s, step)
    ensures Counted(n, Apply(s, step))
  {
    if ProducerStep(step) {
      InEnqueueUpdate(s.producers, step.p, Apply(s, step).producers[step.p]);
    }
  }

  lemma {:induction false} CountedInit(n: nat)
    ensures InEnqueue(seq(n, _ => Idle)) == 0
  {
    if n > 0 {
      var ps := seq(n, _ => Idle);
      assert ps[..n - 1] == seq(n - 1, _ => Idle);
      CountedInit(n - 1);
    }
  }

  lemma {:induction false} CountedThroughout(n: nat, steps: seq<Step>, s: State)
    requires Exec(Init(n), steps) == Some(s)
    ensures Counted(n, s)
    decreases |steps|
  {
    if steps == [] {
      CountedInit(n);
    } else {
      var before := Exec(Init(n), steps[..|steps| - 1]).value;
      CountedThroughout(n, steps[..|steps| - 1], before);
      CountedStep(n, before, Last(steps));
    }
  }

  lemma {:induction false} IdleMeansIdle(ps: seq<Producer>)
    ensures InEnqueue(ps) <= 2 * |ps|
    ensures InEnqueue(ps) == 0 <==> forall p | 0 <= p < |ps| :: ps[p].Idle?
  {
    if ps != [] {
      IdleMeansIdle(ps[..|ps| - 1]);
      assert forall p | 0 <= p < |ps| - 1 :: ps[p] == ps[..|ps| - 1][p];
    }
  }

  predicate Quiet(s: State) {
    s.queue == [] && s.consumer.Waiting? && forall p | 0 <= p < |s.producers| :: s.producers[p].Idle?
  }

  /** For any number of producers the busy count is the channel length, plus one for every enqueue
      between increment and send, plus one for every drained update not yet taken off, plus one for
      the update in service. So it is never negative, it fits 32 bits for up to a billion
      producers, and isIdle is true exactly when nothing is queued, being queued or in service. */
  lemma BusyConserved(n: nat, s: State)
    requires Reachable(n, s)
    ensures s.busy == Load(s)
    ensures 0 <= s.busy <= 2 * n + 2
    ensures s.busy == 0 <==> Quiet(s)
  {
    var steps :| Exec(Init(n), steps) == Some(s);
    CountedThroughout(n, steps, s);
    IdleMeansIdle(s.producers);
  }

  lemma QueueBounded(n: nat, s: State)
    requires Reachable(n, s)
    ensures |s.queue| <= 1
  {
    var steps :| Exec(Init(n), steps) == Some(s);
    CountedThroughout(n, steps, s);
  }

  // ---------- every update is accounted for ----------

  function Mine(p: Producer, u: Ticket): nat {
    if !p.Idle? && p.mine == u then 1 else 0
  }

  function InFlight(ps: seq<Producer>, u: Ticket): nat {
    if ps == [] then 0 else InFlight(ps[..|ps| - 1], u) + Mine(Last(ps), u)
  }

  lemma {:induction false} InFlightUpdate(ps: seq<Producer>, p: nat, x: Producer, u: Ticket)
    requires p < |ps|
    ensures InFlight(ps[p := x], u) == InFlight(ps, u) - Mine(ps[p], u) + Mine(x, u)
  {
    if p == |ps| - 1 {
      assert ps[p := x][..p] == ps[..p];
    } else {
      InFlightUpdate(ps[..|ps| - 1], p, x, u);
      assert ps[p := x][..|ps| - 1] == ps[..|ps| - 1][p := x];
    }
  }

  function Queued(s: State, u: Ticket): nat {
    if u in s.queue then 1 else 0
  }

  function InService(c: Consumer, u: Ticket): nat {
    if !c.Waiting? && c.update == u then 1 else 0
  }

  function Places(s: State, u: Ticket): nat {
    InFlight(s.producers, u) + Queued(s, u) + InService(s.consumer, u)
    + s.ledger.drained[u] + s.ledger.obsoleted[u] + s.ledger.finished[u]
  }

  lemma PlacesStep(s: State, step: Step, u: Ticket)
    requires Enabled(s, step) && |s.queue| <= 1
    ensures Places(Apply(s, step), u) ==
            Places(s, u) + if step.Increment? && u == s.ledger.issued + 1 then 1 else 0
  {
    if ProducerStep(step) {
      InFlightUpdate(s.producers, step.p, Apply(s, step).producers[step.p], u);
    }
  }

  lemma {:induction false} NoneInFlight(n: nat, u: Ticket)
    ensures InFlight(seq(n, _ => Idle), u) == 0
  {
    if n > 0 {
      var ps := seq(n, _ => Idle);
      assert ps[..n - 1] == seq(n - 1, _ => Idle);
      NoneInFlight(n - 1, u);
    }
  }

  lemma {:induction false} PlacesThroughout(n: nat, steps: seq<Step>, s: State, u: Ticket)
    requires Exec(Init(n), steps) == Some(s)
    ensures Places(s, u) == if 1 <= u <= s.ledger.issued then 1 else 0
    decreases |steps|
  {
    if steps == [] {
      NoneInFlight(n, u);
    } else {
      var before := Exec(Init(n), steps[..|steps| - 1]).value;
      PlacesThroughout(n, steps[..|steps| - 1], before, u);
      CountedThroughout(n, steps[..|steps| - 1], before);
      PlacesStep(before, Last(steps), u);
    }
  }

  /** For any number of producers, every update issued is in exactly one place: still being
      enqueued, queued, in service, drained, obsoleted or finished. */
  lemma EveryUpdateInOnePlace(n: nat, s: State, u: Ticket)
    requires Reachable(n, s)
    ensures InFlight(s.producers, u) + Queued(s, u) + InService(s.consumer, u)
            + s.ledger.drained[u] + s.ledger.obsoleted[u] + s.ledger.finished[u]
            == if 1 <= u <= s.ledger.issued then 1 else 0
  {
    var steps :| Exec(Init(n), steps) == Some(s);
    PlacesThroughout(n, steps, s, u);
  }

  // ---------- attempts and what they returned ----------

  function PushErrors(outcomes: seq<Outcome>): nat {
    if outcomes == [] then 0 else PushErrors(outcomes[..|outcomes| - 1]) + Last(outcomes).pushErrors
  }

  lemma PushErrorsSnoc(outcomes: seq<Outcome>, o: Outcome)
    ensures PushErrors(outcomes + [o]) == PushErrors(outcomes) + o.pushErrors
  {
    assert (outcomes + [o])[..|outcomes|] == outcomes;
  }

  predicate Ending(c: Consumer, u: Ticket) {
    c.Finishing? && c.update == u && !c.verdict.Obsoleted?
  }

  /** An attempt at this update has succeeded, or has ended in an error. */
  ghost predicate Decided(l: Ledger, u: Ticket) {
    exists i :: 0 <= i < |l.returned| && l.returned[i].update == u && !l.returned[i].Failed()
  }

  ghost predicate Matched(s: State) {
    var l, c := s.ledger, s.consumer;
    && |l.started| == |l.returned| + (if c.Attempting? then 1 else 0)
    && (c.Attempting? ==> Last(l.started) == c.update)
    && (forall i | 0 <= i < |l.returned| :: l.returned[i].update == l.started[i])
    && (forall u :: Decided(l, u) <==> u in l.finished || Ending(c, u))
    && forall i, j | 0 <= i < j < |l.returned| && l.returned[i].update == l.returned[j].update :: l.returned[i].Failed()
  }

  lemma MatchedStep(n: nat, s: State, step: Step)
    requires Matched(s) && Reachable(n, s) && Enabled(s, step)
    ensures Matched(Apply(s, step))
  {
    hide Reachable;
    if step.Return? {
      MatchedReturn(n, s, step);
    } else {
      var s' := Apply(s, step);
      assert s'.ledger.returned == s.ledger.returned;
      forall u
        ensures Decided(s'.ledger, u) <==> u in s'.ledger.finished || Ending(s'.consumer, u)
      {
        assert Decided(s'.ledger, u) <==> Decided(s.ledger, u);
      }
    }
  }

  lemma MatchedReturn(n: nat, s: State, step: Step)
    requires Matched(s) && Reachable(n, s) && Enabled(s, step) && step.Return?
    ensures Matched(Apply(s, step))
  {
    hide Reachable;
    var s', l, u := Apply(s, step), s.ledger, s.consumer.update;
    var o := Outcome(u, step.pushErrors, step.fatal);
    assert s'.ledger.returned == l.returned + [o];
    EveryUpdateInOnePlace(n, s, u);
    assert !Decided(l, u);
    forall v
      ensures Decided(s'.ledger, v) <==> Decided(l, v) || (v == u && !o.Failed())
    {
      DecidedMore(l, s'.ledger, o, v);
    }
  }

  lemma DecidedMore(l: Ledger, l': Ledger, o: Outcome, u: Ticket)
    requires l'.returned == l.returned + [o]
    ensures Decided(l', u) <==> Decided(l, u) || (o.update == u && !o.Failed())
  {
    if o.update == u && !o.Failed() { assert l'.returned[|l.returned|] == o; }
    if i :| 0 <= i < |l.returned| && l.returned[i].update == u && !l.returned[i].Failed() {
      assert l'.returned[i] == l.returned[i];
    }
  }

  lemma {:induction false} MatchedThroughout(n: nat, steps: seq<Step>, s: State)
    requires Exec(Init(n), steps) == Some(s)
    ensures Matched(s)
    decreases |steps|
  {
    hide Enabled, Apply, Matched;
    if steps == [] {
      assert Matched(s) by { MatchedInit(n); }
    } else {
      var before := Exec(Init(n), steps[..|steps| - 1]).value;
      assert Reachable(n, before);
      MatchedThroughout(n, steps[..|steps| - 1], before);
      MatchedStep(n, before, Last(steps));
    }
  }

  lemma MatchedInit(n: nat)
    ensures Matched(Init(n))
  {
  }

  /** Whatever the interleaving, an update is retried exactly until an attempt at it succeeds or ends in an
      error: an attempt is followed by another one at the same update only if it failed to push something,
      and the finished updates are those with an attempt that did not, which was their last. */
  lemma RetriedUntilDecided(n: nat, s: State)
    requires Reachable(n, s)
    ensures |s.ledger.started| == |s.ledger.returned| + if s.consumer.Attempting? then 1 else 0
    ensures forall i | 0 <= i < |s.ledger.returned| :: s.ledger.returned[i].update == s.ledger.started[i]
    ensures forall i, j | 0 <= i < j < |s.ledger.started| && s.ledger.started[i] == s.ledger.started[j] ::
              s.ledger.returned[i].Failed()
    ensures forall u :: Decided(s.ledger, u) <==> u in s.ledger.finished || Ending(s.consumer, u)
  {
    hide Matched;
    var steps :| Exec(Init(n), steps) == Some(s);
    MatchedThroughout(n, steps, s);
    MatchedMeans(n, s);
  }

  lemma MatchedMeans(n: nat, s: State)
    requires Matched(s) && Reachable(n, s)
    ensures |s.ledger.started| == |s.ledger.returned| + if s.consumer.Attempting? then 1 else 0
    ensures forall i | 0 <= i < |s.ledger.returned| :: s.ledger.returned[i].update == s.ledger.started[i]
    ensures forall i, j | 0 <= i < j < |s.ledger.started| && s.ledger.started[i] == s.ledger.started[j] ::
              s.ledger.returned[i].Failed()
    ensures forall u :: Decided(s.ledger, u) <==> u in s.ledger.finished || Ending(s.consumer, u)
  {
    hide Reachable;
    var l := s.ledger;
    if s.consumer.Attempting? { EveryUpdateInOnePlace(n, s, s.consumer.update); }
    hide Places, InFlight;
    forall i, j | 0 <= i < j < |l.started| && l.started[i] == l.started[j]
      ensures l.returned[i].Failed()
    {
      if j == |l.returned| {
        assert Decided(l, l.started[i]) || l.returned[i].Failed();
      } else {
        assert l.returned[i].update == l.returned[j].update;
      }
    }
  }

  // ---------- the last update sent is served ----------

  predicate SomeoneEnqueues(s: State) {
    exists p | 0 <= p < |s.producers| :: !s.producers[p].Idle?
  }

  predicate Attempted(c: Consumer) {
    c.Attempting? || c.Sleeping? || (c.Finishing? && !c.verdict.Obsoleted?)
  }

  /** Where the update sent last can be: still queued, or about to be replaced by an enqueue that is
      under way, or in service and not given up, or finished by the last attempt that was started. */
  predicate LastSentAt(s: State, w: Ticket) {
    || s.queue == [w]
    || SomeoneEnqueues(s)
    || (!s.consumer.Waiting? && s.consumer.update == w
        && !(s.consumer.Finishing? && s.consumer.verdict.Obsoleted?))
    || (s.consumer.Waiting? && w in s.ledger.finished && s.ledger.started != [] && Last(s.ledger.started) == w
        && s.ledger.served != [] && Last(s.ledger.served) == w)
  }

  predicate Latest(s: State) {
    && |s.queue| <= 1
    && (s.ledger.sent == [] ==> s.queue == [] && s.consumer.Waiting?)
    && (s.queue != [] ==> s.ledger.sent != [] && s.queue == [Last(s.ledger.sent)])
    && (s.ledger.sent != [] ==> LastSentAt(s, Last(s.ledger.sent)))
    && (!s.consumer.Waiting? ==> s.ledger.served != [] && Last(s.ledger.served) == s.consumer.update)
    && (Attempted(s.consumer) ==> s.ledger.started != [] && Last(s.ledger.started) == s.consumer.update)
  }

  lemma LatestStep(s: State, step: Step)
    requires Latest(s) && Enabled(s, step)
    ensures Latest(Apply(s, step))
  {
    var s' := Apply(s, step);
    if ProducerStep(step) && !step.Send? {
      assert !s'.producers[step.p].Idle?;
    }
    if step.DrainReceive? || step.DrainDecrement? || step.DrainEmpty? || step.Send? {
      assert !s.producers[step.p].Idle?;
    }
  }

  lemma {:induction false} LatestThroughout(n: nat, steps: seq<Step>, s: State)
    requires Exec(Init(n), steps) == Some(s)
    ensures Latest(s)
    decreases |steps|
  {
    if steps != [] {
      var before := Exec(Init(n), steps[..|steps| - 1]).value;
      LatestThroughout(n, steps[..|steps| - 1], before);
      LatestStep(before, Last(steps));
    }
  }

  /** Once the synchronizer is idle, the update that was sent last, by whichever producer, is the
      one dequeued last; it was attempted, by the last attempt of all, and finished, and that attempt
      succeeded or ended in an error. */
  lemma LastSentIsServed(n: nat, s: State)
    requires Reachable(n, s) && s.busy == 0 && s.ledger.sent != []
    ensures var w := Last(s.ledger.sent);
            && s.ledger.served != [] && Last(s.ledger.served) == w
            && s.ledger.started != [] && Last(s.ledger.started) == w
            && w in s.ledger.finished && w !in s.ledger.drained && w !in s.ledger.obsoleted
    ensures s.ledger.returned != [] && Last(s.ledger.returned).update == Last(s.ledger.sent)
            && !Last(s.ledger.returned).Failed()
  {
    BusyConserved(n, s);
    var steps :| Exec(Init(n), steps) == Some(s);
    LatestThroughout(n, steps, s);
    EveryUpdateInOnePlace(n, s, Last(s.ledger.sent));
    LastDecided(n, s);
  }

  lemma LastDecided(n: nat, s: State)
    requires Reachable(n, s) && s.consumer.Waiting? && s.ledger.started != []
    requires Last(s.ledger.started) in s.ledger.finished
    ensures s.ledger.returned != [] && Last(s.ledger.returned).update == Last(s.ledger.started)
    ensures !Last(s.ledger.returned).Failed()
  {
    hide Reachable;
    RetriedUntilDecided(n, s);
    var l := s.ledger;
    assert Decided(l, Last(l.started));
    var i :| 0 <= i < |l.returned| && l.returned[i].update == Last(l.started) && !l.returned[i].Failed();
    assert l.started[i] == l.started[|l.started| - 1];
  }

  /** So for any number of producers, the newest update is the one attempted last if and only if it was
      the one sent last. */
  lemma NewestServedLastExactly(n: nat, s: State)
    requires Reachable(n, s) && s.busy == 0 && s.ledger.sent != []
    ensures s.ledger.started != []
    ensures Last(s.ledger.started) == s.ledger.issued <==> Last(s.ledger.sent) == s.ledger.issued
  {
    hide Reachable;
    LastSentIsServed(n, s);
  }

  // ---------- a single producer ----------

  /** With one producer updates are sent in the order they are issued, so everything behind the
      newest is older than it. */
  ghost predicate InOrder(s: State) {
    var l := s.ledger;
    && |s.producers| == 1 && |s.queue| <= 1
    && Increasing(l.sent) && Increasing(l.served)
    && (forall u | u in l.sent :: 1 <= u <= l.issued)
    && (forall u | u in l.served :: u in l.sent)
    && (s.queue != [] ==> l.sent != [] && s.queue[0] == Last(l.sent) && (l.served == [] || Last(l.served) < s.queue[0]))
    && (!s.consumer.Waiting? ==> l.served != [] && s.consumer.update == Last(l.served))
    && (forall u | u in l.drained || u in l.obsoleted :: u < l.issued)
    && (s.consumer.Finishing? && s.consumer.verdict.Obsoleted? ==> s.consumer.update < l.issued)
    && match s.producers[0] {
         case Idle => if l.issued == 0 then l.sent == [] else l.sent != [] && Last(l.sent) == l.issued
         case Sending(mine) => 1 <= mine == l.issued && mine !in l.sent && s.queue == []
         case p => 1 <= p.mine == l.issued && p.mine !in l.sent
       }
  }

  lemma InOrderStep(s: State, step: Step)
    requires InOrder(s) && Enabled(s, step)
    ensures InOrder(Apply(s, step))
  {
    if ProducerStep(step) {
      assert step.p == 0;
      InOrderProducer(s, step);
    } else {
      InOrderConsumer(s, step);
    }
  }

  lemma InOrderProducer(s: State, step: Step)
    requires InOrder(s) && Enabled(s, step) && ProducerStep(step)
    ensures InOrder(Apply(s, step))
  {
    assert s.queue != [] ==> s.queue[0] in s.ledger.sent;
    assert forall i | 0 <= i < |s.ledger.sent| :: s.ledger.sent[i] in s.ledger.sent;
  }

  lemma InOrderConsumer(s: State, step: Step)
    requires InOrder(s) && Enabled(s, step) && !ProducerStep(step)
    ensures InOrder(Apply(s, step))
  {
    if step.Dequeue? {
      assert forall u | u in s.ledger.served :: u <= Last(s.ledger.served);
    } else {
      InOrderService(s, step);
    }
  }

  lemma InOrderService(s: State, step: Step)
    requires InOrder(s) && Enabled(s, step) && !ProducerStep(step) && !step.Dequeue?
    ensures InOrder(Apply(s, step))
  {
    if s.queue != [] {
      assert Last(s.ledger.sent) <= s.ledger.issued;
    }
  }

  lemma {:induction false} InOrderThroughout(steps: seq<Step>, s: State)
    requires Exec(Init(1), steps) == Some(s)
    ensures InOrder(s)
    decreases |steps|
  {
    if steps != [] {
      var before := Exec(Init(1), steps[..|steps| - 1]).value;
      InOrderThroughout(steps[..|steps| - 1], before);
      InOrderStep(before, Last(steps));
    }
  }

  /** Latest wins: when a single producer finds the synchronizer idle, the newest update was
      dequeued, attempted, by the last attempt of all, and finished, because that attempt succeeded or
      ended in an error; it was neither drained nor obsoleted. */
  lemma NewestNeverLost(s: State)
    requires Reachable(1, s) && s.busy == 0 && s.ledger.issued > 0
    ensures var n := s.ledger.issued;
            && s.ledger.served != [] && Last(s.ledger.served) == n
            && s.ledger.started != [] && Last(s.ledger.started) == n
            && n in s.ledger.finished && n !in s.ledger.drained && n !in s.ledger.obsoleted
            && s.ledger.returned != [] && Last(s.ledger.returned).update == n && !Last(s.ledger.returned).Failed()
  {
    var steps :| Exec(Init(1), steps) == Some(s);
    InOrderThroughout(steps, s);
    BusyConserved(1, s);
    LastSentIsServed(1, s);
  }

  /** Service is monotone, and whatever was dropped was dropped for something newer. */
  lemma ServedInOrder(s: State)
    requires Reachable(1, s)
    ensures Increasing(s.ledger.served)
    ensures forall u | u in s.ledger.drained || u in s.ledger.obsoleted :: u < s.ledger.issued
  {
    var steps :| Exec(Init(1), steps) == Some(s);
    InOrderThroughout(steps, s);
  }

  // ---------- two producers ----------

  /** With two producers the newest update can be drained in favour of an older one: the hypothesis
      of `NewestNeverLost` is needed. Only being sent last counts. */
  lemma TwoProducersLoseTheNewest() returns (s: State)
    ensures Reachable(2, s) && s.busy == 0 && s.ledger.issued == 2
    ensures 2 in s.ledger.drained && s.ledger.served == [1] && s.ledger.sent == [2, 1]
  {
    hide Reachable;
    s := NewestDrained();
    s := Play(2, s, DrainEmpty(0));
    s := Play(2, s, Send(0));
    s := Play(2, s, Dequeue);
    s := Play(2, s, CheckPending);
    s := Play(2, s, Start);
    s := Play(2, s, Return(0, false));
    s := Play(2, s, Complete);
  }

  lemma NewestDrained() returns (s: State)
    ensures s == State(1, [], [Draining(1), Idle], Waiting,
                       NOTHING_YET.(issued := 2, sent := [2], drained := multiset{2}))
    ensures Reachable(2, s)
  {
    hide Reachable;
    ReachInit(2);
    s := Init(2);
    s := Play(2, s, Increment(0));
    s := Play(2, s, Increment(1));
    s := Play(2, s, DrainEmpty(1));
    s := Play(2, s, Send(1));
    s := Play(2, s, DrainReceive(0));
    s := Play(2, s, DrainDecrement(0));
  }

  lemma Play(n: nat, s: State, step: Step) returns (s': State)
    requires Reachable(n, s) && Enabled(s, step)
    ensures s' == Apply(s, step) && Reachable(n, s')
  {
    s' := Apply(s, step);
    Reach(n, s, step, s');
  }

  // ---------- attempts of an obsolete update ----------

  function Starts(steps: seq<Step>): nat {
    if steps == [] then 0 else Starts(steps[..|steps| - 1]) + if Last(steps).Start? then 1 else 0
  }

  /** The channel holds an update before each of these steps. */
  predicate QueuedThroughout(s: State, steps: seq<Step>) {
    steps == []
    || (QueuedThroughout(s, steps[..|steps| - 1])
        && match Exec(s, steps[..|steps| - 1]) {
             case Some(t) => t.queue != []
             case None => true
           })
  }

  /** While a newer update stays queued and the consumer does not dequeue it, the update in service
      is attempted at most once more: only if its check had already been passed. */
  lemma {:induction false} AtMostOneMoreAttempt(s: State, steps: seq<Step>, t: State)
    requires !s.consumer.Waiting? && Exec(s, steps) == Some(t) && QueuedThroughout(s, steps)
    requires Dequeue !in steps
    ensures Starts(steps) <= if s.consumer.Cleared? then 1 else 0
    ensures t.consumer.Cleared? ==> s.consumer.Cleared? && Starts(steps) == 0
    decreases |steps|
  {
    if steps != [] {
      var front := steps[..|steps| - 1];
      AtMostOneMoreAttempt(s, front, Exec(s, front).value);
    }
  }

  /** Without that condition there is no bound: between draining an update and sending the next one
      the channel is empty, and meanwhile a failing older update is attempted again and again. */
  lemma {:induction false} RetriedWhileReplacing(count: nat) returns (s: State)
    ensures Reachable(1, s) && s.ledger.issued == 3 && 2 in s.ledger.drained
    ensures s.consumer == Holding(1) && s.queue == [] && s.producers == [Sending(3)]
    ensures |s.ledger.started| == count && forall u | u in s.ledger.started :: u == 1
  {
    hide Reachable;
    if count == 0 {
      ReachInit(1);
      s := Init(1);
      s := Play(1, s, Increment(0));
      s := Play(1, s, DrainEmpty(0));
      s := Play(1, s, Send(0));
      s := Play(1, s, Dequeue);
      s := Play(1, s, Increment(0));
      s := Play(1, s, DrainEmpty(0));
      s := Play(1, s, Send(0));
      s := Play(1, s, Increment(0));
      s := Play(1, s, DrainReceive(0));
      s := Play(1, s, DrainDecrement(0));
      s := Play(1, s, DrainEmpty(0));
    } else {
      s := RetriedWhileReplacing(count - 1);
      s := Play(1, s, CheckPending);
      s := Play(1, s, Start);
      s := Play(1, s, Return(1, false));
      s := Play(1, s, Wake);
    }
  }
}
