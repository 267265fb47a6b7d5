/** What a build draws from the counter of synthetic addresses, and which switches become devices: a
    function of the configuration, of the counter, and of the switches for which the SID store answers. */
module Builds {
  import opened Basics
  import opened Text
  import opened Net
  import opened Fabrics

  /** `numbers` are the readings of the counter that became loopbacks, by switch, and `next` is the
      reading afterwards. Readings do not wrap; the counter does. */
  datatype Draws = Draws(done: set<string>, numbers: map<string, nat>, next: nat)

  /** The switches for which the SID store is asked. */
  predicate Asks(fabric: Fabric, k: string) {
    k in fabric.switches && ModelKnown(fabric, fabric.switches[k]) && Managed(fabric.switches[k])
    && Present(fabric.switches[k].attributes, "driver")
  }

  function VisitOf(ip: string -> Option<Ip>, sw: Switch): Visit
    requires Managed(sw)
  {
    Visit(ip(Address(sw)).Some?, Present(sw.attributes, "pipeconf"))
  }

  /** The SID store has answered, so that addresses are drawn. */
  predicate Answered(fabric: Fabric, answered: set<string>, k: string) {
    k in answered && Asks(fabric, k) && fabric.switches[k].switchId != ""
  }

  function DrawNext(ip: string -> Option<Ip>, fabric: Fabric, answered: set<string>, d: Draws, k: string): Draws {
    if !Answered(fabric, answered, k) then d else DrawOne(d, k, VisitOf(ip, fabric.switches[k]))
  }

  function DrawOne(d: Draws, k: string, v: Visit): Draws {
    var draw := DrawFor(d.next % TWO_32, v.literal, v.pipeconf);
    Draws(if v.pipeconf && (v.literal || draw.issued.Some?) then d.done + {k} else d.done,
          if draw.issued.Some? then d.numbers[k := d.next + 1] else d.numbers,
          d.next + draw.uses)
  }

  /** The switches in this order, from this reading of the counter on. */
  function DrawAll(ip: string -> Option<Ip>, fabric: Fabric, answered: set<string>, order: seq<string>,
                   first: nat): Draws {
    if order == [] then Draws({}, map[], first)
    else DrawNext(ip, fabric, answered, DrawAll(ip, fabric, answered, order[..|order| - 1], first), Last(order))
  }

  /** The address drawn at a reading of the counter. */
  function Loopback(c: nat): string {
    Synthetic(c % TWO_32)
  }

  lemma LoopbackInjective(c: nat, d: nat)
    requires c < TWO_32 && d < TWO_32 && Loopback(c) == Loopback(d)
    ensures c == d
  {
    SyntheticInjective(c, d);
  }

  /** No number twice, and all of them between two readings of the counter. */
  ghost predicate DistinctWithin(numbers: map<string, nat>, first: int, next: int) {
    && (forall k | k in numbers :: first < numbers[k] < next)
    && forall j, k | j in numbers && k in numbers && j != k :: numbers[j] != numbers[k]
  }

  /** Later answers do not matter. */
  lemma {:induction false} AnsweredElsewhere(ip: string -> Option<Ip>, fabric: Fabric, answered: set<string>,
                                             order: seq<string>, first: nat, k: string)
    requires k !in order
    ensures DrawAll(ip, fabric, answered + {k}, order, first) == DrawAll(ip, fabric, answered, order, first)
  {
    hide DrawNext;
    if order != [] {
      AnsweredElsewhere(ip, fabric, answered, order[..|order| - 1], first, k);
      assert Last(order) in order;
      AnsweredSame(ip, fabric, answered, DrawAll(ip, fabric, answered, order[..|order| - 1], first), Last(order), k);
    }
  }

  lemma AnsweredSame(ip: string -> Option<Ip>, fabric: Fabric, answered: set<string>, d: Draws, j: string, k: string)
    requires j != k
    ensures DrawNext(ip, fabric, answered + {k}, d, j) == DrawNext(ip, fabric, answered, d, j)
  {
  }

  lemma DrawAllSnoc(ip: string -> Option<Ip>, fabric: Fabric, answered: set<string>, order: seq<string>, first: nat,
                    k: string)
    ensures DrawAll(ip, fabric, answered, order + [k], first)
            == DrawNext(ip, fabric, answered, DrawAll(ip, fabric, answered, order, first), k)
  {
    assert (order + [k])[..|order|] == order;
  }

  /** What is true of all draws: numbers are given to the devices with host names, no number twice, no
      more than remain, and an eligible switch is left out only if the store did not answer or if it
      has a host name and the numbers have run out. */
  ghost predicate DrawnRight(ip: string -> Option<Ip>, fabric: Fabric, answered: set<string>, order: seq<string>,
                             first: nat, d: Draws) {
    DrawnFor(ip, fabric, answered, order, d) && NumbersRight(d.numbers, first, d.next)
  }

  ghost predicate DrawnFor(ip: string -> Option<Ip>, fabric: Fabric, answered: set<string>, order: seq<string>,
                           d: Draws) {
    && d.done <= Eligible(fabric)
    && (forall k | k in d.done :: k in order && k in answered)
    && (forall k :: k in d.numbers <==> k in d.done && HostName(ip, fabric.switches[k]))
    && forall k | k in order && k in Eligible(fabric) && k !in d.done ::
         k !in answered || (HostName(ip, fabric.switches[k]) && d.next > 256)
  }

  ghost predicate NumbersRight(numbers: map<string, nat>, first: nat, next: nat) {
    && first <= next && DistinctWithin(numbers, first, next)
    && (next <= TWO_32 ==> |numbers| + Remaining(next) <= Remaining(first))
    && forall k | k in numbers :: numbers[k] % TWO_32 <= 255
  }

  lemma DrawnNext(ip: string -> Option<Ip>, fabric: Fabric, answered: set<string>, order: seq<string>, first: nat,
                  d: Draws, k: string)
    requires DrawnRight(ip, fabric, answered, order, first, d) && k !in order
    ensures DrawnRight(ip, fabric, answered, order + [k], first, DrawNext(ip, fabric, answered, d, k))
  {
    var d' := DrawNext(ip, fabric, answered, d, k);
    NotNumbered(ip, fabric, answered, order, d, k);
    NextDraw(ip, fabric, answered, d, k);
    hide DrawNext, DrawFor, Eligible, Complete, HostName, Remaining, NumbersRight, DrawnFor, Asks;
    if d'.done == d.done {
      DrawnSkip(ip, fabric, answered, order, first, d, k, d'.next);
    } else {
      OneNumber(d.numbers, k, d.next + 1);
      DrawnDevice(ip, fabric, answered, order, first, d, k, d');
    }
  }

  /** What one switch changes. */
  lemma NextDraw(ip: string -> Option<Ip>, fabric: Fabric, answered: set<string>, d: Draws, k: string)
    requires d.done <= Eligible(fabric) && k !in d.done
    ensures var d' := DrawNext(ip, fabric, answered, d, k);
            && d.next <= d'.next
            && (d'.done == d.done ==>
                  && d' == d.(next := d'.next) && (d'.next <= TWO_32 ==> Remaining(d'.next) <= Remaining(d.next))
                  && (k in Eligible(fabric) ==>
                        k in d.done || k !in answered || (HostName(ip, fabric.switches[k]) && d'.next > 256)))
            && (d'.done != d.done ==>
                  && k in fabric.switches && k in Eligible(fabric) && k in answered && d'.done == d.done + {k}
                  && var host := if HostName(ip, fabric.switches[k]) then 1 else 0;
                     && (d'.next <= TWO_32 ==> Remaining(d'.next) + host <= Remaining(d.next))
                     && (host == 0 ==> d'.numbers == d.numbers)
                     && (host == 1 ==> d'.numbers == d.numbers[k := d.next + 1] && d.next + 1 < d'.next
                                       && (d.next + 1) % TWO_32 <= 255))
  {
    var d' := DrawNext(ip, fabric, answered, d, k);
    if Answered(fabric, answered, k) {
      var sw := fabric.switches[k];
      var draw := DrawFor(d.next % TWO_32, ip(Address(sw)).Some?, Present(sw.attributes, "pipeconf"));
      Reading(d.next, draw);
    }
  }

  lemma OneNumber(numbers: map<string, nat>, k: string, n: nat)
    ensures k !in numbers ==> |numbers[k := n]| == |numbers| + 1
  {
    assert k !in numbers ==> numbers[k := n].Keys == numbers.Keys + {k};
  }

  lemma NotNumbered(ip: string -> Option<Ip>, fabric: Fabric, answered: set<string>, order: seq<string>, d: Draws,
                    k: string)
    requires DrawnFor(ip, fabric, answered, order, d) && k !in order
    ensures k !in d.numbers && k !in d.done
  {
  }

  lemma DrawnSkip(ip: string -> Option<Ip>, fabric: Fabric, answered: set<string>, order: seq<string>, first: nat,
                  d: Draws, k: string, next: nat)
    requires DrawnRight(ip, fabric, answered, order, first, d) && d.next <= next
    requires next <= TWO_32 ==> Remaining(next) <= Remaining(d.next)
    requires k in Eligible(fabric) ==> k in d.done || k !in answered || (HostName(ip, fabric.switches[k]) && next > 256)
    ensures DrawnRight(ip, fabric, answered, order + [k], first, d.(next := next))
  {
    hide Eligible, Remaining, DistinctWithin;
    assert NumbersRight(d.numbers, first, next) by { DistinctMore(d.numbers, first, d.next, k, d.numbers, next); }
  }

  lemma DrawnDevice(ip: string -> Option<Ip>, fabric: Fabric, answered: set<string>, order: seq<string>, first: nat,
                    d: Draws, k: string, d': Draws)
    requires DrawnRight(ip, fabric, answered, order, first, d) && k !in order && k in answered
    requires k in fabric.switches && k in Eligible(fabric) && d.next <= d'.next && d'.done == d.done + {k}
    requires if HostName(ip, fabric.switches[k])
             then d'.numbers == d.numbers[k := d.next + 1] && d.next + 1 < d'.next && (d.next + 1) % TWO_32 <= 255
             else d'.numbers == d.numbers
    requires d'.next <= TWO_32 ==> Remaining(d'.next) + |d'.numbers| - |d.numbers| <= Remaining(d.next)
    ensures DrawnRight(ip, fabric, answered, order + [k], first, d')
  {
    hide NumbersRight, DrawnFor, Eligible, HostName, Remaining;
    NotNumbered(ip, fabric, answered, order, d, k);
    NumbersMore(d.numbers, first, d.next, k, d'.numbers, d'.next);
    DrawnForMore(ip, fabric, answered, order, d, k, d');
  }

  lemma DrawnForMore(ip: string -> Option<Ip>, fabric: Fabric, answered: set<string>, order: seq<string>, d: Draws,
                     k: string, d': Draws)
    requires DrawnFor(ip, fabric, answered, order, d) && k !in order && k in answered
    requires k in fabric.switches && k in Eligible(fabric) && d.next <= d'.next && d'.done == d.done + {k}
    requires forall j :: j in d'.numbers <==> j in d.numbers || (j == k && HostName(ip, fabric.switches[k]))
    ensures DrawnFor(ip, fabric, answered, order + [k], d')
  {
    hide HostName;
  }

  lemma NumbersMore(numbers: map<string, nat>, first: nat, next: nat, k: string, numbers': map<string, nat>, next': nat)
    requires NumbersRight(numbers, first, next) && next <= next' && k !in numbers
    requires numbers' == numbers
             || (numbers' == numbers[k := next + 1] && next + 1 < next' && (next + 1) % TWO_32 <= 255)
    requires next' <= TWO_32 ==> Remaining(next') + |numbers'| - |numbers| <= Remaining(next)
    ensures NumbersRight(numbers', first, next')
  {
    DistinctMore(numbers, first, next, k, numbers', next');
    hide DistinctWithin, Remaining;
  }

  lemma DistinctMore(numbers: map<string, nat>, first: nat, next: nat, k: string, numbers': map<string, nat>,
                     next': nat)
    requires DistinctWithin(numbers, first, next) && first <= next <= next'
    requires numbers' == numbers || (numbers' == numbers[k := next + 1] && next + 1 < next')
    ensures DistinctWithin(numbers', first, next')
  {
  }

  lemma Reading(c: nat, draw: Draw)
    requires exists literal, pipeconf :: draw == DrawFor(c % TWO_32, literal, pipeconf)
    ensures draw.issued.Some? ==> draw.uses == 2 && (c + 1) % TWO_32 == draw.issued.value <= 255
    ensures c + draw.uses <= TWO_32 ==> (if draw.issued.Some? then 1 else 0) + Remaining(c + draw.uses) <= Remaining(c)
  {
  }

  lemma {:induction false} DrawnAll(ip: string -> Option<Ip>, fabric: Fabric, answered: set<string>,
                                    order: seq<string>, first: nat)
    requires NoDuplicates(order)
    ensures DrawnRight(ip, fabric, answered, order, first, DrawAll(ip, fabric, answered, order, first))
  {
    hide DrawNext, DrawnRight;
    if order == [] {
      assert DrawnRight(ip, fabric, answered, [], first,
                        Draws({}, map[], first)) by { DrawnNothing(ip, fabric, answered, first); }
    } else {
      var front := order[..|order| - 1];
      DrawnAll(ip, fabric, answered, front, first);
      DrawnNext(ip, fabric, answered, front, first, DrawAll(ip, fabric, answered, front, first), Last(order));
      assert order == front + [Last(order)];
    }
  }

  lemma DrawnNothing(ip: string -> Option<Ip>, fabric: Fabric, answered: set<string>, first: nat)
    ensures DrawnRight(ip, fabric, answered, [], first, Draws({}, map[], first))
  {
  }

  /** The visits that draw. */
  function VisitsOf(ip: string -> Option<Ip>, fabric: Fabric, answered: set<string>, order: seq<string>): seq<Visit> {
    if order == [] then []
    else
      var front, k := VisitsOf(ip, fabric, answered, order[..|order| - 1]), Last(order);
      if !Answered(fabric, answered, k) then front
      else front + [VisitOf(ip, fabric.switches[k])]
  }

  /** A build draws what a sequence of visits draws. */
  lemma {:induction false} DrawsAreIssued(ip: string -> Option<Ip>, fabric: Fabric, answered: set<string>,
                                          order: seq<string>, first: nat)
    requires NoDuplicates(order)
    ensures var d, visits := DrawAll(ip, fabric, answered, order, first), VisitsOf(ip, fabric, answered, order);
            && d.next == first + TotalUses(first % TWO_32, visits)
            && d.next % TWO_32 == NextAfter(first % TWO_32, visits)
            && |d.numbers| == |Issued(first % TWO_32, visits)|
  {
    hide DrawNext, NextAfter, Issued, TotalUses, DrawnRight;
    if order == [] {
      assert DrawAll(ip, fabric, answered, [], first) == Draws({}, map[], first);
      NoVisits(first % TWO_32);
    } else {
      var front, k := order[..|order| - 1], Last(order);
      DrawsAreIssued(ip, fabric, answered, front, first);
      DrawnAll(ip, fabric, answered, front, first);
      var d := DrawAll(ip, fabric, answered, front, first);
      assert k !in d.numbers by { NotNumberedYet(ip, fabric, answered, front, first, d, k); }
      NextIssued(ip, fabric, answered, first, d, VisitsOf(ip, fabric, answered, front), k);
    }
  }

  lemma NotNumberedYet(ip: string -> Option<Ip>, fabric: Fabric, answered: set<string>, order: seq<string>,
                       first: nat, d: Draws, k: string)
    requires DrawnRight(ip, fabric, answered, order, first, d) && k !in order
    ensures k !in d.numbers
  {
    NotNumbered(ip, fabric, answered, order, d, k);
  }

  lemma NoVisits(next: uint32)
    ensures NextAfter(next, []) == next && Issued(next, []) == [] && TotalUses(next, []) == 0
  {
  }

  lemma NextIssued(ip: string -> Option<Ip>, fabric: Fabric, answered: set<string>, first: nat,
                   d: Draws, visits: seq<Visit>, k: string)
    requires k !in d.numbers
    requires d.next == first + TotalUses(first % TWO_32, visits) && d.next % TWO_32 == NextAfter(first % TWO_32, visits)
    requires |d.numbers| == |Issued(first % TWO_32, visits)|
    ensures var d' := DrawNext(ip, fabric, answered, d, k);
            var visits' := if Answered(fabric, answered, k) then visits + [VisitOf(ip, fabric.switches[k])] else visits;
            && d'.next == first + TotalUses(first % TWO_32, visits')
            && d'.next % TWO_32 == NextAfter(first % TWO_32, visits')
            && |d'.numbers| == |Issued(first % TWO_32, visits')|
  {
    hide NextAfter, Issued, TotalUses, Advance, VisitOf, DrawOne, DrawFor;
    if Answered(fabric, answered, k) {
      var v := VisitOf(ip, fabric.switches[k]);
      OneMoreIssued(first, d.next, |d.numbers|, visits, v);
      DrewOne(d, k, v);
    }
  }

  lemma DrewOne(d: Draws, k: string, v: Visit)
    requires k !in d.numbers
    ensures var draw := DrawFor(d.next % TWO_32, v.literal, v.pipeconf);
            && DrawOne(d, k, v).next == d.next + draw.uses
            && |DrawOne(d, k, v).numbers| == |d.numbers| + if draw.issued.Some? then 1 else 0
  {
    hide DrawFor;
    OneNumber(d.numbers, k, d.next + 1);
  }

  lemma OneMoreIssued(first: nat, next: nat, issued: nat, visits: seq<Visit>, v: Visit)
    requires next == first + TotalUses(first % TWO_32, visits) && next % TWO_32 == NextAfter(first % TWO_32, visits)
    requires issued == |Issued(first % TWO_32, visits)|
    ensures var draw := DrawFor(next % TWO_32, v.literal, v.pipeconf);
            && next + draw.uses == first + TotalUses(first % TWO_32, visits + [v])
            && (next + draw.uses) % TWO_32 == NextAfter(first % TWO_32, visits + [v])
            && issued + (if draw.issued.Some? then 1 else 0) == |Issued(first % TWO_32, visits + [v])|
  {
    hide DrawFor, NextAfter, Issued, TotalUses, Advance;
    OneMoreVisit(first % TWO_32, visits, v);
    Advanced(next, DrawFor(next % TWO_32, v.literal, v.pipeconf).uses);
  }

  lemma Advanced(c: nat, uses: nat)
    ensures Advance(c % TWO_32, uses) == (c + uses) % TWO_32
  {
    var q, r := c / TWO_32, c % TWO_32;
    assert c + uses == q * TWO_32 + (r + uses);
    WholeTurns(q, r + uses);
  }

  lemma {:induction false} WholeTurns(q: nat, r: nat)
    ensures (q * TWO_32 + r) % TWO_32 == r % TWO_32
  {
    if q > 0 {
      WholeTurns(q - 1, r);
      assert q * TWO_32 + r == ((q - 1) * TWO_32 + r) + TWO_32;
    }
  }

  // ---------- builds ----------

  /** `devices` are those of the switches in `done`, and each of them that has a host name has the
      loopback drawn for it. */
  ghost predicate DevicesDrawn(ip: string -> Option<Ip>, fabric: Fabric, done: set<string>, sids: map<string, uint32>,
                               devices: map<string, Device>, numbers: map<string, nat>) {
    && (forall k | k in done :: k in fabric.switches && DeviceKey(fabric.switches[k]) in devices)
    && forall key | key in devices ::
         exists k | k in done ::
           DeviceKey(fabric.switches[k]) == key && DeviceDrawn(ip, fabric.switches[k], sids, devices[key], k, numbers)
  }

  ghost predicate DeviceDrawn(ip: string -> Option<Ip>, sw: Switch, sids: map<string, uint32>, d: Device, k: string,
                              numbers: map<string, nat>) {
    DeviceOf(ip, sw, sids, d) && (k in numbers ==> d.loopback == Loopback(numbers[k]))
  }

  lemma DrawnMeansFrom(ip: string -> Option<Ip>, fabric: Fabric, done: set<string>, sids: map<string, uint32>,
                       devices: map<string, Device>, numbers: map<string, nat>)
    requires DevicesDrawn(ip, fabric, done, sids, devices, numbers)
    ensures DevicesFrom(ip, fabric, done, sids, devices)
  {
    hide DeviceOf;
    forall key | key in devices
      ensures exists k | k in done ::
                DeviceKey(fabric.switches[k]) == key && DeviceOf(ip, fabric.switches[k], sids, devices[key])
    {
      var k :| k in done && DeviceKey(fabric.switches[k]) == key
               && DeviceDrawn(ip, fabric.switches[k], sids, devices[key], k, numbers);
    }
  }

  /** The order in which the switches are visited. */
  ghost predicate SwitchOrder(fabric: Fabric, order: seq<string>) {
    Sorted(order) && forall k :: k in order <==> k in fabric.switches
  }

  lemma SwitchOrderVisits(fabric: Fabric, order: seq<string>)
    requires SwitchOrder(fabric, order)
    ensures Visits(order, fabric.switches.Keys) && |order| == |fabric.switches.Keys|
  {
    forall i, j | 0 <= i < j < |order|
      ensures order[i] != order[j]
    {
      LessTotal(order[i], order[j]);
    }
    Cardinality(order, fabric.switches.Keys);
  }

  ghost predicate DrawnAs(ip: string -> Option<Ip>, fabric: Fabric, done: set<string>, sids: map<string, uint32>,
                          devices: map<string, Device>, first: nat, next: nat, answered: set<string>,
                          order: seq<string>) {
    var d := DrawAll(ip, fabric, answered, order, first);
    SwitchOrder(fabric, order) && d.done == done && d.next == next
    && DevicesDrawn(ip, fabric, done, sids, devices, d.numbers)
  }

  /** `nc` is what a build gives, while the counter goes from `first` to `next`, if the SID store answers
      for some of the switches, with these SIDs, and the routes are visited in some order. */
  ghost predicate BuiltBetween(ip: string -> Option<Ip>, fabric: Fabric, done: set<string>, sids: map<string, uint32>,
                               nc: NetConfig, first: nat, next: nat) {
    && NetConfigFrom(ip, fabric, done, sids, nc)
    && exists answered, order :: DrawnAs(ip, fabric, done, sids, nc.devices, first, next, answered, order)
  }

  /** The device of a switch whose management address is no IP literal. */
  ghost predicate HostDevice(ip: string -> Option<Ip>, d: Device) {
    exists address, port :: d.managementAddress == GrpcEndpoint(address, port) && ip(address).None?
  }

  ghost predicate HasHostName(ip: string -> Option<Ip>, nc: NetConfig) {
    exists key | key in nc.devices :: HostDevice(ip, nc.devices[key])
  }

  lemma HostDeviceExactly(ip: string -> Option<Ip>, sw: Switch, sids: map<string, uint32>, d: Device)
    requires DeviceOf(ip, sw, sids, d)
    ensures HostDevice(ip, d) <==> HostName(ip, sw)
  {
    hide GrpcEndpoint;
    forall address, port | d.managementAddress == GrpcEndpoint(address, port)
      ensures address == Address(sw)
    {
      GrpcEndpointInjective(address, port, Address(sw), sw.management.value.port.value);
    }
  }

  /** A loopback drawn between two readings of the counter. */
  ghost predicate NumberedWithin(loopback: string, first: int, next: int) {
    exists c: nat :: first < c < next && loopback == Loopback(c)
  }

  /** The devices with host names have loopbacks drawn during the build, each another one. */
  lemma BuildNumbers(ip: string -> Option<Ip>, fabric: Fabric, done: set<string>, sids: map<string, uint32>,
                     nc: NetConfig, first: nat, next: nat)
    requires BuiltBetween(ip, fabric, done, sids, nc, first, next)
    ensures first <= next
    ensures forall key | key in nc.devices && HostDevice(ip, nc.devices[key]) ::
              NumberedWithin(nc.devices[key].loopback, first, next)
    ensures next <= TWO_32 ==>
              forall a, b | a in nc.devices && b in nc.devices && a != b
                            && HostDevice(ip, nc.devices[a]) && HostDevice(ip, nc.devices[b]) ::
                nc.devices[a].loopback != nc.devices[b].loopback
  {
    hide NetConfigFrom, DrawAll, HostDevice, Loopback, SwitchOrder;
    var answered, order :| DrawnAs(ip, fabric, done, sids, nc.devices, first, next, answered, order);
    SwitchOrderVisits(fabric, order);
    DrawnAll(ip, fabric, answered, order, first);
    var numbers := DrawAll(ip, fabric, answered, order, first).numbers;
    forall a | a in nc.devices && HostDevice(ip, nc.devices[a])
      ensures NumberedWithin(nc.devices[a].loopback, first, next)
    {
      var j := NumberOf(ip, fabric, done, sids, nc.devices, numbers, a);
    }
    forall a, b | a in nc.devices && b in nc.devices && a != b
                  && HostDevice(ip, nc.devices[a]) && HostDevice(ip, nc.devices[b]) && next <= TWO_32
      ensures nc.devices[a].loopback != nc.devices[b].loopback
    {
      var j := NumberOf(ip, fabric, done, sids, nc.devices, numbers, a);
      var k := NumberOf(ip, fabric, done, sids, nc.devices, numbers, b);
      if nc.devices[a].loopback == nc.devices[b].loopback { LoopbackInjective(numbers[j], numbers[k]); }
    }
  }

  lemma NumberOf(ip: string -> Option<Ip>, fabric: Fabric, done: set<string>, sids: map<string, uint32>,
                 devices: map<string, Device>, numbers: map<string, nat>, key: string) returns (k: string)
    requires DevicesDrawn(ip, fabric, done, sids, devices, numbers) && key in devices && HostDevice(ip, devices[key])
    requires forall k :: k in numbers <==> k in done && k in fabric.switches && HostName(ip, fabric.switches[k])
    ensures k in numbers && k in fabric.switches && DeviceKey(fabric.switches[k]) == key
    ensures devices[key].loopback == Loopback(numbers[k])
  {
    hide HostDevice, DeviceOf, Loopback;
    k :| k in done && DeviceKey(fabric.switches[k]) == key
         && DeviceDrawn(ip, fabric.switches[k], sids, devices[key], k, numbers);
    HostDeviceExactly(ip, fabric.switches[k], sids, devices[key]);
  }

  /** The switches of a build that have host names. */
  ghost function Hosts(ip: string -> Option<Ip>, fabric: Fabric, done: set<string>): set<string> {
    set k | k in done && k in fabric.switches && HostName(ip, fabric.switches[k])
  }

  lemma NoneLeft(numbers: map<string, nat>, first: nat, next: nat)
    requires NumbersRight(numbers, first, next) && 255 <= first && next <= TWO_32
    ensures numbers == map[]
  {
    assert forall k :: k !in numbers;
  }

  /** A build uses up as many of the remaining numbers as it has devices with host names, and once there
      are none, it has no such devices. */
  lemma BuildUsesUp(ip: string -> Option<Ip>, fabric: Fabric, done: set<string>, sids: map<string, uint32>,
                    nc: NetConfig, first: nat, next: nat)
    requires BuiltBetween(ip, fabric, done, sids, nc, first, next) && next <= TWO_32
    ensures |Hosts(ip, fabric, done)| + Remaining(next) <= Remaining(first)
    ensures first >= 255 ==> Hosts(ip, fabric, done) == {}
  {
    hide NetConfigFrom, DrawAll, DevicesDrawn, SwitchOrder, Remaining;
    var answered, order :| DrawnAs(ip, fabric, done, sids, nc.devices, first, next, answered, order);
    SwitchOrderVisits(fabric, order);
    DrawnAll(ip, fabric, answered, order, first);
    var numbers := DrawAll(ip, fabric, answered, order, first).numbers;
    assert numbers.Keys == Hosts(ip, fabric, done);
    if first >= 255 { NoneLeft(numbers, first, next); }
  }

  /** All loopbacks of devices with host names were drawn before this reading of the counter. */
  ghost predicate Dated(ip: string -> Option<Ip>, nc: NetConfig, count: nat) {
    forall key | key in nc.devices && HostDevice(ip, nc.devices[key]) ::
      NumberedWithin(nc.devices[key].loopback, -1, count)
  }

  lemma DatedLater(ip: string -> Option<Ip>, nc: NetConfig, count: nat, count': nat)
    requires Dated(ip, nc, count) && count <= count'
    ensures Dated(ip, nc, count')
  {
    hide HostDevice, Loopback;
  }

  lemma BuildDated(ip: string -> Option<Ip>, fabric: Fabric, done: set<string>, sids: map<string, uint32>,
                   nc: NetConfig, first: nat, next: nat)
    requires BuiltBetween(ip, fabric, done, sids, nc, first, next)
    ensures Dated(ip, nc, next) && first <= next
  {
    hide HostDevice, Loopback, BuiltBetween;
    BuildNumbers(ip, fabric, done, sids, nc, first, next);
  }

  /** Until the counter wraps, a netconfig with a host name in it is never built again: not from this
      configuration and not from any other. */
  lemma NeverRebuilt(ip: string -> Option<Ip>, nc: NetConfig, fabric: Fabric, done: set<string>,
                     sids: map<string, uint32>, again: NetConfig, first: nat, next: nat)
    requires Dated(ip, nc, first) && HasHostName(ip, nc) && next <= TWO_32
    requires BuiltBetween(ip, fabric, done, sids, again, first, next)
    ensures again != nc
  {
    hide HostDevice, Loopback, BuiltBetween;
    BuildNumbers(ip, fabric, done, sids, again, first, next);
    var key :| key in nc.devices && HostDevice(ip, nc.devices[key]);
    if again == nc {
      var c: nat :| c < first && nc.devices[key].loopback == Loopback(c);
      var d: nat :| first < d < next && nc.devices[key].loopback == Loopback(d);
      LoopbackInjective(c, d);
    }
  }

  predicate SwitchesKeyed(fabric: Fabric) {
    forall k | k in fabric.switches :: fabric.switches[k].switchId == k
  }

  lemma KeyedIfWellKeyed(fabric: Fabric)
    requires WellKeyed(fabric)
    ensures SwitchesKeyed(fabric)
  {
  }

  lemma {:induction false} LiteralDraws(ip: string -> Option<Ip>, fabric: Fabric, done: set<string>,
                                        order: seq<string>, first: nat)
    requires done <= Eligible(fabric) && Literals(ip, fabric, done)
    ensures DrawAll(ip, fabric, done, order, first) == Draws(set k | k in done && k in order, map[], first)
  {
    hide Eligible;
    if order != [] {
      var front, k := order[..|order| - 1], Last(order);
      LiteralDraws(ip, fabric, done, front, first);
      assert order == front + [k];
      assert (set j | j in done && j in order)
             == (set j | j in done && j in front) + if k in done then {k} else {};
      EligibleAsks(fabric, done, k);
    }
  }

  lemma EligibleAsks(fabric: Fabric, done: set<string>, k: string)
    requires done <= Eligible(fabric)
    ensures k in done ==> Asks(fabric, k) && Complete(fabric.switches[k])
  {
  }

  lemma NoHostNames(ip: string -> Option<Ip>, fabric: Fabric, done: set<string>, sids: map<string, uint32>,
                    nc: NetConfig)
    requires NetConfigFrom(ip, fabric, done, sids, nc) && SwitchesKeyed(fabric) && !HasHostName(ip, nc)
    ensures done <= Eligible(fabric) && Literals(ip, fabric, done)
  {
    if !Literals(ip, fabric, done) {
      var k := SomeHostName(ip, fabric, done);
      HostNameShows(ip, fabric, done, sids, nc, k);
    }
  }

  lemma DoneVisited(fabric: Fabric, done: set<string>, order: seq<string>)
    requires done <= Eligible(fabric) && forall k :: k in order <==> k in fabric.switches
    ensures (set k | k in done && k in order) == done
  {
  }

  /** One without host names can be built again at any time, without drawing anything. */
  lemma Rebuilt(ip: string -> Option<Ip>, fabric: Fabric, done: set<string>, sids: map<string, uint32>,
                nc: NetConfig, first: nat)
    requires NetConfigFrom(ip, fabric, done, sids, nc) && SwitchesKeyed(fabric) && !HasHostName(ip, nc)
    ensures BuiltBetween(ip, fabric, done, sids, nc, first, first)
  {
    hide HasHostName, DevicesFrom, PortsFrom, AppsFrom, Eligible, Literals, DevicesDrawn;
    var order := SomeSorted(fabric.switches.Keys);
    DoneIsEligible(ip, fabric, done, sids, nc);
    NoHostNames(ip, fabric, done, sids, nc);
    LiteralDraws(ip, fabric, done, order, first);
    DoneVisited(fabric, done, order);
    DrawnWithoutNumbers(ip, fabric, done, sids, nc.devices);
    assert DrawnAs(ip, fabric, done, sids, nc.devices, first, first, done, order);
  }

  lemma DrawnWithoutNumbers(ip: string -> Option<Ip>, fabric: Fabric, done: set<string>, sids: map<string, uint32>,
                            devices: map<string, Device>)
    requires DevicesFrom(ip, fabric, done, sids, devices)
    ensures DevicesDrawn(ip, fabric, done, sids, devices, map[])
  {
    hide DeviceOf;
    forall key | key in devices
      ensures exists k | k in done ::
                DeviceKey(fabric.switches[k]) == key
                && DeviceDrawn(ip, fabric.switches[k], sids, devices[key], k, map[])
    {
      var k :| k in done && DeviceKey(fabric.switches[k]) == key
          && DeviceOf(ip, fabric.switches[k], sids, devices[key]);
      assert DeviceDrawn(ip, fabric.switches[k], sids, devices[key], k, map[]);
    }
  }

  /** When the SID store refuses everything, what is built has no devices. */
  lemma SomeBuild(ip: string -> Option<Ip>, fabric: Fabric, first: nat) returns (nc: NetConfig)
    ensures BuiltBetween(ip, fabric, {}, map[], nc, first, first) && !HasHostName(ip, nc)
  {
    nc := SomeNetConfig(ip, fabric);
    var order := SomeSorted(fabric.switches.Keys);
    LiteralDraws(ip, fabric, {}, order, first);
    assert (set k: string | k in {} && k in order) == {};
    assert DrawnAs(ip, fabric, {}, map[], nc.devices, first, first, {}, order);
  }

  // ---------- building again ----------

  /** Two builds of the same switches with the same SIDs, one after the other, give the same devices
      if and only if the management addresses are IP literals: until the counter wraps no synthetic
      address is drawn twice. */
  lemma RebuiltDevices(ip: string -> Option<Ip>, fabric: Fabric, done: set<string>, sids: map<string, uint32>,
                       a: NetConfig, first: nat, next: nat, b: NetConfig, first': nat, next': nat)
    requires WellKeyed(fabric) && next <= first' && next' <= TWO_32
    requires BuiltBetween(ip, fabric, done, sids, a, first, next)
    requires BuiltBetween(ip, fabric, done, sids, b, first', next')
    ensures done <= Eligible(fabric)
    ensures a.devices == b.devices <==> Literals(ip, fabric, done)
  {
    hide WellKeyed, DevicesFrom, PortsFrom, AppsFrom, Literals, Eligible, HostDevice, Dated, HasHostName, DrawnAs;
    if Literals(ip, fabric, done) {
      DevicesDetermined(ip, fabric, done, sids, a.devices, b.devices);
    } else if a.devices == b.devices {
      var k := SomeHostName(ip, fabric, done);
      BuildDated(ip, fabric, done, sids, a, first, next);
      DatedLater(ip, a, next, first');
      assert SwitchesKeyed(fabric) by { KeyedIfWellKeyed(fabric); }
      HostNameShows(ip, fabric, done, sids, a, k);
      SameDates(ip, a, b, first');
      NeverRebuilt(ip, b, fabric, done, sids, b, first', next');
    }
  }

  lemma SameDates(ip: string -> Option<Ip>, a: NetConfig, b: NetConfig, count: nat)
    requires a.devices == b.devices && Dated(ip, a, count) && HasHostName(ip, a)
    ensures Dated(ip, b, count) && HasHostName(ip, b)
  {
    hide HostDevice, NumberedWithin;
  }

  lemma HostNameShows(ip: string -> Option<Ip>, fabric: Fabric, done: set<string>, sids: map<string, uint32>,
                      nc: NetConfig, k: string)
    requires SwitchesKeyed(fabric) && NetConfigFrom(ip, fabric, done, sids, nc)
    requires k in done && HostName(ip, fabric.switches[k])
    ensures HasHostName(ip, nc)
  {
    hide HostDevice, DeviceOf, PortsFrom, AppsFrom, Eligible;
    var key := DeviceKey(fabric.switches[k]);
    var j :| j in done && DeviceKey(fabric.switches[j]) == key
        && DeviceOf(ip, fabric.switches[j], sids, nc.devices[key]);
    assert j == key[7..] == k;
    HostDeviceExactly(ip, fabric.switches[k], sids, nc.devices[key]);
  }

  lemma SomeHostName(ip: string -> Option<Ip>, fabric: Fabric, done: set<string>) returns (k: string)
    requires done <= Eligible(fabric) && !Literals(ip, fabric, done)
    ensures k in done && HostName(ip, fabric.switches[k])
  {
    k :| k in done && ip(Address(fabric.switches[k])).None?;
  }

  lemma OtherRoutes(ip: string -> Option<Ip>, fabric: Fabric, done: set<string>, sids: map<string, uint32>,
                    nc: NetConfig, first: nat, next: nat, apps: map<string, seq<OnosRoute>>)
    requires BuiltBetween(ip, fabric, done, sids, nc, first, next) && AppsFrom(fabric, apps)
    ensures BuiltBetween(ip, fabric, done, sids, nc.(apps := apps), first, next)
  {
    hide DevicesFrom, PortsFrom, AppsFrom, Eligible, DrawnAs;
    var answered, order :| DrawnAs(ip, fabric, done, sids, nc.devices, first, next, answered, order);
  }

  /** These conditions are exact. When a fabric is built again, a later build with the same switches and
      SIDs is sure to give the same netconfig if and only if the management addresses of the switches in
      it are IP literals and the valid routes are alike. */
  lemma NetConfigUnique(ip: string -> Option<Ip>, fabric: Fabric, done: set<string>, sids: map<string, uint32>,
                        nc: NetConfig, first: nat, next: nat, again: NetConfig, first': nat, next': nat)
    requires WellKeyed(fabric) && next <= first' && next' <= TWO_32
    requires BuiltBetween(ip, fabric, done, sids, nc, first, next)
    requires BuiltBetween(ip, fabric, done, sids, again, first', next')
    ensures done <= Eligible(fabric)
    ensures (forall other | BuiltBetween(ip, fabric, done, sids, other, first', next') :: other == nc)
            <==> Literals(ip, fabric, done) && RoutesAlike(fabric)
  {
    hide WellKeyed, NetConfigFrom, RoutesAlike, Literals, Eligible, DrawnAs;
    DoneIsEligible(ip, fabric, done, sids, nc);
    if Literals(ip, fabric, done) && RoutesAlike(fabric) {
      forall other | BuiltBetween(ip, fabric, done, sids, other, first', next')
        ensures other == nc
      {
        NetConfigDetermined(ip, fabric, done, sids, nc, other);
      }
    } else if !Literals(ip, fabric, done) {
      RebuiltDevices(ip, fabric, done, sids, nc, first, next, again, first', next');
    } else {
      var apps := RoutesUndetermined(fabric, nc.apps);
      OtherRoutes(ip, fabric, done, sids, again, first', next', apps);
    }
  }
}
