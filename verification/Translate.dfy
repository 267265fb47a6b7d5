/** The handlers that build a netconfig and chassis configurations, in the source's own form: they
    update the scope they are given, visit maps in any order, and skip what they cannot translate. */
module Translate {
  import opened Basics
  import opened Text
  import opened Net
  import opened Fabrics
  import opened SidStore
  import opened Builds

  class OnosNetConfig {
    var devices: map<string, Device>
    var ports: map<string, OnosPort>
    var apps: map<string, seq<OnosRoute>>

    ghost function View(): NetConfig
      reads this
    {
      NetConfig(devices, ports, apps)
    }

    constructor ()
      ensures View() == NetConfig(map[], map[], map[])
    {
      devices, ports, apps := map[], map[], map[];
    }
  }

  class FabricScope {
    const fabricId: string
    const fabric: Fabric
    const netConfig: OnosNetConfig
    var sw: Option<Switch>
    var model: Option<SwitchModel>
    var chassis: Chassis

    constructor (fabricId: string, fabric: Fabric)
      ensures this.fabricId == fabricId && this.fabric == fabric
      ensures fresh(netConfig) && netConfig.View() == NetConfig(map[], map[], map[])
    {
      this.fabricId, this.fabric := fabricId, fabric;
      sw, model, chassis := None, None, EMPTY_CHASSIS;
      netConfig := new OnosNetConfig();
    }
  }

  const EMPTY_CHASSIS := Chassis("", "", [])

  /** lookupSwitchModel. */
  function LookupSwitchModel(fabric: Fabric, id: Option<string>): (model: Option<SwitchModel>)
    ensures forall sw: Switch | sw.modelId == id ::
              if ModelKnown(fabric, sw) then model == Some(ModelOf(fabric, sw)) else model.None?
  {
    if id.None? || id.value == "" then None
    else if id.value !in fabric.models then None
    else Some(fabric.models[id.value])
  }

  // ---------- ports ----------

  /** Adds the port to the Ports map, or leaves everything as it was if the cage or one of the VLANs
      is unknown. */
  method HandleSwitchPort(scope: FabricScope, p: Port) returns (ok: bool)
    requires scope.sw.Some? && scope.model.Some?
    modifies scope.netConfig
    ensures ok == PortEntry(scope.sw.value, scope.model.value, p).Some?
    ensures scope.netConfig.devices == old(scope.netConfig.devices)
    ensures scope.netConfig.apps == old(scope.netConfig.apps)
    ensures scope.netConfig.ports ==
            if ok then old(scope.netConfig.ports)[PortId(scope.sw.value.switchId, p.cage, p.channel)
                                                  := PortEntry(scope.sw.value, scope.model.value, p).value]
            else old(scope.netConfig.ports)
  {
    hide PortId, Subnets;
    var sw, model := scope.sw.value, scope.model.value;
    SubnetsDefined(sw.vlans, VlanIds(p));
    SubnetsOfNone(sw.vlans);
    if p.cage !in model.cages {
      return false;
    }
    var iface := Interface(p.displayName, [], 0, []);
    if p.vlans.Some? {
      var vlans := p.vlans.value;
      ghost var first := if vlans.untagged.Some? then [vlans.untagged.value] else [];
      assert VlanIds(p) == first + vlans.tagged;
      if vlans.untagged.Some? {
        var v := vlans.untagged.value;
        if v !in sw.vlans {
          assert v in VlanIds(p);
          return false;
        }
        iface := iface.(vlanUntagged := v, ips := iface.ips + sw.vlans[v]);
        SubnetsSnoc(sw.vlans, [], v);
        assert [] + [v] == first;
      }
      assert first + vlans.tagged[..0] == first;
      for i := 0 to |vlans.tagged|
        invariant unchanged(scope.netConfig)
        invariant Subnets(sw.vlans, first + vlans.tagged[..i]) == Some(iface.ips)
        invariant iface == Interface(p.displayName, iface.ips,
                                     if vlans.untagged.Some? then vlans.untagged.value else 0, vlans.tagged[..i])
      {
        var v := vlans.tagged[i];
        if v !in sw.vlans {
          assert v in VlanIds(p);
          return false;
        }
        SubnetsSnoc(sw.vlans, first + vlans.tagged[..i], v);
        assert first + vlans.tagged[..i] + [v] == first + vlans.tagged[..i + 1];
        assert vlans.tagged[..i] + [v] == vlans.tagged[..i + 1];
        iface := iface.(vlanTagged := iface.vlanTagged + [v], ips := iface.ips + sw.vlans[v]);
      }
      assert vlans.tagged[..|vlans.tagged|] == vlans.tagged;
    }
    var portID := PortId(sw.switchId, p.cage, p.channel);
    scope.netConfig.ports := scope.netConfig.ports[portID := OnosPort([iface])];
    ok := true;
  }

  lemma SubnetsOfNone(vlans: map<uint16, seq<string>>)
    ensures Subnets(vlans, []) == Some([])
  {
  }

  lemma SubnetsSnoc(vlans: map<uint16, seq<string>>, ids: seq<uint16>, v: uint16)
    requires Subnets(vlans, ids).Some? && v in vlans
    ensures Subnets(vlans, ids + [v]) == Some(Subnets(vlans, ids).value + vlans[v])
  {
    assert (ids + [v])[..|ids|] == ids;
  }

  predicate Translated(sw: Switch, model: SwitchModel, pk: PortKey, key: string) {
    pk in sw.ports && PortEntry(sw, model, sw.ports[pk]).Some? && KeyOf(sw, pk) == key
  }

  /** `base` with the visited ports of a switch added: among ports that share a key any one may have
      won, and a key that no visited port has keeps its old entry. */
  ghost predicate PortsMerged(base: map<string, OnosPort>, sw: Switch, model: SwitchModel,
                              visited: set<PortKey>, ports: map<string, OnosPort>) {
    && base.Keys <= ports.Keys
    && (forall pk, key | pk in visited && Translated(sw, model, pk, key) :: key in ports)
    && forall key | key in ports ::
         if exists pk :: pk in visited && Translated(sw, model, pk, key) then
           exists pk | pk in visited && Translated(sw, model, pk, key) ::
             ports[key] == PortEntry(sw, model, sw.ports[pk]).value
         else key in base && ports[key] == base[key]
  }

  lemma MergeOne(base: map<string, OnosPort>, sw: Switch, model: SwitchModel, visited: set<PortKey>,
                 ports: map<string, OnosPort>, pk: PortKey, ports': map<string, OnosPort>)
    requires PortsMerged(base, sw, model, visited, ports) && pk in sw.ports
    requires ports' == if PortEntry(sw, model, sw.ports[pk]).Some?
                       then ports[KeyOf(sw, pk) := PortEntry(sw, model, sw.ports[pk]).value] else ports
    ensures PortsMerged(base, sw, model, visited + {pk}, ports')
  {
    hide PortEntry, PortId;
    var visited' := visited + {pk};
    forall key | key in ports'
      ensures if exists q :: q in visited' && Translated(sw, model, q, key) then
                exists q | q in visited' && Translated(sw, model, q, key) ::
                  ports'[key] == PortEntry(sw, model, sw.ports[q]).value
              else key in base && ports'[key] == base[key]
    {
      if Translated(sw, model, pk, key) {
        assert pk in visited';
      } else if q :| q in visited' && Translated(sw, model, q, key) {
        assert q in visited;
        var w :| w in visited && Translated(sw, model, w, key) && ports[key] == PortEntry(sw, model, sw.ports[w]).value;
        assert w in visited';
      }
    }
  }

  method HandleSwitchPorts(scope: FabricScope)
    requires scope.sw.Some? && scope.model.Some?
    modifies scope.netConfig
    ensures scope.netConfig.devices == old(scope.netConfig.devices)
    ensures scope.netConfig.apps == old(scope.netConfig.apps)
    ensures PortsMerged(old(scope.netConfig.ports), scope.sw.value, scope.model.value,
                        scope.sw.value.ports.Keys, scope.netConfig.ports)
  {
    var sw := scope.sw.value;
    var todo := sw.ports.Keys;
    while todo != {}
      invariant todo <= sw.ports.Keys
      invariant scope.netConfig.devices == old(scope.netConfig.devices)
      invariant scope.netConfig.apps == old(scope.netConfig.apps)
      invariant PortsMerged(old(scope.netConfig.ports), sw, scope.model.value,
                            sw.ports.Keys - todo, scope.netConfig.ports)
    {
      var pk :| pk in todo;
      ghost var before := scope.netConfig.ports;
      var ok := HandleSwitchPort(scope, sw.ports[pk]);
      MergeOne(old(scope.netConfig.ports), sw, scope.model.value, sw.ports.Keys - todo, before, pk,
               scope.netConfig.ports);
      assert sw.ports.Keys - todo + {pk} == sw.ports.Keys - (todo - {pk});
      todo := todo - {pk};
    }
    assert sw.ports.Keys - todo == sw.ports.Keys;
  }

  // ---------- switches ----------

  datatype SwitchResult = Done | NoManagement | NoDriver | NoSid | NoMac | NoPipeconf | NoRouterMac {
    predicate DrewAddresses() { !NoManagement? && !NoDriver? && !NoSid? }
  }

  /** When each result is given, as far as the switch and the counter of synthetic addresses decide
      it: the SID store alone decides between `NoSid` and what comes after it. */
  predicate ResultFits(sw: Switch, literal: bool, next: uint32, r: SwitchResult) {
    var draw := DrawFor(next, literal, Present(sw.attributes, "pipeconf"));
    match r
    case NoManagement => !Managed(sw)
    case NoDriver => Managed(sw) && !Present(sw.attributes, "driver")
    case NoSid => Managed(sw) && Present(sw.attributes, "driver")
    case NoMac => Managed(sw) && Present(sw.attributes, "driver") && !literal && next > 255
    case NoPipeconf => Managed(sw) && Present(sw.attributes, "driver") && !Present(sw.attributes, "pipeconf")
                       && (literal || next <= 255)
    case NoRouterMac => Complete(sw) && !literal && next == 255
    case Done => Complete(sw) && (literal || draw.issued.Some?)
  }

  lemma SmallAdvance(n: uint32)
    ensures n <= 255 ==>
              Advance(n, 1) == n + 1 && Advance(n + 1, 1) == n + 2 && Advance(n + 2, 1) == n + 3
              && Advance(n, 2) == n + 2 && Advance(n, 3) == n + 3
    ensures Advance(n, 0) == n
  {
  }

  /** The loopback and router MAC of a switch. The MAC of the management address is computed first
      and only decides whether to go on; both values returned come from the second address drawn. */
  method SwitchAddresses(ip: string -> Option<Ip>, pool: LoopbackPool, sw: Switch)
      returns (r: SwitchResult, loopback: string, mac: string)
    requires Conforms(ip) && Managed(sw) && Present(sw.attributes, "driver") && sw.switchId != "" && pool.Valid()
    modifies pool
    ensures r.DrewAddresses() && pool.Valid() && old(pool.drawn) <= pool.drawn
    ensures r.NoMac? || r.NoRouterMac? ==> ip(Address(sw)).None? && pool.drawn > 256
    ensures ResultFits(sw, ip(Address(sw)).Some?, old(pool.nextIP), r)
    ensures var draw := DrawFor(old(pool.nextIP), ip(Address(sw)).Some?, Present(sw.attributes, "pipeconf"));
            && pool.drawn == old(pool.drawn) + draw.uses
            && (r.Done? ==>
                  && ip(loopback).Some? && mac == MacOf(LastFour(ip(loopback).value))
                  && loopback == if ip(Address(sw)).Some? then Address(sw) else Synthetic(draw.issued.value))
  {
    hide MacOf, Synthetic, Advance;
    ghost var n := pool.nextIP;
    SmallAdvance(n);
    r, loopback, mac := Done, "", "";
    var first := pool.AddressToMac(ip, Address(sw));
    if first.None? {
      return NoMac, "", "";
    }
    if "pipeconf" !in sw.attributes || sw.attributes["pipeconf"] == "" {
      return NoPipeconf, "", "";
    }
    loopback := pool.ManagementAddressToIP(ip, Address(sw));
    if ip(Address(sw)).None? {
      assert n <= 255 && pool.nextIP == n + 2 && loopback == Synthetic(n + 1);
    }
    var second := pool.AddressToMac(ip, loopback);
    if second.None? {
      return NoRouterMac, loopback, "";
    }
    mac := second.value;
  }

  /** Adds the device of a switch and its ports. A switch that cannot become a device leaves the
      netconfig exactly as it was. */
  method HandleSwitch(ip: string -> Option<Ip>, store: SIDAtomixStore, pool: LoopbackPool, scope: FabricScope)
      returns (r: SwitchResult, ghost d: Option<Device>)
    requires Conforms(ip) && store.Valid() && pool.Valid() && scope.sw.Some? && scope.model.Some?
    modifies store, pool, scope.netConfig
    ensures store.Valid() && Extends(old(store.Sids()), store.Sids()) && (d.Some? <==> r.Done?)
    ensures pool.Valid() && old(pool.drawn) <= pool.drawn
    ensures var sw := scope.sw.value;
            var fetched := Fetch(store.ends, old(store.Contents()), sw.switchId);
            if Managed(sw) && Present(sw.attributes, "driver") then
              && store.Contents() == fetched.0
              && (r.NoSid? <==> fetched.1.None?) && (r.Done? ==> fetched.1 == Some(d.value.sid))
            else store.Contents() == old(store.Contents())
    ensures r.NoMac? || r.NoRouterMac? ==> HostName(ip, scope.sw.value) && pool.drawn > 256
    ensures var sw := scope.sw.value;
            ResultFits(sw, Managed(sw) && ip(Address(sw)).Some?, old(pool.nextIP), r)
    ensures r.DrewAddresses() ==> scope.sw.value.switchId != ""
    ensures var sw := scope.sw.value;
            pool.drawn == old(pool.drawn) + if r.DrewAddresses()
                                            then DrawFor(old(pool.nextIP), ip(Address(sw)).Some?,
                                                         Present(sw.attributes, "pipeconf")).uses
                                            else 0
    ensures !r.Done? ==> scope.netConfig.View() == old(scope.netConfig.View())
    ensures r.Done? ==>
              var sw := scope.sw.value;
              && DeviceOf(ip, sw, store.Sids(), d.value)
              && scope.netConfig.devices == old(scope.netConfig.devices)[DeviceKey(sw) := d.value]
              && scope.netConfig.apps == old(scope.netConfig.apps)
              && PortsMerged(old(scope.netConfig.ports), sw, scope.model.value, sw.ports.Keys, scope.netConfig.ports)
              && (ip(Address(sw)).None? ==>
                    d.value.loopback == Synthetic(DrawFor(old(pool.nextIP), false, true).issued.value))
  {
    hide Exec, View, PortsMerged, MacOf, GrpcEndpoint, Synthetic, Fetch, Extends, DrawFor, WellFormed, DeviceOf, PairOf;
    var sw := scope.sw.value;
    d := None;
    ExtendsItself(store.Sids());
    if sw.management.None? || sw.management.value.address.None? || sw.management.value.port.None? {
      return NoManagement, None;
    }
    var address, port := sw.management.value.address.value, sw.management.value.port.value;
    if "driver" !in sw.attributes || sw.attributes["driver"] == "" {
      return NoDriver, None;
    }
    var got, sid, steps := store.Get(sw.switchId);
    if !got {
      return NoSid, None;
    }
    var loopback, mac;
    r, loopback, mac := SwitchAddresses(ip, pool, sw);
    if !r.Done? {
      return r, None;
    }
    var device := Device(sid, loopback, mac, sw.role != Spine, "", 0, sw.displayName, GrpcEndpoint(address, port),
                         sw.attributes["driver"], sw.attributes["pipeconf"]);
    device := AddDevice(scope, device);
    DeviceRight(ip, sw, store.Sids(), loopback, DrawFor(old(pool.nextIP), ip(Address(sw)).Some?, true).issued, device);
    return Done, Some(device);
  }

  lemma DeviceRight(ip: string -> Option<Ip>, sw: Switch, sids: map<string, uint32>, loopback: string,
                    issued: Option<nat>, d: Device)
    requires Complete(sw) && sw.switchId in sids && ip(loopback).Some?
    requires if ip(Address(sw)).Some? then loopback == Address(sw)
             else issued.Some? && issued.value <= 255 && loopback == Synthetic(issued.value)
    requires d == Device(sids[sw.switchId], loopback, MacOf(LastFour(ip(loopback).value)), sw.role != Spine,
                         PairOf(sw).0, PairOf(sw).1, sw.displayName,
                         GrpcEndpoint(Address(sw), sw.management.value.port.value),
                         sw.attributes["driver"], sw.attributes["pipeconf"])
    ensures DeviceOf(ip, sw, sids, d)
  {
    hide MacOf, GrpcEndpoint, Synthetic, PairOf;
  }

  /** Enters the device of a switch and its ports, and then pairs it. */
  method AddDevice(scope: FabricScope, device: Device) returns (paired: Device)
    requires scope.sw.Some? && scope.model.Some? && device.pairDevice == "" && device.pairLocalPort == 0
    modifies scope.netConfig
    ensures var sw := scope.sw.value;
            && paired == device.(pairDevice := PairOf(sw).0, pairLocalPort := PairOf(sw).1)
            && scope.netConfig.devices == old(scope.netConfig.devices)[DeviceKey(sw) := paired]
            && scope.netConfig.apps == old(scope.netConfig.apps)
            && PortsMerged(old(scope.netConfig.ports), sw, scope.model.value, sw.ports.Keys, scope.netConfig.ports)
  {
    hide PortsMerged;
    var sw := scope.sw.value;
    paired := device;
    scope.netConfig.devices := scope.netConfig.devices["device:" + sw.switchId := device];
    HandleSwitchPorts(scope);
    if sw.pair.Some? && sw.pair.value.pairedSwitch.Some? {
      if |sw.pair.value.pairingPorts| == 1 {
        var pairing := sw.pair.value.pairingPorts[0];
        paired := device.(pairDevice := sw.switchId, pairLocalPort := PortNumber(pairing.cage, pairing.channel));
        scope.netConfig.devices := scope.netConfig.devices["device:" + sw.switchId := paired];
      }
    }
  }

  /** Appends a valid route to the routes of the route application, which is created when the first
      one arrives; an invalid route changes nothing. */
  method HandleRoute(scope: FabricScope, route: Route) returns (ok: bool)
    modifies scope.netConfig
    ensures ok == ValidRoute(route)
    ensures scope.netConfig.devices == old(scope.netConfig.devices)
    ensures scope.netConfig.ports == old(scope.netConfig.ports)
    ensures scope.netConfig.apps ==
            var apps := old(scope.netConfig.apps);
            if !ok then apps
            else apps[ROUTE_APP := (if ROUTE_APP in apps then apps[ROUTE_APP] else [])
                                   + [OnosRoute(route.prefix.value, route.address.value)]]
  {
    if route.prefix.None? || route.prefix.value == "" {
      return false;
    }
    if route.address.None? || route.address.value == "" {
      return false;
    }
    var oRoute := OnosRoute(route.prefix.value, route.address.value);
    var routes := [];
    if ROUTE_APP in scope.netConfig.apps {
      routes := scope.netConfig.apps[ROUTE_APP];
    }
    scope.netConfig.apps := scope.netConfig.apps[ROUTE_APP := routes + [oRoute]];
    ok := true;
  }

  lemma AppsGrow(routes: seq<OnosRoute>, r: OnosRoute)
    ensures AppsWith(routes + [r]) ==
            var apps := AppsWith(routes);
            apps[ROUTE_APP := (if ROUTE_APP in apps then apps[ROUTE_APP] else []) + [r]]
  {
  }

  method HandleRoutes(scope: FabricScope)
    requires scope.netConfig.apps == map[]
    modifies scope.netConfig
    ensures scope.netConfig.devices == old(scope.netConfig.devices)
    ensures scope.netConfig.ports == old(scope.netConfig.ports)
    ensures AppsFrom(scope.fabric, scope.netConfig.apps)
  {
    var fabric := scope.fabric;
    var todo := fabric.routes.Keys;
    ghost var order: seq<string> := [];
    while todo != {}
      invariant todo <= fabric.routes.Keys && Visits(order, fabric.routes.Keys - todo)
      invariant scope.netConfig.devices == old(scope.netConfig.devices)
      invariant scope.netConfig.ports == old(scope.netConfig.ports)
      invariant scope.netConfig.apps == AppsWith(Emit(RouteEntries(fabric), order))
    {
      var r :| r in todo;
      var ok := HandleRoute(scope, fabric.routes[r]);
      EmitAppend(RouteEntries(fabric), order, r);
      assert ok <==> r in RouteEntries(fabric);
      if ok { AppsGrow(Emit(RouteEntries(fabric), order), RouteEntries(fabric)[r]); }
      assert Emit(RouteEntries(fabric), order) + [] == Emit(RouteEntries(fabric), order);
      order := order + [r];
      todo := todo - {r};
    }
  }

  // ---------- the netconfig of a fabric ----------

  lemma DevicesLater(ip: string -> Option<Ip>, fabric: Fabric, done: set<string>, sids: map<string, uint32>,
                     devices: map<string, Device>, numbers: map<string, nat>, sids': map<string, uint32>)
    requires DevicesDrawn(ip, fabric, done, sids, devices, numbers) && Extends(sids, sids')
    ensures DevicesDrawn(ip, fabric, done, sids', devices, numbers)
  {
    hide DeviceOf, Extends;
    forall key | key in devices
      ensures exists j | j in done ::
                DeviceKey(fabric.switches[j]) == key
                && DeviceDrawn(ip, fabric.switches[j], sids', devices[key], j, numbers)
    {
      var j :| j in done && DeviceKey(fabric.switches[j]) == key
               && DeviceDrawn(ip, fabric.switches[j], sids, devices[key], j, numbers);
      DeviceLater(ip, fabric.switches[j], sids, sids', devices[key]);
    }
  }

  lemma DevicesAfter(ip: string -> Option<Ip>, fabric: Fabric, done: set<string>, sids: map<string, uint32>,
                     devices: map<string, Device>, numbers: map<string, nat>, k: string, d: Device,
                     numbers': map<string, nat>)
    requires DevicesDrawn(ip, fabric, done, sids, devices, numbers) && k !in done
    requires k in fabric.switches && DeviceDrawn(ip, fabric.switches[k], sids, d, k, numbers')
    requires forall j | j in done :: j in numbers' <==> j in numbers
    requires forall j | j in done && j in numbers :: numbers'[j] == numbers[j]
    ensures DevicesDrawn(ip, fabric, done + {k}, sids, devices[DeviceKey(fabric.switches[k]) := d], numbers')
  {
    hide DeviceOf, Loopback;
    var devices' := devices[DeviceKey(fabric.switches[k]) := d];
    forall key | key in devices'
      ensures exists j | j in done + {k} ::
                DeviceKey(fabric.switches[j]) == key
                && DeviceDrawn(ip, fabric.switches[j], sids, devices'[key], j, numbers')
    {
      if key == DeviceKey(fabric.switches[k]) {
        assert k in done + {k};
      } else {
        var j :| j in done && DeviceKey(fabric.switches[j]) == key
                 && DeviceDrawn(ip, fabric.switches[j], sids, devices[key], j, numbers);
        assert j in done + {k} && DeviceDrawn(ip, fabric.switches[j], sids, devices'[key], j, numbers');
      }
    }
  }

  lemma PortsAfter(fabric: Fabric, done: set<string>, base: map<string, OnosPort>, k: string,
                   ports: map<string, OnosPort>)
    requires PortsFrom(fabric, done, base) && k in KnownSwitches(fabric)
    requires var sw := fabric.switches[k];
             PortsMerged(base, sw, ModelOf(fabric, sw), sw.ports.Keys, ports)
    ensures PortsFrom(fabric, done + {k}, ports)
  {
    hide PortEntry, PortId;
    var sw := fabric.switches[k];
    var model := ModelOf(fabric, sw);
    assert forall pk, key :: Translated(sw, model, pk, key) <==> Contributes(fabric, k, pk, key);
    forall j, pk, key | j in done + {k} && Contributes(fabric, j, pk, key)
      ensures key in ports
    {
      if j == k { assert pk in sw.ports.Keys && Translated(sw, model, pk, key); }
    }
    forall key | key in ports
      ensures exists j, pk | j in done + {k} && Contributes(fabric, j, pk, key) ::
                ports[key] == Contribution(fabric, j, pk, key)
    {
      if q :| q in sw.ports.Keys && Translated(sw, model, q, key) {
        var pk :| pk in sw.ports.Keys && Translated(sw, model, pk, key)
            && ports[key] == PortEntry(sw, model, sw.ports[pk]).value;
        assert k in done + {k} && Contributes(fabric, k, pk, key);
        assert ports[key] == Contribution(fabric, k, pk, key);
      } else {
        var j, pk :| j in done && Contributes(fabric, j, pk, key) && base[key] == Contribution(fabric, j, pk, key);
        assert j in done + {k};
      }
    }
  }

  /** What asking for the SIDs of some switches leaves behind at the store, and for which of them it
      answered. */
  datatype Asked = Asked(store: Shared, answered: set<string>)

  function AskNext(ends: nat -> Effect, fabric: Fabric, a: Asked, k: string): Asked {
    if !Asks(fabric, k) then a
    else
      var fetched := Fetch(ends, a.store, fabric.switches[k].switchId);
      Asked(fetched.0, if fetched.1.Some? then a.answered + {k} else a.answered)
  }

  function AskAll(ends: nat -> Effect, fabric: Fabric, order: seq<string>, s: Shared): Asked {
    if order == [] then Asked(s, {})
    else AskNext(ends, fabric, AskAll(ends, fabric, order[..|order| - 1], s), Last(order))
  }

  lemma AskAllSnoc(ends: nat -> Effect, fabric: Fabric, order: seq<string>, s: Shared, k: string)
    ensures AskAll(ends, fabric, order + [k], s) == AskNext(ends, fabric, AskAll(ends, fabric, order, s), k)
  {
    assert (order + [k])[..|order|] == order;
  }

  /** Only switches that are asked for are answered, and all of them are if every operation of the store
      succeeds. */
  lemma {:induction false} AllAnswered(ends: nat -> Effect, fabric: Fabric, order: seq<string>, s: Shared)
    ensures var a := AskAll(ends, fabric, order, s);
            && s.operations <= a.store.operations
            && (forall k | k in a.answered :: k in order && Asks(fabric, k) && fabric.switches[k].switchId != "")
            && ((forall i | s.operations <= i < a.store.operations :: ends(i).Reported()) ==>
                  forall k | k in order && Asks(fabric, k) && fabric.switches[k].switchId != "" :: k in a.answered)
  {
    hide Fetch, Asks;
    if order != [] {
      var front := order[..|order| - 1];
      AllAnswered(ends, fabric, front, s);
      assert order == front + [Last(order)];
      if Asks(fabric, Last(order)) {
        assert Last(order) in fabric.switches by { AsksKnown(fabric, Last(order)); }
        FetchAnswers(ends, AskAll(ends, fabric, front, s).store, fabric.switches[Last(order)].switchId);
      }
    }
  }

  lemma AsksKnown(fabric: Fabric, k: string)
    requires Asks(fabric, k)
    ensures k in fabric.switches
  {
  }

  /** What has been built once the switches in `visited` have been handled. `answered` are those for
      which the SID store answered. */
  ghost predicate BuiltSoFar(ip: string -> Option<Ip>, fabric: Fabric, visited: seq<string>, answered: set<string>,
                             first: nat, d: Draws, sids: map<string, uint32>, nc: NetConfig) {
    && nc.apps == map[]
    && d == DrawAll(ip, fabric, answered, visited, first)
    && (forall k | k in answered :: k in visited)
    && (forall k | k in d.done || k in d.numbers :: k in visited)
    && DevicesDrawn(ip, fabric, d.done, sids, nc.devices, d.numbers)
    && PortsFrom(fabric, d.done, nc.ports)
  }

  lemma BuiltNothing(ip: string -> Option<Ip>, fabric: Fabric, first: nat, sids: map<string, uint32>)
    ensures BuiltSoFar(ip, fabric, [], {}, first, Draws({}, map[], first), sids, NetConfig(map[], map[], map[]))
  {
  }

  lemma NoRoutesYet(ip: string -> Option<Ip>, fabric: Fabric, visited: seq<string>, answered: set<string>,
                    first: nat, d: Draws, sids: map<string, uint32>, nc: NetConfig)
    requires BuiltSoFar(ip, fabric, visited, answered, first, d, sids, nc)
    ensures nc.apps == map[]
  {
  }

  lemma BuiltAll(ip: string -> Option<Ip>, fabric: Fabric, visited: seq<string>, answered: set<string>,
                 first: nat, d: Draws, sids: map<string, uint32>, nc: NetConfig,
                 nc': NetConfig)
    requires BuiltSoFar(ip, fabric, visited, answered, first, d, sids, nc) && SwitchOrder(fabric, visited)
    requires nc'.devices == nc.devices && nc'.ports == nc.ports && AppsFrom(fabric, nc'.apps)
    ensures d == DrawAll(ip, fabric, answered, visited, first)
    ensures BuiltBetween(ip, fabric, d.done, sids, nc', first, d.next)
    ensures DevicesDrawn(ip, fabric, d.done, sids, nc'.devices, d.numbers)
    ensures DistinctWithin(d.numbers, first, d.next)
    ensures d.next <= TWO_32 ==> |d.numbers| + Remaining(d.next) <= Remaining(first)
    ensures Excused(ip, fabric, Eligible(fabric) - d.done, answered, d.next)
  {
    SwitchOrderVisits(fabric, visited);
    hide DevicesFrom, DevicesDrawn, PortsFrom, AppsFrom, DrawAll, DistinctWithin, Remaining, Visits, Eligible, Asks,
         SwitchOrder, HostName, Excused;
    DrawnAll(ip, fabric, answered, visited, first);
    DrawnMeansFrom(ip, fabric, d.done, sids, nc.devices, d.numbers);
    assert DrawnAs(ip, fabric, d.done, sids, nc'.devices, first, d.next, answered, visited);
    ExcusedAll(ip, fabric, visited, answered, d);
  }

  lemma ExcusedAll(ip: string -> Option<Ip>, fabric: Fabric, visited: seq<string>, answered: set<string>, d: Draws)
    requires SwitchOrder(fabric, visited) && DrawnFor(ip, fabric, answered, visited, d)
    ensures Excused(ip, fabric, Eligible(fabric) - d.done, answered, d.next)
  {
    hide HostName;
    forall k | k in Eligible(fabric) - d.done
      ensures k in fabric.switches
      ensures k !in answered || (HostName(ip, fabric.switches[k]) && d.next > 256)
    {
      assert k in visited;
    }
  }

  lemma BuiltWith(ip: string -> Option<Ip>, fabric: Fabric, visited: seq<string>, answered: set<string>, first: nat,
                  d: Draws, sids: map<string, uint32>, nc: NetConfig,
                  k: string, device: Device, sids': map<string, uint32>, nc': NetConfig, d': Draws)
    requires BuiltSoFar(ip, fabric, visited, answered, first, d, sids, nc) && Extends(sids, sids')
    requires k in Eligible(fabric) && k !in visited && DeviceOf(ip, fabric.switches[k], sids', device)
    requires nc'.devices == nc.devices[DeviceKey(fabric.switches[k]) := device] && nc'.apps == nc.apps
    requires PortsMerged(nc.ports, fabric.switches[k], ModelOf(fabric, fabric.switches[k]),
                         fabric.switches[k].ports.Keys, nc'.ports)
    requires d' == DrawNext(ip, fabric, answered + {k}, d, k) && d'.done == d.done + {k}
    requires d'.numbers == if HostName(ip, fabric.switches[k]) then d.numbers[k := d.next + 1] else d.numbers
    requires HostName(ip, fabric.switches[k]) ==> device.loopback == Loopback(d.next + 1)
    ensures BuiltSoFar(ip, fabric, visited + [k], answered + {k}, first, d', sids', nc')
  {
    hide DevicesDrawn, PortsFrom, PortsMerged, DeviceOf, Loopback, Extends, Complete, DrawNext, DrawAll;
    DevicesLater(ip, fabric, d.done, sids, nc.devices, d.numbers, sids');
    DevicesAfter(ip, fabric, d.done, sids', nc.devices, d.numbers, k, device, d'.numbers);
    PortsAfter(fabric, d.done, nc.ports, k, nc'.ports);
    AnsweredElsewhere(ip, fabric, answered, visited, first, k);
    DrawAllSnoc(ip, fabric, answered + {k}, visited, first, k);
  }

  lemma BuiltWithout(ip: string -> Option<Ip>, fabric: Fabric, visited: seq<string>, answered: set<string>, first: nat,
                     d: Draws, sids: map<string, uint32>, nc: NetConfig,
                     k: string, sids': map<string, uint32>, answered': set<string>, d': Draws)
    requires BuiltSoFar(ip, fabric, visited, answered, first, d, sids, nc) && Extends(sids, sids')
    requires k !in visited && (answered' == answered || answered' == answered + {k})
    requires d' == DrawNext(ip, fabric, answered', d, k) && d'.done == d.done && d'.numbers == d.numbers
    ensures BuiltSoFar(ip, fabric, visited + [k], answered', first, d', sids', nc)
  {
    hide DevicesDrawn, PortsFrom, Extends, DrawNext, DrawAll;
    DevicesLater(ip, fabric, d.done, sids, nc.devices, d.numbers, sids');
    AnsweredElsewhere(ip, fabric, answered, visited, first, k);
    DrawAllSnoc(ip, fabric, answered', visited, first, k);
  }

  /** What handling a switch draws is what the model says. */
  lemma DrawFits(ip: string -> Option<Ip>, fabric: Fabric, answered: set<string>, d: Draws, k: string,
                 r: SwitchResult)
    requires k in fabric.switches && ModelKnown(fabric, fabric.switches[k])
    requires var sw := fabric.switches[k];
             ResultFits(sw, Managed(sw) && ip(Address(sw)).Some?, d.next % TWO_32, r)
    requires r.DrewAddresses() <==> k in answered
    requires r.DrewAddresses() ==> fabric.switches[k].switchId != ""
    ensures var d', sw := DrawNext(ip, fabric, answered, d, k), fabric.switches[k];
            && (d'.next == d.next + if r.DrewAddresses()
                                    then DrawFor(d.next % TWO_32, ip(Address(sw)).Some?,
                                                 Present(sw.attributes, "pipeconf")).uses
                                    else 0)
            && (if r.Done?
                then k in Eligible(fabric) && d'.done == d.done + {k}
                     && d'.numbers == if HostName(ip, sw) then d.numbers[k := d.next + 1] else d.numbers
                else d'.done == d.done && d'.numbers == d.numbers)
            && (r.Done? && HostName(ip, sw) ==>
                  Synthetic(DrawFor(d.next % TWO_32, false, true).issued.value) == Loopback(d.next + 1))
  {
    hide Synthetic;
  }

  /** One switch of the loop: looks up its model and handles it, and skips it if either fails. */
  method BuildSwitch(ip: string -> Option<Ip>, store: SIDAtomixStore, pool: LoopbackPool, scope: FabricScope,
                     k: string, ghost visited: seq<string>, ghost asked: Shared, ghost answered: set<string>,
                     ghost first: nat, ghost d: Draws)
      returns (ghost answered': set<string>, ghost d': Draws)
    requires Conforms(ip) && store.Valid() && pool.Valid() && k in scope.fabric.switches && k !in visited
    requires Asked(store.Contents(), answered) == AskAll(store.ends, scope.fabric, visited, asked)
    requires d.next == pool.drawn
    requires BuiltSoFar(ip, scope.fabric, visited, answered, first, d, store.Sids(), scope.netConfig.View())
    modifies store, pool, scope, scope.netConfig
    ensures store.Valid() && Extends(old(store.Sids()), store.Sids())
    ensures pool.Valid() && d'.next == pool.drawn
    ensures Asked(store.Contents(), answered') == AskAll(store.ends, scope.fabric, visited + [k], asked)
    ensures BuiltSoFar(ip, scope.fabric, visited + [k], answered', first, d', store.Sids(), scope.netConfig.View())
  {
    hide PortsMerged, DeviceOf, Synthetic, Loopback, View, DeviceKey, Conforms, ResultFits, DrawFor, Complete,
         Extends, BuiltSoFar, DrawNext, Eligible, Fetch, AskAll, AskNext;
    var fabric := scope.fabric;
    var sw := fabric.switches[k];
    answered', d' := answered, d;
    scope.sw := Some(sw);
    ghost var sids, nc, before := store.Sids(), scope.netConfig.View(), Asked(store.Contents(), answered);
    ExtendsItself(sids);
    AskAllSnoc(store.ends, fabric, visited, asked, k);
    scope.model := LookupSwitchModel(fabric, sw.modelId);
    if scope.model.None? {
      NotAsked(ip, store.ends, fabric, before, d, k);
      BuiltWithout(ip, fabric, visited, answered, first, d, sids, nc, k, sids, answered, d);
      return;
    }
    var r, device := HandleSwitch(ip, store, pool, scope);
    AskFits(store.ends, fabric, before, k, store.Contents(), Managed(sw) && ip(Address(sw)).Some?, d.next % TWO_32, r);
    answered' := if r.DrewAddresses() then answered + {k} else answered;
    NotYetAnswered(ip, fabric, visited, answered, first, d, sids, nc, k);
    d' := DrawNext(ip, fabric, answered', d, k);
    DrawFits(ip, fabric, answered', d, k, r);
    if r.Done? {
      BuiltWith(ip, fabric, visited, answered, first, d, sids, nc, k, device.value, store.Sids(),
                scope.netConfig.View(), d');
    } else {
      BuiltWithout(ip, fabric, visited, answered, first, d, sids, nc, k, store.Sids(), answered', d');
    }
  }

  /** Handling a switch asks the store as the model says. */
  lemma AskFits(ends: nat -> Effect, fabric: Fabric, a: Asked, k: string, after: Shared, literal: bool, next: uint32,
                r: SwitchResult)
    requires k in fabric.switches && ModelKnown(fabric, fabric.switches[k])
    requires ResultFits(fabric.switches[k], literal, next, r)
    requires var sw := fabric.switches[k];
             if Managed(sw) && Present(sw.attributes, "driver") then
               after == Fetch(ends, a.store, sw.switchId).0
               && (r.NoSid? <==> Fetch(ends, a.store, sw.switchId).1.None?)
             else after == a.store
    ensures AskNext(ends, fabric, a, k) == Asked(after, if r.DrewAddresses() then a.answered + {k} else a.answered)
  {
    hide Fetch;
  }

  lemma NotAsked(ip: string -> Option<Ip>, ends: nat -> Effect, fabric: Fabric, a: Asked, d: Draws, k: string)
    requires k in fabric.switches && !ModelKnown(fabric, fabric.switches[k])
    ensures AskNext(ends, fabric, a, k) == a && DrawNext(ip, fabric, a.answered, d, k) == d
  {
  }

  lemma NotYetAnswered(ip: string -> Option<Ip>, fabric: Fabric, visited: seq<string>, answered: set<string>,
                       first: nat, d: Draws, sids: map<string, uint32>, nc: NetConfig, k: string)
    requires BuiltSoFar(ip, fabric, visited, answered, first, d, sids, nc) && k !in visited
    ensures k !in answered
  {
    hide DevicesDrawn, PortsFrom;
  }

  /** The switches in sorted order, then the routes: the first half of SynchronizeFabricToOnos. What it
      asks of the SID store and what it draws is what the model says, and `drawn` are the numbers given to
      the devices with host names: no number twice, whatever was drawn before, and at most 128 until the
      counter wraps. A switch that should have become a device and did not was either not answered for by
      the store or came too late for a synthetic address. */
  method BuildNetConfig(ip: string -> Option<Ip>, store: SIDAtomixStore, pool: LoopbackPool, scope: FabricScope)
      returns (ghost done: set<string>, ghost drawn: map<string, nat>, ghost order: seq<string>,
               ghost answered: set<string>)
    requires Conforms(ip) && store.Valid() && pool.Valid()
    requires scope.netConfig.View() == NetConfig(map[], map[], map[])
    modifies store, pool, scope, scope.netConfig
    ensures store.Valid() && Extends(old(store.Sids()), store.Sids()) && pool.Valid()
    ensures SwitchOrder(scope.fabric, order)
    ensures AskAll(store.ends, scope.fabric, order, old(store.Contents())) == Asked(store.Contents(), answered)
    ensures done == DrawAll(ip, scope.fabric, answered, order, old(pool.drawn)).done
    ensures BuiltBetween(ip, scope.fabric, done, store.Sids(), scope.netConfig.View(), old(pool.drawn), pool.drawn)
    ensures DevicesDrawn(ip, scope.fabric, done, store.Sids(), scope.netConfig.devices, drawn)
    ensures DistinctWithin(drawn, old(pool.drawn), pool.drawn)
    ensures pool.drawn <= TWO_32 ==> |drawn| + Remaining(pool.drawn) <= Remaining(old(pool.drawn)) <= 128
    ensures Excused(ip, scope.fabric, Eligible(scope.fabric) - done, answered, pool.drawn)
  {
    hide BuiltSoFar, BuiltBetween, DevicesDrawn, DistinctWithin, AppsFrom, Conforms, View, WellFormed, Excused,
         SwitchOrder, Extends, Eligible, AskAll, DrawAll;
    ghost var d;
    order, answered, d := BuildDevices(ip, store, pool, scope);
    ghost var nc := scope.netConfig.View();
    NoRoutesYet(ip, scope.fabric, order, answered, old(pool.drawn), d, store.Sids(), nc);
    HandleRoutes(scope);
    BuiltAll(ip, scope.fabric, order, answered, old(pool.drawn), d, store.Sids(), nc, scope.netConfig.View());
    done, drawn := d.done, d.numbers;
  }

  /** The devices and their ports. */
  method BuildDevices(ip: string -> Option<Ip>, store: SIDAtomixStore, pool: LoopbackPool, scope: FabricScope)
      returns (ghost visited: seq<string>, ghost answered: set<string>, ghost d: Draws)
    requires Conforms(ip) && store.Valid() && pool.Valid()
    requires scope.netConfig.View() == NetConfig(map[], map[], map[])
    modifies store, pool, scope, scope.netConfig
    ensures store.Valid() && Extends(old(store.Sids()), store.Sids())
    ensures pool.Valid() && d.next == pool.drawn
    ensures SwitchOrder(scope.fabric, visited)
    ensures AskAll(store.ends, scope.fabric, visited, old(store.Contents())) == Asked(store.Contents(), answered)
    ensures BuiltSoFar(ip, scope.fabric, visited, answered, old(pool.drawn), d, store.Sids(), scope.netConfig.View())
  {
    hide BuiltSoFar, Conforms, View, WellFormed, Extends, Visits, AskAll;
    var fabric := scope.fabric;
    var switchIDKeys := SortedKeys(fabric.switches.Keys);
    SwitchOrderVisits(fabric, switchIDKeys);
    hide Sorted;
    ghost var first, sids, asked := pool.drawn, store.Sids(), store.Contents();
    visited, answered, d := [], {}, Draws({}, map[], first);
    ExtendsItself(sids);
    AskNobody(store.ends, fabric, asked);
    BuiltNothing(ip, fabric, first, sids);
    for i := 0 to |switchIDKeys|
      invariant store.Valid() && Extends(sids, store.Sids()) && visited == switchIDKeys[..i]
      invariant pool.Valid() && d.next == pool.drawn
      invariant AskAll(store.ends, fabric, visited, asked) == Asked(store.Contents(), answered)
      invariant BuiltSoFar(ip, fabric, visited, answered, first, d, store.Sids(), scope.netConfig.View())
    {
      var k := switchIDKeys[i];
      ghost var between := store.Sids();
      NotVisited(switchIDKeys, fabric.switches.Keys, i);
      answered, d := BuildSwitch(ip, store, pool, scope, k, visited, asked, answered, first, d);
      ExtendsOn(sids, between, store.Sids());
      visited := visited + [k];
    }
  }

  lemma AskNobody(ends: nat -> Effect, fabric: Fabric, s: Shared)
    ensures AskAll(ends, fabric, [], s) == Asked(s, {})
  {
  }

  lemma NotVisited(s: seq<string>, keys: set<string>, i: nat)
    requires Visits(s, keys) && i < |s|
    ensures s[i] in keys && s[i] !in s[..i]
  {
  }

  /** The SID store did not answer for any of these switches, except for some that have a host name, and
      for those the synthetic addresses have run out. */
  ghost predicate Excused(ip: string -> Option<Ip>, fabric: Fabric, missed: set<string>, answered: set<string>,
                          count: nat) {
    forall k | k in missed ::
      k in fabric.switches && (k !in answered || (HostName(ip, fabric.switches[k]) && count > 256))
  }

  /** The synthetic addresses have not run out, or none is needed. */
  ghost predicate Addressable(ip: string -> Option<Ip>, fabric: Fabric, count: nat) {
    count <= 256 || Literals(ip, fabric, Eligible(fabric))
  }

  /** So if every operation of the store succeeds and the addresses suffice, there are none. */
  lemma NothingMissed(ip: string -> Option<Ip>, fabric: Fabric, done: set<string>, ends: nat -> Effect,
                      order: seq<string>, s: Shared, count: nat)
    requires SwitchOrder(fabric, order) && done <= Eligible(fabric) && Addressable(ip, fabric, count)
    requires var a := AskAll(ends, fabric, order, s);
             && Excused(ip, fabric, Eligible(fabric) - done, a.answered, count)
             && forall i | s.operations <= i < a.store.operations :: ends(i).Reported()
    ensures done == Eligible(fabric)
  {
    hide AskAll, Sorted;
    AllAnswered(ends, fabric, order, s);
    forall k | k in Eligible(fabric)
      ensures k in done
    {
      assert k in order && Asks(fabric, k);
      assert k in done || k in Eligible(fabric) - done;
    }
  }

  // ---------- chassis configurations ----------

  /** Appends the port to the chassis configuration, or leaves it alone if the cage is unknown or
      the starting bandwidth of an autonegotiating port is no number. */
  method HandleStratumSwitchPort(scope: FabricScope, p: Port) returns (ok: bool)
    requires scope.model.Some?
    modifies scope`chassis
    ensures ok == PortTranslates(scope.model.value, p)
    ensures scope.chassis ==
            if ok then old(scope.chassis).(singletonPorts := old(scope.chassis.singletonPorts)
                                                             + [SingletonOf(scope.model.value, p)])
            else old(scope.chassis)
    ensures ok ==>
              var sp := Last(scope.chassis.singletonPorts);
              sp.port == p.cage && sp.channel == p.channel && (sp.autoneg <==> p.speed == Autoneg)
  {
    var model := scope.model.value;
    if p.cage !in model.cages {
      return false;
    }
    var autoneg, speedBps: Option<nat> := false, Some(0);
    var gig := 1_000_000_000;
    match p.speed {
      case Unspecified =>
      case G100 => speedBps := Some(100 * gig);
      case G10 => speedBps := Some(10 * gig);
      case G1 => speedBps := Some(gig);
      case G2_5 => speedBps := Some(5 * gig / 2);
      case G25 => speedBps := Some(25 * gig);
      case G400 => speedBps := Some(400 * gig);
      case G40 => speedBps := Some(40 * gig);
      case G5 => speedBps := Some(5 * gig);
      case Autoneg =>
        autoneg := true;
        speedBps := Some(10 * gig);
        if "autoneg-starting-bandwidth" in model.attributes {
          speedBps := ParseUint64(model.attributes["autoneg-starting-bandwidth"]);
        }
    }
    if speedBps.None? {
      return false;
    }
    var id: uint32, name;
    if p.channel != 0 {
      id := (p.cage * 100 + (p.channel - 1)) % TWO_32;
      name := "Port " + Decimal(p.cage) + "/" + Decimal(p.channel - 1);
    } else {
      id := p.cage;
      name := "Port " + Decimal(p.cage) + "/0";
      assert "/" + Decimal(0) == "/0";
      assert "Port " + Decimal(p.cage) + "/" + Decimal(0) == "Port " + Decimal(p.cage) + ("/" + Decimal(0));
    }
    var port := SingletonPort(id, name, p.cage, p.channel, speedBps.value, autoneg);
    scope.chassis := scope.chassis.(singletonPorts := scope.chassis.singletonPorts + [port]);
    ok := true;
  }

  /** Fills the scope's empty chassis configuration from the switch, its ports in any order. */
  method HandleStratumSwitch(scope: FabricScope) returns (ok: bool)
    requires scope.sw.Some? && scope.model.Some? && scope.chassis == EMPTY_CHASSIS
    modifies scope`chassis
    ensures ok == Managed(scope.sw.value)
    ensures ok ==> ChassisOf(scope.sw.value, scope.model.value, scope.chassis)
    ensures !ok ==> scope.chassis == EMPTY_CHASSIS
  {
    hide SingletonOf, PortTranslates;
    var sw, model := scope.sw.value, scope.model.value;
    if sw.management.None? || sw.management.value.address.None? || sw.management.value.port.None? {
      return false;
    }
    scope.chassis := scope.chassis.(description := sw.displayName, name := sw.displayName);
    var todo := sw.ports.Keys;
    ghost var order: seq<PortKey> := [];
    while todo != {}
      invariant todo <= sw.ports.Keys && Visits(order, sw.ports.Keys - todo)
      invariant scope.chassis == Chassis(sw.displayName, sw.displayName, Emit(SingletonEntries(sw, model), order))
    {
      var pk :| pk in todo;
      var done := HandleStratumSwitchPort(scope, sw.ports[pk]);
      EmitAppend(SingletonEntries(sw, model), order, pk);
      assert done <==> pk in SingletonEntries(sw, model);
      assert Emit(SingletonEntries(sw, model), order) + [] == Emit(SingletonEntries(sw, model), order);
      order := order + [pk];
      todo := todo - {pk};
    }
    ok := true;
  }
}
