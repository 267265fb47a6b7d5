/** The configuration of a fabric, the ONOS netconfig and Stratum chassis configurations made from
    it, and what it means for those to be right, independently of how they are built. */
module Fabrics {
  import opened Basics
  import opened Text
  import opened Net

  // ---------- the configuration ----------

  datatype Role = Unset | Undefined | Leaf | Spine

  datatype Speed = Unspecified | G1 | G2_5 | G5 | G10 | G25 | G40 | G100 | G400 | Autoneg

  datatype PortVlans = PortVlans(untagged: Option<uint16>, tagged: seq<uint16>)

  datatype Port = Port(cage: uint8, channel: uint8, displayName: string, speed: Speed,
                       vlans: Option<PortVlans>)

  datatype PortKey = PortKey(cage: uint8, channel: uint8)

  datatype Management = Management(address: Option<string>, port: Option<uint16>)

  datatype PairingPort = PairingPort(cage: Option<uint8>, channel: uint8)

  datatype SwitchPair = SwitchPair(pairedSwitch: Option<string>, pairingPorts: seq<PairingPort>)

  /** `attributes` has no entry for an attribute whose value is missing; `vlans` gives the subnets
      of each VLAN the switch defines. */
  datatype Switch = Switch(switchId: string, displayName: string, modelId: Option<string>,
                           role: Role, attributes: map<string, string>,
                           management: Option<Management>, vlans: map<uint16, seq<string>>,
                           ports: map<PortKey, Port>, pair: Option<SwitchPair>)

  datatype SwitchModel = SwitchModel(cages: set<uint8>, attributes: map<string, string>)

  datatype Route = Route(prefix: Option<string>, address: Option<string>)

  datatype Fabric = Fabric(switches: map<string, Switch>, models: map<string, SwitchModel>,
                           routes: map<string, Route>)

  // ---------- what is pushed ----------

  datatype Device = Device(sid: uint32, loopback: string, mac: string, isEdgeRouter: bool,
                           pairDevice: string, pairLocalPort: uint16, name: string,
                           managementAddress: string, driver: string, pipeconf: string)

  datatype Interface = Interface(name: string, ips: seq<string>, vlanUntagged: uint16,
                                 vlanTagged: seq<uint16>)

  datatype OnosPort = OnosPort(interfaces: seq<Interface>)

  datatype OnosRoute = OnosRoute(prefix: string, nextHop: string)

  datatype NetConfig = NetConfig(devices: map<string, Device>, ports: map<string, OnosPort>,
                                 apps: map<string, seq<OnosRoute>>)

  datatype SingletonPort = SingletonPort(id: uint32, name: string, port: uint8, channel: uint8,
                                         speedBps: nat, autoneg: bool)

  datatype Chassis = Chassis(description: string, name: string, singletonPorts: seq<SingletonPort>)

  const ROUTE_APP := "org.onosproject.route-service"

  // ---------- ports ----------

  /** ONOS numbers a port by its channel and cage in base 100, in 16 bits. */
  function PortNumber(cage: Option<uint8>, channel: uint8): (n: uint16)
    ensures n <= 25755
    ensures if cage.None? then n == channel
            else n % 100 == cage.value % 100 && n / 100 == channel + cage.value / 100
  {
    if cage.None? then channel else channel * 100 + cage.value
  }

  function PortId(switchId: string, cage: uint8, channel: uint8): string {
    "device:" + switchId + "/" + Decimal(PortNumber(Some(cage), channel))
  }

  /** A printed port key determines the switch, whatever characters its ID contains, and the port
      number; with cages of at most two digits it also determines cage and channel. */
  lemma PortIdInjective(s: string, cage: uint8, channel: uint8, s': string, cage': uint8, channel': uint8)
    requires PortId(s, cage, channel) == PortId(s', cage', channel')
    ensures s == s' && channel * 100 + cage == channel' * 100 + cage'
    ensures cage <= 99 && cage' <= 99 ==> cage == cage' && channel == channel'
  {
    SlashKeyInjective("device:" + s, PortNumber(Some(cage), channel),
                      "device:" + s', PortNumber(Some(cage'), channel'));
    assert s == ("device:" + s)[7..] == ("device:" + s')[7..] == s';
  }

  /** Two digits is the exact bound: once cages up to `limit` are allowed, ports are told apart by
      their keys if and only if `limit` is at most 99. */
  lemma PortIdBoundIsExact(s: string, limit: uint8)
    ensures (forall c: uint8, h: uint8, c': uint8, h': uint8 |
               c <= limit && c' <= limit && PortId(s, c, h) == PortId(s, c', h') ::
               c == c' && h == h')
            <==> limit <= 99
  {
    if limit > 99 {
      assert PortNumber(Some(100), 0) == 100 == PortNumber(Some(0), 1);
      assert PortId(s, 100, 0) == PortId(s, 0, 1);
    } else {
      forall c: uint8, h: uint8, c': uint8, h': uint8 |
        c <= limit && c' <= limit && PortId(s, c, h) == PortId(s, c', h')
        ensures c == c' && h == h'
      {
        PortIdInjective(s, c, h, s, c', h');
      }
    }
  }

  /** The subnets of a list of VLANs, in order, or nothing if the switch lacks one of them. */
  function Subnets(vlans: map<uint16, seq<string>>, ids: seq<uint16>): Option<seq<string>> {
    if ids == [] then Some([])
    else
      var n := |ids| - 1;
      var front := Subnets(vlans, ids[..n]);
      if front.None? || ids[n] !in vlans then None else Some(front.value + vlans[ids[n]])
  }

  function VlanIds(p: Port): seq<uint16> {
    if p.vlans.None? then []
    else (if p.vlans.value.untagged.Some? then [p.vlans.value.untagged.value] else []) + p.vlans.value.tagged
  }

  /** The interface of a port, or nothing if the port cannot be translated. */
  function PortEntry(sw: Switch, model: SwitchModel, p: Port): Option<OnosPort> {
    if p.cage !in model.cages || Subnets(sw.vlans, VlanIds(p)).None? then None
    else
      var untagged := if p.vlans.Some? then p.vlans.value.untagged else None;
      Some(OnosPort([Interface(p.displayName, Subnets(sw.vlans, VlanIds(p)).value,
                               if untagged.Some? then untagged.value else 0,
                               if p.vlans.Some? then p.vlans.value.tagged else [])]))
  }

  lemma {:induction false} SubnetsDefined(vlans: map<uint16, seq<string>>, ids: seq<uint16>)
    ensures Subnets(vlans, ids).Some? <==> forall v | v in ids :: v in vlans
  {
    if ids != [] {
      var n := |ids| - 1;
      assert ids == ids[..n] + [ids[n]];
      SubnetsDefined(vlans, ids[..n]);
    }
  }

  lemma SubnetsOfOne(vlans: map<uint16, seq<string>>, v: uint16)
    ensures Subnets(vlans, [v]) == if v in vlans then Some(vlans[v]) else None
  {
    assert [v][..0] == [] && Subnets(vlans, [v][..0]) == Some([]);
    if v in vlans { assert [] + vlans[v] == vlans[v]; }
  }

  lemma {:induction false} SubnetsConcat(vlans: map<uint16, seq<string>>, a: seq<uint16>, b: seq<uint16>)
    ensures Subnets(vlans, a + b).Some? <==> Subnets(vlans, a).Some? && Subnets(vlans, b).Some?
    ensures Subnets(vlans, a + b).Some? ==>
              Subnets(vlans, a + b).value == Subnets(vlans, a).value + Subnets(vlans, b).value
  {
    if b == [] {
      assert a + b == a;
    } else {
      assert (a + b)[..|a + b| - 1] == a + b[..|b| - 1];
      SubnetsConcat(vlans, a, b[..|b| - 1]);
    }
  }

  /** A port is translated if its cage is in the model and all its VLANs are in the switch's VLAN table. */
  lemma TranslatedExactly(sw: Switch, model: SwitchModel, p: Port)
    ensures PortEntry(sw, model, p).Some? <==>
              && p.cage in model.cages
              && (p.vlans.Some? ==>
                    && (p.vlans.value.untagged.Some? ==> p.vlans.value.untagged.value in sw.vlans)
                    && forall v | v in p.vlans.value.tagged :: v in sw.vlans)
  {
    SubnetsDefined(sw.vlans, VlanIds(p));
    if p.vlans.Some? && p.vlans.value.untagged.Some? {
      assert p.vlans.value.untagged.value in [p.vlans.value.untagged.value] + p.vlans.value.tagged;
    }
  }

  /** Its only interface has the port's name and VLANs, and its addresses are the untagged VLAN's subnets
      followed by those of the tagged VLANs. */
  lemma InterfaceIntegrity(sw: Switch, model: SwitchModel, p: Port)
    requires PortEntry(sw, model, p).Some?
    ensures var untagged := if p.vlans.Some? then p.vlans.value.untagged else None;
            var entry := PortEntry(sw, model, p).value;
            && |entry.interfaces| == 1
            && var iface := entry.interfaces[0];
            && iface.name == p.displayName
            && iface.vlanTagged == (if p.vlans.Some? then p.vlans.value.tagged else [])
            && (forall v | v in iface.vlanTagged :: v in sw.vlans)
            && Subnets(sw.vlans, iface.vlanTagged).Some?
            && match untagged {
                 case Some(v) =>
                   v == iface.vlanUntagged && v in sw.vlans
                   && iface.ips == sw.vlans[v] + Subnets(sw.vlans, iface.vlanTagged).value
                 case None => iface.vlanUntagged == 0 && iface.ips == Subnets(sw.vlans, iface.vlanTagged).value
               }
  {
    if p.vlans.Some? {
      var v := p.vlans.value;
      SubnetsDefined(sw.vlans, v.tagged);
      if v.untagged.Some? {
        SubnetsConcat(sw.vlans, [v.untagged.value], v.tagged);
        SubnetsOfOne(sw.vlans, v.untagged.value);
      } else {
        assert [] + v.tagged == v.tagged;
      }
    }
  }

  // ---------- switches ----------

  function DeviceKey(sw: Switch): string {
    "device:" + sw.switchId
  }

  predicate Present(m: map<string, string>, key: string) {
    key in m && m[key] != ""
  }

  predicate ModelKnown(fabric: Fabric, sw: Switch) {
    sw.modelId.Some? && sw.modelId.value != "" && sw.modelId.value in fabric.models
  }

  predicate Managed(sw: Switch) {
    sw.management.Some? && sw.management.value.address.Some? && sw.management.value.port.Some?
  }

  predicate Complete(sw: Switch) {
    sw.switchId != "" && Managed(sw) && Present(sw.attributes, "driver") && Present(sw.attributes, "pipeconf")
  }

  /** The switches whose configuration is complete enough to become a device. */
  function Eligible(fabric: Fabric): (ks: set<string>) {
    set k | k in fabric.switches && ModelKnown(fabric, fabric.switches[k]) && Complete(fabric.switches[k])
  }

  function KnownSwitches(fabric: Fabric): set<string> {
    set k | k in fabric.switches && ModelKnown(fabric, fabric.switches[k])
  }

  function ModelOf(fabric: Fabric, sw: Switch): SwitchModel
    requires ModelKnown(fabric, sw)
  {
    fabric.models[sw.modelId.value]
  }

  function PairOf(sw: Switch): (string, uint16) {
    if sw.pair.Some? && sw.pair.value.pairedSwitch.Some? && |sw.pair.value.pairingPorts| == 1 then
      var p := sw.pair.value.pairingPorts[0];
      (sw.switchId, PortNumber(p.cage, p.channel))
    else ("", 0)
  }

  function GrpcEndpoint(address: string, port: uint16): string {
    "grpc://" + address + ":" + Decimal(port) + "?device_id=1"
  }

  /** What is printed for a device determines its management address, whatever characters it contains. */
  lemma GrpcEndpointInjective(a: string, m: uint16, b: string, n: uint16)
    requires GrpcEndpoint(a, m) == GrpcEndpoint(b, n)
    ensures a == b && m == n
  {
    var x, y := a + ":" + Decimal(m), b + ":" + Decimal(n);
    var prefix, suffix := "grpc://", "?device_id=1";
    assert GrpcEndpoint(a, m) == prefix + x + suffix && GrpcEndpoint(b, n) == prefix + y + suffix;
    assert x == GrpcEndpoint(a, m)[7..|GrpcEndpoint(a, m)| - 12] == y;
    PairInjective(':', a, m, b, n);
  }

  lemma GrpcEndpointReads(address: string, port: uint16) returns (digits: string)
    ensures GrpcEndpoint(address, port) == "grpc://" + address + ":" + digits + "?device_id=1"
    ensures AllDigits(digits) && Value(digits) == port
  {
    DecimalReads(port);
    digits := Decimal(port);
  }

  function Address(sw: Switch): string
    requires Managed(sw)
  {
    sw.management.value.address.value
  }

  predicate HostName(ip: string -> Option<Ip>, sw: Switch) {
    Managed(sw) && ip(Address(sw)).None?
  }

  /** The device of a switch: its own SID, the management address or a synthetic one as loopback,
      and a router MAC that agrees with that loopback. */
  ghost predicate DeviceOf(ip: string -> Option<Ip>, sw: Switch, sids: map<string, uint32>, d: Device) {
    && Complete(sw)
    && sw.switchId in sids && d.sid == sids[sw.switchId]
    && ip(d.loopback).Some? && d.mac == MacOf(LastFour(ip(d.loopback).value))
    && (if ip(Address(sw)).Some? then d.loopback == Address(sw)
        else exists k: nat :: k <= 255 && d.loopback == Synthetic(k))
    && d.isEdgeRouter == (sw.role != Spine)
    && (d.pairDevice, d.pairLocalPort) == PairOf(sw)
    && d.name == sw.displayName
    && d.managementAddress == GrpcEndpoint(Address(sw), sw.management.value.port.value)
    && d.driver == sw.attributes["driver"]
    && d.pipeconf == sw.attributes["pipeconf"]
  }

  // ---------- the netconfig ----------

  /** Port `pk` of switch `k` is translated, under this key. */
  predicate Contributes(fabric: Fabric, k: string, pk: PortKey, key: string) {
    && k in fabric.switches && ModelKnown(fabric, fabric.switches[k])
    && var sw := fabric.switches[k];
    && pk in sw.ports
    && PortEntry(sw, ModelOf(fabric, sw), sw.ports[pk]).Some?
    && key == PortId(sw.switchId, sw.ports[pk].cage, sw.ports[pk].channel)
  }

  function Contribution(fabric: Fabric, k: string, pk: PortKey, key: string): OnosPort
    requires Contributes(fabric, k, pk, key)
  {
    var sw := fabric.switches[k];
    PortEntry(sw, ModelOf(fabric, sw), sw.ports[pk]).value
  }

  predicate ValidRoute(r: Route) {
    r.prefix.Some? && r.prefix.value != "" && r.address.Some? && r.address.value != ""
  }

  function RouteEntries(fabric: Fabric): map<string, OnosRoute> {
    map r | r in fabric.routes && ValidRoute(fabric.routes[r]) ::
      OnosRoute(fabric.routes[r].prefix.value, fabric.routes[r].address.value)
  }

  ghost predicate DevicesFrom(ip: string -> Option<Ip>, fabric: Fabric, done: set<string>,
                              sids: map<string, uint32>, devices: map<string, Device>) {
    && (forall k | k in done :: k in fabric.switches && DeviceKey(fabric.switches[k]) in devices)
    && forall key | key in devices ::
         exists k | k in done ::
           DeviceKey(fabric.switches[k]) == key && DeviceOf(ip, fabric.switches[k], sids, devices[key])
  }

  ghost predicate PortsFrom(fabric: Fabric, done: set<string>, ports: map<string, OnosPort>) {
    && (forall k, pk, key | k in done && Contributes(fabric, k, pk, key) :: key in ports)
    && forall key | key in ports ::
         exists k, pk | k in done && Contributes(fabric, k, pk, key) ::
           ports[key] == Contribution(fabric, k, pk, key)
  }

  function AppsWith(routes: seq<OnosRoute>): map<string, seq<OnosRoute>> {
    if routes == [] then map[] else map[ROUTE_APP := routes]
  }

  ghost predicate AppsFrom(fabric: Fabric, apps: map<string, seq<OnosRoute>>) {
    exists order | Visits(order, fabric.routes.Keys) :: apps == AppsWith(Emit(RouteEntries(fabric), order))
  }

  /** `nc` is a netconfig of the fabric in which exactly the switches in `done` are present. */
  ghost predicate NetConfigFrom(ip: string -> Option<Ip>, fabric: Fabric, done: set<string>,
                                sids: map<string, uint32>, nc: NetConfig) {
    && done <= Eligible(fabric)
    && DevicesFrom(ip, fabric, done, sids, nc.devices)
    && PortsFrom(fabric, done, nc.ports)
    && AppsFrom(fabric, nc.apps)
  }

  /** The routes are exactly the valid ones, as many as there are, and there is no application without
      routes. */
  lemma RoutesShown(fabric: Fabric, apps: map<string, seq<OnosRoute>>)
    requires AppsFrom(fabric, apps)
    ensures forall app | app in apps :: app == ROUTE_APP && apps[app] != []
    ensures var shown := if ROUTE_APP in apps then apps[ROUTE_APP] else [];
            && |shown| == |set r | r in fabric.routes && ValidRoute(fabric.routes[r])|
            && (forall r | r in fabric.routes && ValidRoute(fabric.routes[r]) ::
                  OnosRoute(fabric.routes[r].prefix.value, fabric.routes[r].address.value) in shown)
            && forall x | x in shown ::
                 exists r :: r in fabric.routes && ValidRoute(fabric.routes[r])
                             && x == OnosRoute(fabric.routes[r].prefix.value, fabric.routes[r].address.value)
  {
    hide Visits;
    var m := RouteEntries(fabric);
    var order :| Visits(order, fabric.routes.Keys) && apps == AppsWith(Emit(m, order));
    var shown := Emit(m, order);
    assert shown == if ROUTE_APP in apps then apps[ROUTE_APP] else [];
    EmittedExactly(m, order, fabric.routes.Keys);
    assert m.Keys == set r | r in fabric.routes && ValidRoute(fabric.routes[r]);
    assert forall r | r in fabric.routes && ValidRoute(fabric.routes[r]) :: r in m && m[r] in shown;
  }

  /** Each value is emitted, as often as it has keys, and nothing else is. */
  lemma EmittedExactly<K(!new), V>(m: map<K, V>, order: seq<K>, keys: set<K>)
    requires Visits(order, keys) && m.Keys <= keys
    ensures |Emit(m, order)| == |m.Keys|
    ensures forall k | k in m :: m[k] in Emit(m, order)
    ensures forall v | v in Emit(m, order) :: exists k :: k in m && m[k] == v
  {
    EmitAt(m, order);
    var vs, ks := Emit(m, order), Emitting(m, order);
    Cardinality(ks, m.Keys);
    forall k | k in m
      ensures m[k] in vs
    {
      var i :| 0 <= i < |ks| && ks[i] == k;
      assert vs[i] == m[k];
    }
    forall i | 0 <= i < |vs|
      ensures ks[i] in m && vs[i] == m[ks[i]]
    {
      assert ks[i] in ks;
    }
  }

  /** Map keys repeat the objects' own IDs, as the YANG list keys do, and cages have two digits. */
  predicate WellKeyed(fabric: Fabric) {
    forall k | k in fabric.switches ::
      fabric.switches[k].switchId == k
      && forall pk | pk in fabric.switches[k].ports ::
           pk == PortKey(fabric.switches[k].ports[pk].cage, fabric.switches[k].ports[pk].channel)
           && pk.cage <= 99
  }

  /** The management addresses of these switches are IP literals. */
  ghost predicate Literals(ip: string -> Option<Ip>, fabric: Fabric, ks: set<string>)
    requires ks <= Eligible(fabric)
  {
    forall k | k in ks :: ip(Address(fabric.switches[k])).Some?
  }

  /** All valid routes are the same; in particular if there is at most one. */
  predicate RoutesAlike(fabric: Fabric) {
    forall a, b | a in RouteEntries(fabric) && b in RouteEntries(fabric) ::
      RouteEntries(fabric)[a] == RouteEntries(fabric)[b]
  }

  /** A port key of a well-keyed fabric comes from one port only. */
  lemma ContributesOnce(fabric: Fabric, k: string, pk: PortKey, k': string, pk': PortKey, key: string)
    requires WellKeyed(fabric)
    requires Contributes(fabric, k, pk, key) && Contributes(fabric, k', pk', key)
    ensures k == k' && pk == pk'
  {
    var p, p' := fabric.switches[k].ports[pk], fabric.switches[k'].ports[pk'];
    PortIdInjective(fabric.switches[k].switchId, p.cage, p.channel,
                    fabric.switches[k'].switchId, p'.cage, p'.channel);
  }

  /** The Ports map does not depend on the order in which anything was visited. */
  lemma PortsDetermined(fabric: Fabric, done: set<string>, a: map<string, OnosPort>, b: map<string, OnosPort>)
    requires WellKeyed(fabric)
    requires PortsFrom(fabric, done, a) && PortsFrom(fabric, done, b)
    ensures a == b
  {
    hide PortsFrom, WellKeyed;
    forall key | key in a
      ensures key in b && a[key] == b[key]
    {
      PortHere(fabric, done, a, b, key);
    }
    forall key | key in b
      ensures key in a
    {
      PortHere(fabric, done, b, a, key);
    }
  }

  lemma PortHere(fabric: Fabric, done: set<string>, a: map<string, OnosPort>, b: map<string, OnosPort>, key: string)
    requires WellKeyed(fabric)
    requires PortsFrom(fabric, done, a) && PortsFrom(fabric, done, b) && key in a
    ensures key in b && a[key] == b[key]
  {
    var k, pk :| k in done && Contributes(fabric, k, pk, key) && a[key] == Contribution(fabric, k, pk, key);
    EveryPortKept(fabric, done, b, k, pk, key);
  }

  /** Every translated port is in the Ports map with its own interface: none overwrites another. */
  lemma EveryPortKept(fabric: Fabric, done: set<string>, ports: map<string, OnosPort>,
                      k: string, pk: PortKey, key: string)
    requires WellKeyed(fabric) && PortsFrom(fabric, done, ports)
    requires k in done && Contributes(fabric, k, pk, key)
    ensures key in ports && ports[key] == Contribution(fabric, k, pk, key)
  {
    var k', pk' :| k' in done && Contributes(fabric, k', pk', key) && ports[key] == Contribution(fabric, k', pk', key);
    ContributesOnce(fabric, k, pk, k', pk', key);
  }

  /** Each key of Ports is a switch and a number, and the number, in base 100, gives the cage and the channel
      of the port of that switch whose interface is found there. */
  lemma PortsDecode(fabric: Fabric, done: set<string>, ports: map<string, OnosPort>, key: string)
      returns (k: string, digits: string)
    requires WellKeyed(fabric) && PortsFrom(fabric, done, ports) && key in ports
    ensures k in done && k in fabric.switches && ModelKnown(fabric, fabric.switches[k])
    ensures key == "device:" + k + "/" + digits && AllDigits(digits) && Value(digits) / 100 < 0x100
    ensures var sw, pk := fabric.switches[k], PortKey(Value(digits) % 100, Value(digits) / 100);
            && pk in sw.ports && sw.ports[pk].cage == pk.cage && sw.ports[pk].channel == pk.channel
            && PortEntry(sw, ModelOf(fabric, sw), sw.ports[pk]) == Some(ports[key])
  {
    hide PortEntry, PortId;
    var j, pk :| j in done && Contributes(fabric, j, pk, key) && ports[key] == Contribution(fabric, j, pk, key);
    k := j;
    digits := PortIdReads(k, pk.cage, pk.channel);
  }

  lemma PortIdReads(switchId: string, cage: uint8, channel: uint8) returns (digits: string)
    ensures PortId(switchId, cage, channel) == "device:" + switchId + "/" + digits && AllDigits(digits)
    ensures Value(digits) % 100 == cage % 100 && Value(digits) / 100 == channel + cage / 100
  {
    DecimalReads(PortNumber(Some(cage), channel));
    digits := Decimal(PortNumber(Some(cage), channel));
  }

  function TranslatedPorts(fabric: Fabric, done: set<string>): set<(string, PortKey)> {
    set k, pk | k in done && k in fabric.switches && pk in fabric.switches[k].ports
                && Contributes(fabric, k, pk, KeyOf(fabric.switches[k], pk)) :: (k, pk)
  }

  function KeyOf(sw: Switch, pk: PortKey): string
    requires pk in sw.ports
  {
    PortId(sw.switchId, sw.ports[pk].cage, sw.ports[pk].channel)
  }

  /** The Ports map has exactly one entry for each translated port. */
  lemma PortsCounted(fabric: Fabric, done: set<string>, ports: map<string, OnosPort>)
    requires WellKeyed(fabric) && PortsFrom(fabric, done, ports)
    ensures |ports| == |TranslatedPorts(fabric, done)|
  {
    hide PortId, PortEntry, WellKeyed;
    var keys := map q | q in TranslatedPorts(fabric, done) :: KeyOf(fabric.switches[q.0], q.1);
    forall a, b | a in keys && b in keys && keys[a] == keys[b]
      ensures a == b
    {
      ContributesOnce(fabric, a.0, a.1, b.0, b.1, keys[a]);
    }
    forall key
      ensures key in ports <==> key in keys.Values
    {
      if key in ports {
        var k, pk :| k in done && Contributes(fabric, k, pk, key) && ports[key] == Contribution(fabric, k, pk, key);
        assert (k, pk) in keys && keys[(k, pk)] == key;
      }
    }
    assert keys.Values == ports.Keys && keys.Keys == TranslatedPorts(fabric, done);
    ValuesCounted(keys);
  }

  /** Every key device:X/n of the Ports map belongs to a device:X of the Devices map. */
  lemma PortsBelongToDevices(ip: string -> Option<Ip>, fabric: Fabric, done: set<string>,
                             sids: map<string, uint32>, nc: NetConfig, key: string)
    requires NetConfigFrom(ip, fabric, done, sids, nc) && key in nc.ports
    ensures exists k, n: nat | k in done ::
              DeviceKey(fabric.switches[k]) in nc.devices
              && key == DeviceKey(fabric.switches[k]) + "/" + Decimal(n)
  {
    var k, pk :| k in done && Contributes(fabric, k, pk, key) && nc.ports[key] == Contribution(fabric, k, pk, key);
    var p := fabric.switches[k].ports[pk];
    assert key == DeviceKey(fabric.switches[k]) + "/" + Decimal(PortNumber(Some(p.cage), p.channel));
  }

  /** The routes of two builds are the same up to order, and the same list if they are alike. */
  lemma RoutesDetermined(fabric: Fabric, a: map<string, seq<OnosRoute>>, b: map<string, seq<OnosRoute>>)
    requires AppsFrom(fabric, a) && AppsFrom(fabric, b)
    ensures a.Keys == b.Keys <= {ROUTE_APP}
    ensures ROUTE_APP in a ==> multiset(a[ROUTE_APP]) == multiset(b[ROUTE_APP])
    ensures RoutesAlike(fabric) ==> a == b
  {
    hide Visits;
    var m := RouteEntries(fabric);
    var o1 :| Visits(o1, fabric.routes.Keys) && a == AppsWith(Emit(m, o1));
    var o2 :| Visits(o2, fabric.routes.Keys) && b == AppsWith(Emit(m, o2));
    EmitOrderIrrelevant(m, o1, o2, fabric.routes.Keys);
    assert |multiset(Emit(m, o1))| == |Emit(m, o1)| && |multiset(Emit(m, o2))| == |Emit(m, o2)|;
    if RoutesAlike(fabric) {
      EmitAlike(m, o1, o2, fabric.routes.Keys);
    }
  }

  lemma DevicesDetermined(ip: string -> Option<Ip>, fabric: Fabric, done: set<string>,
                          sids: map<string, uint32>, a: map<string, Device>, b: map<string, Device>)
    requires WellKeyed(fabric) && done <= Eligible(fabric) && Literals(ip, fabric, done)
    requires DevicesFrom(ip, fabric, done, sids, a) && DevicesFrom(ip, fabric, done, sids, b)
    ensures a == b
  {
    hide DevicesFrom, WellKeyed, Literals, Eligible;
    forall key | key in a
      ensures key in b && a[key] == b[key]
    {
      DeviceHere(ip, fabric, done, sids, a, b, key);
    }
    forall key | key in b
      ensures key in a
    {
      DeviceHere(ip, fabric, done, sids, b, a, key);
    }
  }

  lemma DeviceHere(ip: string -> Option<Ip>, fabric: Fabric, done: set<string>,
                   sids: map<string, uint32>, a: map<string, Device>, b: map<string, Device>, key: string)
    requires WellKeyed(fabric) && done <= Eligible(fabric) && Literals(ip, fabric, done)
    requires DevicesFrom(ip, fabric, done, sids, a) && DevicesFrom(ip, fabric, done, sids, b)
    requires key in a
    ensures key in b && a[key] == b[key]
  {
    hide DeviceOf, Complete;
    var k :| k in done && DeviceKey(fabric.switches[k]) == key && DeviceOf(ip, fabric.switches[k], sids, a[key]);
    var k' :| k' in done && DeviceKey(fabric.switches[k']) == key && DeviceOf(ip, fabric.switches[k'], sids, b[key]);
    assert k == key[7..] == k';
    DeviceDetermined(ip, fabric.switches[k], sids, a[key], b[key]);
  }

  lemma DeviceDetermined(ip: string -> Option<Ip>, sw: Switch, sids: map<string, uint32>, a: Device, b: Device)
    requires DeviceOf(ip, sw, sids, a) && DeviceOf(ip, sw, sids, b) && ip(Address(sw)).Some?
    ensures a == b
  {
  }

  /** Building twice gives the same netconfig: with IP literals as management addresses, routes that
      are alike, and the same SIDs for the same switches. */
  lemma NetConfigDetermined(ip: string -> Option<Ip>, fabric: Fabric, done: set<string>,
                            sids: map<string, uint32>, a: NetConfig, b: NetConfig)
    requires NetConfigFrom(ip, fabric, done, sids, a) && NetConfigFrom(ip, fabric, done, sids, b)
    requires WellKeyed(fabric) && Literals(ip, fabric, done) && RoutesAlike(fabric)
    ensures a == b
  {
    DevicesDetermined(ip, fabric, done, sids, a.devices, b.devices);
    PortsDetermined(fabric, done, a.ports, b.ports);
    RoutesDetermined(fabric, a.apps, b.apps);
  }

  lemma RoutesUndetermined(fabric: Fabric, apps: map<string, seq<OnosRoute>>)
      returns (other: map<string, seq<OnosRoute>>)
    requires AppsFrom(fabric, apps) && !RoutesAlike(fabric)
    ensures AppsFrom(fabric, other) && other != apps
  {
    var m := RouteEntries(fabric);
    var a, b :| a in m && b in m && m[a] != m[b];
    var o1, o2 := EmitOrderVisible(m, fabric.routes.Keys, a, b);
    var x, y := AppsWith(Emit(m, o1)), AppsWith(Emit(m, o2));
    assert x[ROUTE_APP] != y[ROUTE_APP];
    other := if x == apps then y else x;
  }

  lemma DoneIsEligible(ip: string -> Option<Ip>, fabric: Fabric, done: set<string>, sids: map<string, uint32>,
                       nc: NetConfig)
    requires NetConfigFrom(ip, fabric, done, sids, nc)
    ensures done <= Eligible(fabric) && AppsFrom(fabric, nc.apps)
  {
  }

  lemma DeviceLater(ip: string -> Option<Ip>, sw: Switch, sids: map<string, uint32>,
                    more: map<string, uint32>, d: Device)
    requires DeviceOf(ip, sw, sids, d) && Extends(sids, more)
    ensures DeviceOf(ip, sw, more, d)
  {
  }

  /** Assigning more SIDs does not make a netconfig wrong. */
  lemma MoreSids(ip: string -> Option<Ip>, fabric: Fabric, done: set<string>,
                 sids: map<string, uint32>, more: map<string, uint32>, nc: NetConfig)
    requires NetConfigFrom(ip, fabric, done, sids, nc) && Extends(sids, more)
    ensures NetConfigFrom(ip, fabric, done, more, nc)
  {
    forall key | key in nc.devices
      ensures exists k | k in done ::
                DeviceKey(fabric.switches[k]) == key && DeviceOf(ip, fabric.switches[k], more, nc.devices[key])
    {
      var k :| k in done && DeviceKey(fabric.switches[k]) == key
          && DeviceOf(ip, fabric.switches[k], sids, nc.devices[key]);
      DeviceLater(ip, fabric.switches[k], sids, more, nc.devices[key]);
    }
  }

  /** Which switches a netconfig covers can be read off it: a netconfig that lacks an eligible
      switch is never also a netconfig that has it. */
  lemma CoverageVisible(ip: string -> Option<Ip>, fabric: Fabric, done: set<string>, done': set<string>,
                        sids: map<string, uint32>, nc: NetConfig)
    requires WellKeyed(fabric)
    requires NetConfigFrom(ip, fabric, done, sids, nc) && NetConfigFrom(ip, fabric, done', sids, nc)
    ensures done == done'
  {
    hide DevicesFrom, PortsFrom, AppsFrom, WellKeyed, Eligible;
    forall k
      ensures k in done <==> k in done'
    {
      if k in done { CoveredByBoth(ip, fabric, done, fabric, done', sids, nc.devices, k); }
      if k in done' { CoveredByBoth(ip, fabric, done', fabric, done, sids, nc.devices, k); }
    }
  }

  // ---------- configurations that translate alike ----------

  /** What the netconfig says of a port, if anything. */
  function PortView(fabric: Fabric, k: string, pk: PortKey): Option<OnosPort> {
    if k in fabric.switches && ModelKnown(fabric, fabric.switches[k]) && pk in fabric.switches[k].ports
    then PortEntry(fabric.switches[k], ModelOf(fabric, fabric.switches[k]), fabric.switches[k].ports[pk])
    else None
  }

  predicate SameDevice(a: Switch, b: Switch) {
    && Complete(a) && Complete(b) && a.switchId == b.switchId
    && Address(a) == Address(b) && a.management.value.port == b.management.value.port
    && (a.role != Spine <==> b.role != Spine) && PairOf(a) == PairOf(b) && a.displayName == b.displayName
    && a.attributes["driver"] == b.attributes["driver"] && a.attributes["pipeconf"] == b.attributes["pipeconf"]
  }

  /** The same valid routes, each as often. */
  ghost predicate SameRoutes(a: Fabric, b: Fabric) {
    exists x, y | Visits(x, a.routes.Keys) && Visits(y, b.routes.Keys) ::
      multiset(Emit(RouteEntries(a), x)) == multiset(Emit(RouteEntries(b), y))
  }

  /** As far as these switches are concerned, the two configurations say the same of all that a netconfig
      shows. */
  ghost predicate TranslateAlike(a: Fabric, done: set<string>, b: Fabric, done': set<string>) {
    && done == done'
    && (forall k | k in done ::
          k in a.switches && k in b.switches && SameDevice(a.switches[k], b.switches[k]) && SamePorts(a, b, k))
    && SameRoutes(a, b)
  }

  ghost predicate SamePorts(a: Fabric, b: Fabric, k: string) {
    forall pk :: PortView(a, k, pk) == PortView(b, k, pk)
  }

  lemma AlikeItself(fabric: Fabric, done: set<string>)
    requires done <= Eligible(fabric)
    ensures TranslateAlike(fabric, done, fabric, done)
  {
    var order := SomeOrder(fabric.routes.Keys);
    assert multiset(Emit(RouteEntries(fabric), order)) == multiset(Emit(RouteEntries(fabric), order));
  }

  lemma SameDeviceExactly(ip: string -> Option<Ip>, a: Switch, b: Switch, sids: map<string, uint32>, d: Device)
    requires DeviceOf(ip, a, sids, d) && Complete(b) && a.switchId == b.switchId
    ensures DeviceOf(ip, b, sids, d) <==> SameDevice(a, b)
  {
    hide GrpcEndpoint, PairOf, MacOf, Synthetic;
    if DeviceOf(ip, b, sids, d) {
      GrpcEndpointInjective(Address(a), a.management.value.port.value, Address(b), b.management.value.port.value);
    }
  }

  lemma DevicesAlike(ip: string -> Option<Ip>, a: Fabric, done: set<string>, sids: map<string, uint32>, b: Fabric,
                     devices: map<string, Device>)
    requires WellKeyed(a) && WellKeyed(b) && done <= Eligible(a) && done <= Eligible(b)
    requires DevicesFrom(ip, a, done, sids, devices)
    ensures DevicesFrom(ip, b, done, sids, devices)
            <==> forall k | k in done :: SameDevice(a.switches[k], b.switches[k])
  {
    hide DeviceOf, Complete, SameDevice;
    forall k | k in done
      ensures DeviceOf(ip, a.switches[k], sids, devices[DeviceKey(a.switches[k])])
      ensures DeviceKey(a.switches[k]) == DeviceKey(b.switches[k]) && Complete(b.switches[k])
      ensures DeviceOf(ip, b.switches[k], sids, devices[DeviceKey(a.switches[k])]) <==>
              SameDevice(a.switches[k], b.switches[k])
    {
      DeviceThere(ip, a, done, sids, devices, k);
      SameDeviceExactly(ip, a.switches[k], b.switches[k], sids, devices[DeviceKey(a.switches[k])]);
    }
    if DevicesFrom(ip, b, done, sids, devices) {
      forall k | k in done
        ensures SameDevice(a.switches[k], b.switches[k])
      {
        DeviceThere(ip, b, done, sids, devices, k);
      }
    } else if forall k | k in done :: SameDevice(a.switches[k], b.switches[k]) {
      forall key | key in devices
        ensures exists k | k in done ::
                  DeviceKey(b.switches[k]) == key && DeviceOf(ip, b.switches[k], sids, devices[key])
      {
        var k :| k in done && DeviceKey(a.switches[k]) == key && DeviceOf(ip, a.switches[k], sids, devices[key]);
      }
    }
  }

  lemma DeviceThere(ip: string -> Option<Ip>, fabric: Fabric, done: set<string>, sids: map<string, uint32>,
                    devices: map<string, Device>, k: string)
    requires WellKeyed(fabric) && done <= Eligible(fabric) && DevicesFrom(ip, fabric, done, sids, devices) && k in done
    ensures k in fabric.switches && DeviceKey(fabric.switches[k]) in devices
    ensures DeviceKey(fabric.switches[k]) == "device:" + k
    ensures DeviceOf(ip, fabric.switches[k], sids, devices[DeviceKey(fabric.switches[k])])
  {
    hide DeviceOf, Complete;
    var key := DeviceKey(fabric.switches[k]);
    var j :| j in done && DeviceKey(fabric.switches[j]) == key && DeviceOf(ip, fabric.switches[j], sids, devices[key]);
    assert j == key[7..] == k;
  }

  /** In a well-keyed fabric the Ports map says of a port exactly what its view is. */
  lemma PortsShow(fabric: Fabric, done: set<string>, ports: map<string, OnosPort>, k: string, pk: PortKey)
    requires WellKeyed(fabric) && PortsFrom(fabric, done, ports) && k in done && pk.cage <= 99
    ensures var key := PortId(k, pk.cage, pk.channel);
            PortView(fabric, k, pk) == if key in ports then Some(ports[key]) else None
  {
    hide PortEntry, PortId;
    var key := PortId(k, pk.cage, pk.channel);
    if PortView(fabric, k, pk).Some? {
      assert Contributes(fabric, k, pk, key);
      EveryPortKept(fabric, done, ports, k, pk, key);
    } else if key in ports {
      var j, q :| j in done && Contributes(fabric, j, q, key) && ports[key] == Contribution(fabric, j, q, key);
      PortIdInjective(j, q.cage, q.channel, k, pk.cage, pk.channel);
    }
  }

  lemma PortsAlike(a: Fabric, done: set<string>, b: Fabric, ports: map<string, OnosPort>)
    requires WellKeyed(a) && WellKeyed(b) && done <= Eligible(a) && done <= Eligible(b) && PortsFrom(a, done, ports)
    ensures PortsFrom(b, done, ports) <==> forall k | k in done :: SamePorts(a, b, k)
  {
    hide PortsFrom, WellKeyed, PortId, PortEntry, Eligible;
    if PortsFrom(b, done, ports) {
      forall k, pk | k in done
        ensures PortView(a, k, pk) == PortView(b, k, pk)
      {
        if pk.cage <= 99 {
          PortsShow(a, done, ports, k, pk);
          PortsShow(b, done, ports, k, pk);
        } else {
          NoSuchPort(a, k, pk);
          NoSuchPort(b, k, pk);
        }
      }
    } else if forall k | k in done :: SamePorts(a, b, k) {
      PortsSame(a, done, b, ports);
    }
  }

  lemma NoSuchPort(fabric: Fabric, k: string, pk: PortKey)
    requires WellKeyed(fabric) && pk.cage > 99
    ensures PortView(fabric, k, pk).None?
  {
    hide PortEntry;
  }

  lemma PortsSame(a: Fabric, done: set<string>, b: Fabric, ports: map<string, OnosPort>)
    requires WellKeyed(a) && WellKeyed(b) && done <= Eligible(a) && done <= Eligible(b) && PortsFrom(a, done, ports)
    requires forall k | k in done :: SamePorts(a, b, k)
    ensures PortsFrom(b, done, ports)
  {
    hide PortId, PortEntry;
    forall k, pk, key | k in done
      ensures Contributes(a, k, pk, key) <==> Contributes(b, k, pk, key)
      ensures Contributes(a, k, pk, key) ==> Contribution(a, k, pk, key) == Contribution(b, k, pk, key)
    {
      assert PortView(a, k, pk) == PortView(b, k, pk);
    }
    hide PortView, WellKeyed, Eligible, Contributes;
    forall key | key in ports
      ensures exists k, pk | k in done && Contributes(b, k, pk, key) :: ports[key] == Contribution(b, k, pk, key)
    {
      var k, pk :| k in done && Contributes(a, k, pk, key) && ports[key] == Contribution(a, k, pk, key);
    }
  }

  lemma AppsAlike(a: Fabric, b: Fabric, apps: map<string, seq<OnosRoute>>)
    requires AppsFrom(a, apps)
    ensures AppsFrom(b, apps) <==> SameRoutes(a, b)
  {
    hide Visits;
    var m, m' := RouteEntries(a), RouteEntries(b);
    hide RouteEntries;
    var o :| Visits(o, a.routes.Keys) && apps == AppsWith(Emit(m, o));
    if AppsFrom(b, apps) {
      var o' :| Visits(o', b.routes.Keys) && apps == AppsWith(Emit(m', o'));
      assert Emit(m, o) == if ROUTE_APP in apps then apps[ROUTE_APP] else [];
      assert Emit(m', o') == if ROUTE_APP in apps then apps[ROUTE_APP] else [];
    } else if SameRoutes(a, b) {
      var x, y :| Visits(x, a.routes.Keys) && Visits(y, b.routes.Keys) && multiset(Emit(m, x)) == multiset(Emit(m', y));
      EmitOrderIrrelevant(m, o, x, a.routes.Keys);
      var order := Rearranged(m', y, b.routes.Keys, Emit(m, o));
    }
  }

  /** A netconfig of one configuration is one of another if and only if the two translate alike. */
  lemma AlikeExactly(ip: string -> Option<Ip>, a: Fabric, done: set<string>, sids: map<string, uint32>, b: Fabric,
                     done': set<string>, nc: NetConfig)
    requires WellKeyed(a) && WellKeyed(b) && NetConfigFrom(ip, a, done, sids, nc) && done' <= Eligible(b)
    ensures NetConfigFrom(ip, b, done', sids, nc) <==> TranslateAlike(a, done, b, done')
  {
    hide DevicesFrom, PortsFrom, AppsFrom, SameDevice, SamePorts, SameRoutes, WellKeyed;
    AppsAlike(a, b, nc.apps);
    if done == done' {
      DevicesAlike(ip, a, done, sids, b, nc.devices);
      PortsAlike(a, done, b, nc.ports);
    } else if NetConfigFrom(ip, b, done', sids, nc) {
      forall k
        ensures k in done <==> k in done'
      {
        if k in done { CoveredByBoth(ip, a, done, b, done', sids, nc.devices, k); }
        if k in done' { CoveredByBoth(ip, b, done', a, done, sids, nc.devices, k); }
      }
    }
  }

  lemma CoveredByBoth(ip: string -> Option<Ip>, a: Fabric, done: set<string>, b: Fabric, done': set<string>,
                      sids: map<string, uint32>, devices: map<string, Device>, k: string)
    requires WellKeyed(a) && WellKeyed(b) && done <= Eligible(a) && done' <= Eligible(b) && k in done
    requires DevicesFrom(ip, a, done, sids, devices) && DevicesFrom(ip, b, done', sids, devices)
    ensures k in done'
  {
    hide DeviceOf, Complete;
    DeviceThere(ip, a, done, sids, devices, k);
    var key := "device:" + k;
    var j :| j in done' && DeviceKey(b.switches[j]) == key && DeviceOf(ip, b.switches[j], sids, devices[key]);
    assert j == key[7..] == k;
  }

  // ---------- chassis configurations ----------

  const GIG := 1_000_000_000 // 10e8 in the original

  /** Bits per second, or nothing if the model's starting bandwidth is needed but is no number. */
  function SpeedOf(model: SwitchModel, speed: Speed): Option<nat> {
    match speed
    case Unspecified => Some(0)
    case G1 => Some(GIG)
    case G2_5 => Some(2_500_000_000)
    case G5 => Some(5 * GIG)
    case G10 => Some(10 * GIG)
    case G25 => Some(25 * GIG)
    case G40 => Some(40 * GIG)
    case G100 => Some(100 * GIG)
    case G400 => Some(400 * GIG)
    case Autoneg =>
      if "autoneg-starting-bandwidth" in model.attributes
      then ParseUint64(model.attributes["autoneg-starting-bandwidth"])
      else Some(10 * GIG)
  }

  /** Stratum numbers a port by cage, or by cage and channel if it is channelised; unsigned 32-bit
      arithmetic does not wrap here. */
  function StratumId(cage: uint8, channel: uint8): (id: uint32) {
    if channel != 0 then cage * 100 + (channel - 1) else cage
  }

  predicate PortTranslates(model: SwitchModel, p: Port) {
    p.cage in model.cages && SpeedOf(model, p.speed).Some?
  }

  function SingletonOf(model: SwitchModel, p: Port): SingletonPort
    requires PortTranslates(model, p)
  {
    SingletonPort(StratumId(p.cage, p.channel),
                  "Port " + Decimal(p.cage) + "/" + Decimal(if p.channel != 0 then p.channel - 1 else 0),
                  p.cage, p.channel, SpeedOf(model, p.speed).value, p.speed == Autoneg)
  }

  function SingletonEntries(sw: Switch, model: SwitchModel): map<PortKey, SingletonPort> {
    map pk | pk in sw.ports && PortTranslates(model, sw.ports[pk]) :: SingletonOf(model, sw.ports[pk])
  }

  /** `cc` is the chassis configuration of this switch, made from its own ports only. */
  ghost predicate ChassisOf(sw: Switch, model: SwitchModel, cc: Chassis) {
    && cc.description == cc.name == sw.displayName
    && exists order | Visits(order, sw.ports.Keys) ::
         cc.singletonPorts == Emit(SingletonEntries(sw, model), order)
  }

  ghost predicate ChassisFrom(fabric: Fabric, k: string, cc: Chassis) {
    k in KnownSwitches(fabric) && ChassisOf(fabric.switches[k], ModelOf(fabric, fabric.switches[k]), cc)
  }

  lemma StratumIdInjective(cage: uint8, channel: uint8, cage': uint8, channel': uint8)
    requires 1 <= cage <= 99 && 1 <= cage' <= 99 && channel <= 100 && channel' <= 100
    requires StratumId(cage, channel) == StratumId(cage', channel')
    ensures cage == cage' && channel == channel'
  {
    assert channel != 0 && channel' != 0 ==> cage * 100 + channel == cage' * 100 + channel';
  }

  /** Cages from `lo` to `hi` with channels up to `top` get pairwise distinct Stratum IDs if and only
      if the cages stay within 1..99 and the channels within 100. */
  lemma StratumIdBoundIsExact(lo: uint8, hi: uint8, top: uint8)
    requires lo <= 1 && 2 <= hi && 2 <= top
    ensures (forall c: uint8, h: uint8, c': uint8, h': uint8 |
               lo <= c <= hi && lo <= c' <= hi && h <= top && h' <= top
               && StratumId(c, h) == StratumId(c', h') :: c == c' && h == h')
            <==> 1 <= lo && hi <= 99 && top <= 100
  {
    if 1 <= lo && hi <= 99 && top <= 100 {
      forall c: uint8, h: uint8, c': uint8, h': uint8 |
        lo <= c <= hi && lo <= c' <= hi && h <= top && h' <= top && StratumId(c, h) == StratumId(c', h')
        ensures c == c' && h == h'
      {
        StratumIdInjective(c, h, c', h');
      }
    } else if lo < 1 {
      assert StratumId(0, 2) == 1 == StratumId(1, 0);
    } else if hi > 99 {
      assert StratumId(100, 0) == 100 == StratumId(1, 1);
    } else {
      assert StratumId(1, 101) == 200 == StratumId(2, 1);
    }
  }

  predicate StratumNumbered(sw: Switch) {
    forall pk | pk in sw.ports ::
      pk == PortKey(sw.ports[pk].cage, sw.ports[pk].channel) && 1 <= pk.cage <= 99 && pk.channel <= 100
  }

  lemma SomeChassis(fabric: Fabric, k: string) returns (cc: Chassis)
    requires k in KnownSwitches(fabric)
    ensures ChassisFrom(fabric, k, cc)
  {
    var sw := fabric.switches[k];
    var order := SomeOrder(sw.ports.Keys);
    cc := Chassis(sw.displayName, sw.displayName, Emit(SingletonEntries(sw, ModelOf(fabric, sw)), order));
  }

  /** A netconfig without devices, as when no SID can be obtained. */
  lemma SomeNetConfig(ip: string -> Option<Ip>, fabric: Fabric) returns (nc: NetConfig)
    ensures NetConfigFrom(ip, fabric, {}, map[], nc) && nc.devices == map[]
  {
    var order := SomeOrder(fabric.routes.Keys);
    nc := NetConfig(map[], map[], AppsWith(Emit(RouteEntries(fabric), order)));
  }

  /** A chassis configuration has exactly one entry for each port that translates and none else. */
  lemma ChassisExact(sw: Switch, model: SwitchModel, cc: Chassis)
    requires ChassisOf(sw, model, cc)
    ensures |cc.singletonPorts| == |SingletonEntries(sw, model)|
    ensures forall sp :: sp in cc.singletonPorts <==> sp in SingletonEntries(sw, model).Values
  {
    var m := SingletonEntries(sw, model);
    var order :| Visits(order, sw.ports.Keys) && cc.singletonPorts == Emit(m, order);
    hide SingletonOf, PortTranslates, Visits;
    EmittedExactly(m, order, sw.ports.Keys);
    assert |m| == |m.Keys|;
  }

  /** A speed of a port, in tenths of a gigabit per second. */
  function TenthsOfGigabits(speed: Speed): nat {
    match speed
    case G1 => 10 case G2_5 => 25 case G5 => 50 case G10 | Autoneg => 100 case G25 => 250 case G40 => 400
    case G100 => 1000 case G400 => 4000 case Unspecified => 0
  }

  /** The port of a chassis configuration that this is, as its number and name say, with its own speed, or the
      starting bandwidth of the model. */
  ghost predicate ReadsAs(sp: SingletonPort, pk: PortKey, model: SwitchModel, p: Port) {
    && PortKey(sp.port, sp.channel) == pk
    && (if pk.channel == 0 then sp.id == pk.cage
        else sp.id / 100 == pk.cage && sp.id % 100 == pk.channel - 1)
    && (exists a, b | AllDigits(a) && AllDigits(b) ::
          sp.name == "Port " + a + "/" + b && Value(a) == pk.cage
          && Value(b) == if pk.channel == 0 then 0 else pk.channel - 1)
    && (sp.autoneg <==> p.speed == Autoneg)
    && var key := "autoneg-starting-bandwidth";
       if sp.autoneg && key in model.attributes then ParseUint64(model.attributes[key]) == Some(sp.speedBps)
       else sp.speedBps == TenthsOfGigabits(p.speed) * 100_000_000
  }

  /** A chassis configuration is about exactly the ports that translate, and numbers and names each of them
      by its own cage and channel. */
  lemma ChassisDecodes(sw: Switch, model: SwitchModel, cc: Chassis)
    requires ChassisOf(sw, model, cc) && StratumNumbered(sw)
    ensures (set sp | sp in cc.singletonPorts :: PortKey(sp.port, sp.channel))
            == set pk | pk in sw.ports && PortTranslates(model, sw.ports[pk])
    ensures forall sp | sp in cc.singletonPorts ::
              var pk := PortKey(sp.port, sp.channel);
              pk in sw.ports && ReadsAs(sp, pk, model, sw.ports[pk])
  {
    hide ChassisOf, ReadsAs, SpeedOf;
    var m := SingletonEntries(sw, model);
    ChassisExact(sw, model, cc);
    forall pk | pk in m
      ensures ReadsAs(m[pk], pk, model, sw.ports[pk]) && PortKey(m[pk].port, m[pk].channel) == pk
    {
      SingletonReads(model, sw.ports[pk]);
    }
    var shown := set sp | sp in cc.singletonPorts :: PortKey(sp.port, sp.channel);
    forall pk
      ensures pk in shown <==> pk in m
    {
      if pk in m { assert m[pk] in cc.singletonPorts; }
    }
    assert m.Keys == set pk | pk in sw.ports && PortTranslates(model, sw.ports[pk]);
    assert shown == m.Keys;
  }

  lemma SingletonReads(model: SwitchModel, p: Port)
    requires PortTranslates(model, p) && 1 <= p.cage <= 99 && p.channel <= 100
    ensures ReadsAs(SingletonOf(model, p), PortKey(p.cage, p.channel), model, p)
  {
    hide Decimal, Value, AllDigits, ParseUint64;
    var c: nat := if p.channel != 0 then p.channel - 1 else 0;
    DecimalReads(p.cage);
    DecimalReads(c);
    assert SingletonOf(model, p).name == "Port " + Decimal(p.cage) + "/" + Decimal(c);
    hide StratumId;
    assert if p.channel == 0 then SingletonOf(model, p).id == p.cage
           else SingletonOf(model, p).id / 100 == p.cage && SingletonOf(model, p).id % 100 == p.channel - 1 by {
      StratumIdReads(p.cage, p.channel);
    }
  }

  lemma StratumIdReads(cage: uint8, channel: uint8)
    requires channel <= 100
    ensures if channel == 0 then StratumId(cage, channel) == cage
            else StratumId(cage, channel) / 100 == cage && StratumId(cage, channel) % 100 == channel - 1
  {
  }

  /** The port IDs of a chassis configuration are pairwise distinct. */
  lemma ChassisIdsDistinct(sw: Switch, model: SwitchModel, cc: Chassis)
    requires ChassisOf(sw, model, cc) && StratumNumbered(sw)
    ensures forall i, j | 0 <= i < j < |cc.singletonPorts| ::
              cc.singletonPorts[i].id != cc.singletonPorts[j].id
  {
    var m := SingletonEntries(sw, model);
    var order :| Visits(order, sw.ports.Keys) && cc.singletonPorts == Emit(m, order);
    EmitAt(m, order);
    var ks := Emitting(m, order);
    forall i, j | 0 <= i < j < |ks|
      ensures cc.singletonPorts[i].id != cc.singletonPorts[j].id
    {
      assert ks[i] in ks && ks[j] in ks && ks[i] != ks[j];
      DifferentPorts(sw, model, ks[i], ks[j]);
    }
  }

  lemma DifferentPorts(sw: Switch, model: SwitchModel, a: PortKey, b: PortKey)
    requires StratumNumbered(sw) && a != b
    requires a in SingletonEntries(sw, model) && b in SingletonEntries(sw, model)
    ensures SingletonEntries(sw, model)[a].id != SingletonEntries(sw, model)[b].id
  {
    if StratumId(a.cage, a.channel) == StratumId(b.cage, b.channel) {
      StratumIdInjective(a.cage, a.channel, b.cage, b.channel);
    }
  }

  lemma {:induction false} Cardinality<T(!new)>(s: seq<T>, keys: set<T>)
    requires Visits(s, keys)
    ensures |s| == |keys|
    decreases |s|
  {
    if s == [] {
      assert forall k :: k in keys <==> k in s;
      assert keys == {};
    } else {
      VisitsRest(s, s, 0, keys);
      Cardinality(s[1..], keys - {s[0]});
    }
  }
}
