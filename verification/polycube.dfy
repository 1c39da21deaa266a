/** The polycube data plane of a node: a simplebridge toward the pods, a router, an lbrp and a
    k8sdispatcher toward the outside, created through the polycube REST API and then wired
    port to port. Each REST request is a Call; a failing request stops the bootstrap. */
module Polycube {
  import opened Basics
  import opened Ipv4
  import opened Mac
  import opened Types
  import opened Effects
  import opened Utils
  import opened Decimal

  // ---------------------------------------------------------------------------------------
  // Cube bodies.

  /** The bridge: one port, "to_r0", toward the router. */
  function BridgeBody(name: string): (b: Bridge)
    ensures b.name == name && b.ports == ["to_r0"]
  {
    Bridge(name, ["to_r0"])
  }

  /** The router's default route: everything not local goes to the node's gateway through
      the external-side port. */
  function DefaultRoute(nodeGw: GwInfo): (rt: RouterRoute)
    ensures rt.network == Cidr4(IPNet(0, 0)) && rt.nexthop == nodeGw.ipnet.ip && rt.iface == "to_lbrp0"
  {
    RouterRoute(Cidr4(IPNet(0, 0)), nodeGw.ipnet.ip, "to_lbrp0")
  }

  /** The router: "to_br0" carries the pod gateway address and MAC, "to_vxlan0" has neither,
      "to_lbrp0" carries the external interface's address and MAC; one default route via the
      node's gateway and a static ARP entry giving that gateway's MAC. */
  function RouterBody(name: string, ext: Iface, podGw: GwInfo, nodeGw: GwInfo): (r: Router)
    ensures r.name == name && |r.ports| == 3
    ensures r.ports[0] == RouterPort("to_br0", Some(podGw.ipnet), Some(podGw.mac))
    ensures r.ports[1] == RouterPort("to_vxlan0", None, None)
    ensures r.ports[2] == RouterPort("to_lbrp0", Some(ext.ipnet), Some(ext.link.mac))
    ensures r.routes == [DefaultRoute(nodeGw)]
    ensures r.arp == [ArpEntry(nodeGw.ipnet.ip, nodeGw.mac, "to_lbrp0")]
  {
    Router(name,
      [ RouterPort("to_br0", Some(podGw.ipnet), Some(podGw.mac)),
        RouterPort("to_vxlan0", None, None),
        RouterPort("to_lbrp0", Some(ext.ipnet), Some(ext.link.mac)) ],
      [DefaultRoute(nodeGw)],
      [ArpEntry(nodeGw.ipnet.ip, nodeGw.mac, "to_lbrp0")])
  }

  /** The lbrp: "to_r0" is its backend side, "to_k0" its frontend side. */
  function LbrpBody(name: string): (lb: Lbrp)
    ensures lb.name == name
    ensures lb.ports == [TypedPort("to_r0", "backend"), TypedPort("to_k0", "frontend")]
  {
    Lbrp(name, [TypedPort("to_r0", "backend"), TypedPort("to_k0", "frontend")])
  }

  const ClusterIpSubnet: string := "11.11.11.0/24"
  const InternalSrcIp: string := "3.3.1.3"
  const NodePortRange: string := "30000-32767"

  /** The k8sdispatcher as first created: only its backend port "to_lbrp0"; the pods' CIDR is
      its client subnet, and the other settings are fixed values. */
  function DispatcherBody(name: string, podCidr: IPNet): (k: Dispatcher)
    ensures k.name == name && k.ports == [TypedPort("to_lbrp0", "BACKEND")]
    ensures k.clientSubnet == podCidr
    ensures k.clusterIpSubnet == ClusterIpSubnet && k.internalSrcIp == InternalSrcIp
    ensures k.nodePortRange == NodePortRange
  {
    Dispatcher(name, [TypedPort("to_lbrp0", "BACKEND")], ClusterIpSubnet, podCidr, InternalSrcIp, NodePortRange)
  }

  /** The frontend port added to the k8sdispatcher by a request of its own. */
  const DispatcherIntPort: TypedPort := TypedPort("to_int", "FRONTEND")

  // ---------------------------------------------------------------------------------------
  // Router consistency.

  function PortNames(ports: seq<RouterPort>): (ns: seq<string>)
    ensures |ns| == |ports| && forall i | 0 <= i < |ports| :: ns[i] == ports[i].name
  {
    seq(|ports|, i requires 0 <= i < |ports| => ports[i].name)
  }

  /** A router whose ports have distinct names, whose routes and ARP entries leave through
      ports it has, and whose every next hop is resolved by an ARP entry on the route's port. */
  predicate RouterWellFormed(r: Router) {
    var names := PortNames(r.ports);
    && (forall i, j | 0 <= i < j < |names| :: names[i] != names[j])
    && (forall k | 0 <= k < |r.routes| :: r.routes[k].iface in names)
    && (forall k | 0 <= k < |r.arp| :: r.arp[k].iface in names)
    && (forall k | 0 <= k < |r.routes| :: exists e | 0 <= e < |r.arp| ::
          r.arp[e].address == r.routes[k].nexthop && r.arp[e].iface == r.routes[k].iface)
  }

  /** The router body is well formed, and its default next hop resolves to the node gateway's
      MAC on the external-side port, the port that carries the external interface's address. */
  lemma RouterBodyWellFormed(name: string, ext: Iface, podGw: GwInfo, nodeGw: GwInfo)
    ensures RouterWellFormed(RouterBody(name, ext, podGw, nodeGw))
    ensures var r := RouterBody(name, ext, podGw, nodeGw);
      forall k, e | 0 <= k < |r.routes| && 0 <= e < |r.arp| && r.arp[e].address == r.routes[k].nexthop ::
        r.arp[e].mac == nodeGw.mac && r.arp[e].iface == "to_lbrp0"
    ensures var r := RouterBody(name, ext, podGw, nodeGw);
      forall k, p | 0 <= k < |r.routes| && 0 <= p < |r.ports| && r.ports[p].name == r.routes[k].iface ::
        r.ports[p].ip == Some(ext.ipnet) && r.ports[p].mac == Some(ext.link.mac)
  {
    var r := RouterBody(name, ext, podGw, nodeGw);
    var names := PortNames(r.ports);
    assert names == ["to_br0", "to_vxlan0", "to_lbrp0"];
    assert r.arp[0].address == r.routes[0].nexthop && r.arp[0].iface == r.routes[0].iface;
  }

  /** The default route's destination is the text "0.0.0.0/0". */
  lemma DefaultRouteText(nodeGw: GwInfo)
    ensures DefaultRoute(nodeGw).network == ParseCidr("0.0.0.0/0")
  {
    var n := IPNet(0, 0);
    assert IsNetwork(n) by {
      Pow2Values();
    }
    assert Octets(0) == [0, 0, 0, 0];
    assert Itoa(0) == "0";
    assert FormatIp(0) == "0.0.0.0";
    assert FormatCidr(n) == "0.0.0.0/0";
    ParseFormatCidr(n);
  }

  // ---------------------------------------------------------------------------------------
  // Creation.

  /** The two requests of CreateK8sDispatcher: the cube, then its "to_int" port. */
  function DispatcherCalls(name: string, podCidr: IPNet): (cs: seq<Call>)
    ensures |cs| == 2
    ensures cs[0] == CreateDispatcher(DispatcherBody(name, podCidr))
    ensures cs[1] == CreateDispatcherPort(name, DispatcherIntPort)
  {
    [CreateDispatcher(DispatcherBody(name, podCidr)), CreateDispatcherPort(name, DispatcherIntPort)]
  }

  /** CreateK8sDispatcher: the "to_int" port is requested only once the cube exists. */
  function CreateK8sDispatcher(api: Call -> bool, name: string, podCidr: IPNet): (r: Exec)
    ensures !api(CreateDispatcher(DispatcherBody(name, podCidr))) ==>
      r == Exec([CreateDispatcher(DispatcherBody(name, podCidr))], Failed(CallFailed(CreateDispatcher(DispatcherBody(name, podCidr)))))
    ensures CreateDispatcherPort(name, DispatcherIntPort) in r.trace ==> api(CreateDispatcher(DispatcherBody(name, podCidr)))
    ensures r.outcome.Done? <==> api(CreateDispatcher(DispatcherBody(name, podCidr))) && api(CreateDispatcherPort(name, DispatcherIntPort))
  {
    var cs := DispatcherCalls(name, podCidr);
    var r := RunCalls(api, cs);
    assert CreateDispatcherPort(name, DispatcherIntPort) in r.trace ==> |r.trace| == 2;
    r
  }

  /** The creation requests of CreateCubes, in order: bridge, router, lbrp, k8sdispatcher and
      its "to_int" port. */
  function CreationCalls(conf: EnvConf, info: NodeInfo): (cs: seq<Call>)
    ensures |cs| == 5
    ensures cs[0] == CreateBridge(BridgeBody(conf.bridgeName))
    ensures cs[1] == CreateRouter(RouterBody(conf.routerName, info.extIface, info.podGw, info.nodeGw))
    ensures cs[2] == CreateLbrp(LbrpBody(conf.lbrpName))
    ensures cs[3..] == DispatcherCalls(conf.k8sDispName, info.podCidr)
  {
    [ CreateBridge(BridgeBody(conf.bridgeName)),
      CreateRouter(RouterBody(conf.routerName, info.extIface, info.podGw, info.nodeGw)),
      CreateLbrp(LbrpBody(conf.lbrpName)) ]
    + DispatcherCalls(conf.k8sDispName, info.podCidr)
  }

  /** The cube a creation request creates or extends, if any. */
  function CubeOf(c: Call): Option<(CubeKind, string)> {
    match c
    case CreateBridge(b) => Some((Simplebridge, b.name))
    case CreateRouter(r) => Some((RouterCube, r.name))
    case CreateLbrp(lb) => Some((LbrpCube, lb.name))
    case CreateDispatcher(k) => Some((K8sDispatcher, k.name))
    case CreateDispatcherPort(cube, _) => Some((K8sDispatcher, cube))
    case _ => None
  }

  /** The port names a creation request declares. */
  function DeclaredPorts(c: Call): seq<string> {
    match c
    case CreateBridge(b) => b.ports
    case CreateRouter(r) => PortNames(r.ports)
    case CreateLbrp(lb) => seq(|lb.ports|, i requires 0 <= i < |lb.ports| => lb.ports[i].name)
    case CreateDispatcher(k) => seq(|k.ports|, i requires 0 <= i < |k.ports| => k.ports[i].name)
    case CreateDispatcherPort(_, p) => [p.name]
    case _ => []
  }

  /** Request `c` declares port `port` on the cube `cube` of kind `kind`. */
  predicate Declares(c: Call, kind: CubeKind, cube: string, port: string) {
    CubeOf(c) == Some((kind, cube)) && port in DeclaredPorts(c)
  }

  // ---------------------------------------------------------------------------------------
  // Wiring.

  /** The eight peer updates of ConnectCubes, in order, with the peer of the router's overlay
      port as a parameter. A peer is "<cube>:<port>" for a port of another cube, or the name of
      a host interface: `vxlanPeer` for the router's "to_vxlan0", and the external interface for
      the k8sdispatcher's "to_int". */
  function WiringCallsVia(conf: EnvConf, ext: Iface, vxlanPeer: string): (ws: seq<Call>)
    ensures |ws| == 8 && forall i | 0 <= i < |ws| :: ws[i].SetPortPeer?
  {
    var br := conf.bridgeName;
    var r := conf.routerName;
    var lb := conf.lbrpName;
    var k := conf.k8sDispName;
    [ SetPortPeer(Simplebridge, br, "to_r0", CreatePeer(r, "to_br0")),
      SetPortPeer(RouterCube, r, "to_br0", CreatePeer(br, "to_r0")),
      SetPortPeer(RouterCube, r, "to_vxlan0", vxlanPeer),
      SetPortPeer(RouterCube, r, "to_lbrp0", CreatePeer(lb, "to_r0")),
      SetPortPeer(LbrpCube, lb, "to_r0", CreatePeer(r, "to_lbrp0")),
      SetPortPeer(LbrpCube, lb, "to_k0", CreatePeer(k, "to_lbrp0")),
      SetPortPeer(K8sDispatcher, k, "to_lbrp0", CreatePeer(lb, "to_k0")),
      SetPortPeer(K8sDispatcher, k, "to_int", ext.link.name) ]
  }

  /** The wiring as the source writes it: the overlay port's peer is the literal "vxlan0",
      whatever name the vxlan interface was created with. */
  function WiringCallsAsWritten(conf: EnvConf, ext: Iface): (ws: seq<Call>)
    ensures |ws| == 8 && ws[2] == SetPortPeer(RouterCube, conf.routerName, "to_vxlan0", "vxlan0")
  {
    WiringCallsVia(conf, ext, "vxlan0")
  }

  /** The wiring with the overlay port's peer set to the configured vxlan interface name. */
  function WiringCalls(conf: EnvConf, ext: Iface): (ws: seq<Call>)
    ensures |ws| == 8 && ws[2] == SetPortPeer(RouterCube, conf.routerName, "to_vxlan0", conf.vxlanIfName)
    ensures forall i | 0 <= i < |ws| :: ws[i].SetPortPeer?
  {
    WiringCallsVia(conf, ext, conf.vxlanIfName)
  }

  /** The router's overlay port as written points at "vxlan0", which is not the vxlan interface
      when the configuration names that interface otherwise; the corrected wiring points at the
      configured name. With the default name both agree. */
  lemma OverlayPeerMismatch(conf: EnvConf, ext: Iface)
    ensures conf.vxlanIfName != "vxlan0" ==> WiringCallsAsWritten(conf, ext)[2].peer != conf.vxlanIfName
    ensures WiringCalls(conf, ext)[2].peer == conf.vxlanIfName
    ensures forall i | 0 <= i < 8 && i != 2 :: WiringCallsAsWritten(conf, ext)[i] == WiringCalls(conf, ext)[i]
    ensures conf.vxlanIfName == "vxlan0" ==> WiringCallsAsWritten(conf, ext) == WiringCalls(conf, ext)
  {
  }

  /** The peer of the router's overlay port: "vxlan0" as written, the configured vxlan
      interface name once corrected. */
  function OverlayPeer(naming: Naming, conf: EnvConf): string {
    match naming
    case AsWritten => "vxlan0"
    case Configured => conf.vxlanIfName
  }

  /** The wiring under either naming: the source's own with AsWritten, the corrected one with
      Configured. Only the overlay port's peer depends on the naming. */
  function Wiring(naming: Naming, conf: EnvConf, ext: Iface): (ws: seq<Call>)
    ensures naming.AsWritten? ==> ws == WiringCallsAsWritten(conf, ext)
    ensures naming.Configured? ==> ws == WiringCalls(conf, ext)
    ensures |ws| == 8 && forall i | 0 <= i < |ws| :: ws[i].SetPortPeer?
    ensures ws[2] == SetPortPeer(RouterCube, conf.routerName, "to_vxlan0", OverlayPeer(naming, conf))
  {
    WiringCallsVia(conf, ext, OverlayPeer(naming, conf))
  }

  /** ConnectCubes: the eight peer updates, stopping at the first that fails. With AsWritten
      this is the source's function. */
  function ConnectCubes(naming: Naming, api: Call -> bool, conf: EnvConf, ext: Iface): (r: Exec)
    ensures r.outcome.Done? <==> AllSucceed(api, Wiring(naming, conf, ext))
    ensures r.outcome.Done? ==> r.trace == Wiring(naming, conf, ext)
    ensures r.trace <= Wiring(naming, conf, ext)
    ensures forall i | 0 <= i < |r.trace| :: r.trace[i].SetPortPeer?
  {
    RunCalls(api, Wiring(naming, conf, ext))
  }

  /** None of the four cube names holds ':', so peer references split back unambiguously. */
  predicate PlainNames(conf: EnvConf) {
    ':' !in conf.bridgeName && ':' !in conf.routerName && ':' !in conf.lbrpName && ':' !in conf.k8sDispName
  }

  /** Wiring call i names a port of another cube, and that port is wired back to port i. */
  predicate WiredBack(ws: seq<Call>, i: int)
    requires 0 <= i < |ws| && forall j | 0 <= j < |ws| :: ws[j].SetPortPeer?
  {
    SplitPeer(ws[i].peer).Some? ==>
      exists j | 0 <= j < |ws| ::
        && ws[j].cube == SplitPeer(ws[i].peer).value.0
        && ws[j].port == SplitPeer(ws[i].peer).value.1
        && SplitPeer(ws[j].peer) == Some((ws[i].cube, ws[i].port))
  }

  /** Two wiring calls that name each other's cube and port are each wired back. */
  lemma PairWiredBack(ws: seq<Call>, i: int, j: int)
    requires 0 <= i < |ws| && 0 <= j < |ws| && forall k | 0 <= k < |ws| :: ws[k].SetPortPeer?
    requires ':' !in ws[i].cube && ':' !in ws[j].cube
    requires ws[i].peer == CreatePeer(ws[j].cube, ws[j].port) && ws[j].peer == CreatePeer(ws[i].cube, ws[i].port)
    ensures WiredBack(ws, i) && WiredBack(ws, j)
  {
    SplitCreatePeer(ws[j].cube, ws[j].port);
    SplitCreatePeer(ws[i].cube, ws[i].port);
  }

  /** Every cube-to-cube link is set from both ends: when port A names port B as its peer, port
      B names port A. */
  lemma WiringSymmetric(naming: Naming, conf: EnvConf, ext: Iface)
    requires PlainNames(conf) && ':' !in ext.link.name && ':' !in OverlayPeer(naming, conf)
    ensures var ws := Wiring(naming, conf, ext);
      forall i | 0 <= i < |ws| :: WiredBack(ws, i)
  {
    var ws := Wiring(naming, conf, ext);
    forall i | 0 <= i < |ws| ensures WiredBack(ws, i) {
      if i == 0 || i == 1 {
        PairWiredBack(ws, 0, 1);
      } else if i == 3 || i == 4 {
        PairWiredBack(ws, 3, 4);
      } else if i == 5 || i == 6 {
        PairWiredBack(ws, 5, 6);
      } else {
        assert ':' !in ws[i].peer;
      }
    }
  }

  lemma PeerHasColon(service: string, port: string)
    ensures ':' in CreatePeer(service, port)
  {
    assert CreatePeer(service, port)[|service|] == ':';
  }

  /** Exactly two ports face the host rather than another cube: the router's "to_vxlan0",
      whose peer is the overlay peer name, and the k8sdispatcher's "to_int", whose peer is the
      external interface. */
  lemma HostFacingPorts(naming: Naming, conf: EnvConf, ext: Iface)
    requires ':' !in ext.link.name && ':' !in OverlayPeer(naming, conf)
    ensures var ws := Wiring(naming, conf, ext);
      forall i | 0 <= i < |ws| :: SplitPeer(ws[i].peer).None? <==> i == 2 || i == 7
    ensures Wiring(naming, conf, ext)[2].peer == OverlayPeer(naming, conf) && Wiring(naming, conf, ext)[2].port == "to_vxlan0"
    ensures Wiring(naming, conf, ext)[7].peer == ext.link.name && Wiring(naming, conf, ext)[7].port == "to_int"
  {
    var ws := Wiring(naming, conf, ext);
    forall i | 0 <= i < |ws| ensures SplitPeer(ws[i].peer).None? <==> i == 2 || i == 7 {
      if i == 2 {
        assert ':' !in ws[i].peer;
      } else if i == 7 {
      } else if i == 0 {
        PeerHasColon(conf.routerName, "to_br0");
      } else if i == 1 {
        PeerHasColon(conf.bridgeName, "to_r0");
      } else if i == 3 {
        PeerHasColon(conf.lbrpName, "to_r0");
      } else if i == 4 {
        PeerHasColon(conf.routerName, "to_lbrp0");
      } else if i == 5 {
        PeerHasColon(conf.k8sDispName, "to_lbrp0");
      } else {
        PeerHasColon(conf.lbrpName, "to_k0");
      }
    }
  }

  lemma CreationDeclarations(conf: EnvConf, info: NodeInfo)
    ensures var cs := CreationCalls(conf, info);
      && DeclaredPorts(cs[0]) == ["to_r0"]
      && DeclaredPorts(cs[1]) == ["to_br0", "to_vxlan0", "to_lbrp0"]
      && DeclaredPorts(cs[2]) == ["to_r0", "to_k0"]
      && DeclaredPorts(cs[3]) == ["to_lbrp0"]
      && DeclaredPorts(cs[4]) == ["to_int"]
  {
    var cs := CreationCalls(conf, info);
    assert cs[3] == CreateDispatcher(DispatcherBody(conf.k8sDispName, info.podCidr)) by {
      assert cs[3] == cs[3..][0];
    }
    assert cs[4] == CreateDispatcherPort(conf.k8sDispName, DispatcherIntPort) by {
      assert cs[4] == cs[3..][1];
    }
  }

  /** Every wired port was declared by the creation of its cube. */
  lemma WiredPortsDeclared(naming: Naming, conf: EnvConf, info: NodeInfo)
    ensures var cs := CreationCalls(conf, info);
      var ws := Wiring(naming, conf, info.extIface);
      forall i | 0 <= i < |ws| :: exists j | 0 <= j < |cs| :: Declares(cs[j], ws[i].kind, ws[i].cube, ws[i].port)
  {
    var cs := CreationCalls(conf, info);
    var ws := Wiring(naming, conf, info.extIface);
    CreationDeclarations(conf, info);
    forall i | 0 <= i < |ws| ensures exists j | 0 <= j < |cs| :: Declares(cs[j], ws[i].kind, ws[i].cube, ws[i].port) {
      if i == 0 {
        assert Declares(cs[0], ws[i].kind, ws[i].cube, ws[i].port);
      } else if i <= 3 {
        assert Declares(cs[1], ws[i].kind, ws[i].cube, ws[i].port);
      } else if i <= 5 {
        assert Declares(cs[2], ws[i].kind, ws[i].cube, ws[i].port);
      } else if i == 6 {
        assert Declares(cs[3], ws[i].kind, ws[i].cube, ws[i].port);
      } else {
        assert Declares(cs[4], ws[i].kind, ws[i].cube, ws[i].port);
      }
    }
  }

  /** Every port declared by a creation request is wired. */
  lemma DeclaredPortsWired(naming: Naming, conf: EnvConf, info: NodeInfo)
    ensures var cs := CreationCalls(conf, info);
      var ws := Wiring(naming, conf, info.extIface);
      forall j, p | 0 <= j < |cs| && p in DeclaredPorts(cs[j]) ::
        exists i | 0 <= i < |ws| :: CubeOf(cs[j]) == Some((ws[i].kind, ws[i].cube)) && ws[i].port == p
  {
    var cs := CreationCalls(conf, info);
    var ws := Wiring(naming, conf, info.extIface);
    CreationDeclarations(conf, info);
    forall j, p | 0 <= j < |cs| && p in DeclaredPorts(cs[j])
      ensures exists i | 0 <= i < |ws| :: CubeOf(cs[j]) == Some((ws[i].kind, ws[i].cube)) && ws[i].port == p
    {
      if j == 0 {
        assert CubeOf(cs[j]) == Some((ws[0].kind, ws[0].cube)) && ws[0].port == p;
      } else if j == 1 {
        if p == "to_br0" {
          assert CubeOf(cs[j]) == Some((ws[1].kind, ws[1].cube)) && ws[1].port == p;
        } else if p == "to_vxlan0" {
          assert CubeOf(cs[j]) == Some((ws[2].kind, ws[2].cube)) && ws[2].port == p;
        } else {
          assert CubeOf(cs[j]) == Some((ws[3].kind, ws[3].cube)) && ws[3].port == p;
        }
      } else if j == 2 {
        if p == "to_r0" {
          assert CubeOf(cs[j]) == Some((ws[4].kind, ws[4].cube)) && ws[4].port == p;
        } else {
          assert CubeOf(cs[j]) == Some((ws[5].kind, ws[5].cube)) && ws[5].port == p;
        }
      } else if j == 3 {
        assert CubeOf(cs[j]) == Some((ws[6].kind, ws[6].cube)) && ws[6].port == p;
      } else {
        assert CubeOf(cs[j]) == Some((ws[7].kind, ws[7].cube)) && ws[7].port == p;
      }
    }
  }

  // ---------------------------------------------------------------------------------------
  // CreateCubes.

  /** CreateCubes: all creation requests, then the wiring; the first failure stops it. With
      AsWritten this is the source's function. */
  function CreateCubes(naming: Naming, api: Call -> bool, conf: EnvConf, info: NodeInfo): (r: Exec)
    ensures r == Then(RunCalls(api, CreationCalls(conf, info)), ConnectCubes(naming, api, conf, info.extIface))
    ensures r.outcome.Done? <==>
      AllSucceed(api, CreationCalls(conf, info)) && AllSucceed(api, Wiring(naming, conf, info.extIface))
  {
    RunCallsAppend(api, CreationCalls(conf, info), Wiring(naming, conf, info.extIface));
    RunCalls(api, CreationCalls(conf, info) + Wiring(naming, conf, info.extIface))
  }

  /** No port is wired unless every cube was created. */
  lemma NoWiringAfterFailedCreation(naming: Naming, api: Call -> bool, conf: EnvConf, info: NodeInfo)
    requires !AllSucceed(api, CreationCalls(conf, info))
    ensures var r := CreateCubes(naming, api, conf, info);
      r.outcome.Failed? && forall i | 0 <= i < |r.trace| :: !r.trace[i].SetPortPeer?
  {
    var cs := CreationCalls(conf, info);
    var first := RunCalls(api, cs);
    assert first.outcome.Failed?;
    assert cs[3] == cs[3..][0] && cs[4] == cs[3..][1];
    forall i | 0 <= i < |first.trace| ensures !first.trace[i].SetPortPeer? {
      RunCallsIssuesInOrder(api, cs, i);
    }
    assert CreateCubes(naming, api, conf, info) == first;
  }

  /** A successful CreateCubes issues exactly the thirteen requests, creation first. */
  lemma CreateCubesSuccessTrace(naming: Naming, api: Call -> bool, conf: EnvConf, info: NodeInfo)
    requires CreateCubes(naming, api, conf, info).outcome.Done?
    ensures CreateCubes(naming, api, conf, info).trace == CreationCalls(conf, info) + Wiring(naming, conf, info.extIface)
    ensures |CreateCubes(naming, api, conf, info).trace| == 13
  {
  }
}
