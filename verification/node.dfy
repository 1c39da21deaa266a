/** Node addressing: the pod CIDR and its gateway, the external interface, the VTEP address,
    the uplink gateway, the router's pod-side MAC, the per-peer FDB entry and route, and the
    assembly of NodeInfo. Reads come from a World snapshot; changes are Calls. */
module Nodes {
  import opened Basics
  import opened Decimal
  import opened Ipv4
  import opened Mac
  import opened Types
  import opened Effects

  // ---------------------------------------------------------------------------------------
  // Pod CIDR and pod gateway.

  /** ParseNodePodCIDR: spec.podCIDR must parse as a CIDR, and as an IPv4 one. */
  function ParseNodePodCidr(node: Node): (r: Result<IPNet, Error>)
    ensures r.Ok? <==> ParseCidr(node.podCidr).Cidr4?
    ensures r.Ok? ==> IsNetwork(r.value) && r.value == ParseCidr(node.podCidr).net
    ensures ParseCidr(node.podCidr).Cidr6Form? ==> r == Err(PodCidrNotIPv4(node.name))
    ensures ParseCidr(node.podCidr).CidrInvalid? ==> r == Err(PodCidrMalformed(node.name))
  {
    match ParseCidr(node.podCidr)
    case CidrInvalid => Err(PodCidrMalformed(node.name))
    case Cidr6Form(_) => Err(PodCidrNotIPv4(node.name))
    case Cidr4(n) => Ok(n)
  }

  /** A pod CIDR written as IPNet.String writes a network reads back as that network. */
  lemma ParseNodePodCidrFormatted(node: Node, n: IPNet)
    requires IsNetwork(n) && node.podCidr == FormatCidr(n)
    ensures ParseNodePodCidr(node) == Ok(n)
  {
    ParseFormatCidr(n);
  }

  /** CalcNodePodDefaultGateway: the address just below the broadcast address (`ip | ^mask`),
      with the pod CIDR's mask and no MAC yet. It cannot fail. */
  function CalcNodePodDefaultGateway(podCidr: IPNet): (gw: GwInfo)
    requires IsV4Net(podCidr)
    ensures gw.ipnet.ip == podCidr.ip - podCidr.ip % BlockSize(podCidr.prefix) + BlockSize(podCidr.prefix) - 2
    ensures gw.ipnet.prefix == podCidr.prefix && gw.mac == []
  {
    BroadcastIsBlockEnd(podCidr);
    GwInfo(IPNet(PrevIp(Broadcast(podCidr)), podCidr.prefix), [])
  }

  /** The pod gateway is the address just below the broadcast address `ip | ^mask`, whatever
      the prefix length. */
  lemma PodGatewayBelowBroadcast(podCidr: IPNet)
    requires IsV4Net(podCidr)
    ensures CalcNodePodDefaultGateway(podCidr).ipnet.ip == PrevIp(Broadcast(podCidr))
    ensures CalcNodePodDefaultGateway(podCidr).ipnet.prefix == podCidr.prefix
  {
    BroadcastIsBlockEnd(podCidr);
  }

  /** The pod gateway is the last address of the block other than the broadcast address: it
      lies strictly between the network and broadcast addresses whenever the block has more
      than two addresses. */
  lemma PodGatewayInsideBlock(podCidr: IPNet)
    requires IsNetwork(podCidr) && podCidr.prefix <= 30
    ensures var gw := CalcNodePodDefaultGateway(podCidr).ipnet.ip;
      podCidr.ip < gw < Broadcast(podCidr) && InBlock(podCidr, gw) && gw + 1 == Broadcast(podCidr)
  {
    BroadcastIsBlockEnd(podCidr);
    Pow2Add(2, 30 - podCidr.prefix);
    assert BlockSize(podCidr.prefix) == 4 * Pow2(30 - podCidr.prefix);
  }

  /** A /24 pod CIDR gets the gateway ".254". */
  lemma PodGatewaySlash24(podCidr: IPNet)
    requires IsNetwork(podCidr) && podCidr.prefix == 24
    ensures CalcNodePodDefaultGateway(podCidr).ipnet.ip == podCidr.ip + 254
    ensures CalcNodePodDefaultGateway(podCidr).ipnet.ip % 0x100 == 254
  {
    var b := BlockSize(24);
    assert b == Pow2(8) == 0x100;
    assert podCidr.ip % b == 0;
    var gw := CalcNodePodDefaultGateway(podCidr).ipnet.ip;
    assert gw == podCidr.ip + 254;
    ModOfBlockOffset(podCidr.ip, 254, gw);
  }

  /** An offset below 0x100 from a multiple of 0x100 is its own remainder. */
  lemma ModOfBlockOffset(a: int, k: int, x: int)
    requires a % 0x100 == 0 && 0 <= k < 0x100 && x == a + k
    ensures x % 0x100 == k
  {
  }

  /** A /31 block has no address besides its two ends: the gateway is the network address. */
  lemma PodGatewaySlash31(podCidr: IPNet)
    requires IsNetwork(podCidr) && podCidr.prefix == 31
    ensures CalcNodePodDefaultGateway(podCidr).ipnet.ip == podCidr.ip
  {
  }

  /** A /32 block is a single address: the gateway falls just outside it. */
  lemma PodGatewaySlash32(podCidr: IPNet)
    requires IsNetwork(podCidr) && podCidr.prefix == 32
    ensures CalcNodePodDefaultGateway(podCidr).ipnet.ip == podCidr.ip - 1
    ensures !InBlock(podCidr, CalcNodePodDefaultGateway(podCidr).ipnet.ip)
  {
  }

  // ---------------------------------------------------------------------------------------
  // External interface.

  predicate IsInternal(a: NodeAddress) {
    a.kind == InternalIP
  }

  /** The node's external address: the first InternalIP entry, read with ParseIP (the loop
      stops at that entry whether or not it parses). Invalid stands for the nil IP, which is
      also the answer when the node lists no InternalIP. */
  function InternalIp(node: Node): (r: AddrText)
    ensures (forall i | 0 <= i < |node.addresses| :: !IsInternal(node.addresses[i])) ==> r == Invalid
    ensures r.V4? ==> exists i | 0 <= i < |node.addresses| ::
      && IsInternal(node.addresses[i])
      && ParseIp(node.addresses[i].address) == r
      && forall j | 0 <= j < i :: !IsInternal(node.addresses[j])
    ensures forall i | 0 <= i < |node.addresses| && IsInternal(node.addresses[i])
      && (forall j | 0 <= j < i :: !IsInternal(node.addresses[j])) :: r == ParseIp(node.addresses[i].address)
  {
    match FirstWhere(node.addresses, IsInternal)
    case None => Invalid
    case Some(i) =>
      assert forall k | 0 <= k < |node.addresses| && IsInternal(node.addresses[k])
        && (forall j | 0 <= j < k :: !IsInternal(node.addresses[j])) :: k == i;
      ParseIp(node.addresses[i].address)
  }

  /** IP.Equal between an IPv4 interface address and the node's parsed address. (IPv6 text
      never equals an IPv4 address here: IPv4-mapped IPv6 text is not recognised.) */
  predicate SameIp(a: Addr, ip: AddrText) {
    ip.V4? && ip.addr == a
  }

  /** A link whose address list was read and holds no address equal to `ip`. */
  predicate SearchedInVain(la: LinkAddrs, ip: AddrText) {
    la.addrs.Some? && forall k | 0 <= k < |la.addrs.value| :: !SameIp(la.addrs.value[k].ip, ip)
  }

  /** Link `la`'s address list was read and holds an address equal to `ip`. */
  predicate Holds(la: LinkAddrs, ip: AddrText) {
    la.addrs.Some? && exists k | 0 <= k < |la.addrs.value| :: SameIp(la.addrs.value[k].ip, ip)
  }

  /** Some link holds `ip`, and every link before it had its addresses read. */
  predicate Reachable(links: seq<LinkAddrs>, ip: AddrText) {
    exists i | 0 <= i < |links| :: Holds(links[i], ip) && forall j | 0 <= j < i :: links[j].addrs.Some?
  }

  /** The search stops at link i with `iface`: every earlier link was searched in vain, and
      `iface` pairs link i with its first address equal to `ip`. */
  predicate FoundAt(links: seq<LinkAddrs>, i: int, ip: AddrText, iface: Iface) {
    && 0 <= i < |links|
    && (forall j | 0 <= j < i :: SearchedInVain(links[j], ip))
    && links[i].addrs.Some?
    && iface.link == links[i].link
    && exists k | 0 <= k < |links[i].addrs.value| ::
      && links[i].addrs.value[k] == iface.ipnet
      && SameIp(iface.ipnet.ip, ip)
      && forall m | 0 <= m < k :: !SameIp(links[i].addrs.value[m].ip, ip)
  }

  /** The stopping point found in the tail is one position further in the whole list. */
  lemma FoundAtShift(links: seq<LinkAddrs>, ip: AddrText, iface: Iface)
    requires |links| >= 1 && SearchedInVain(links[0], ip)
    requires exists i :: FoundAt(links[1..], i, ip, iface)
    ensures exists i :: FoundAt(links, i, ip, iface)
  {
    var i :| FoundAt(links[1..], i, ip, iface);
    assert forall j | 1 <= j < i + 1 :: links[j] == links[1..][j - 1];
    assert FoundAt(links, i + 1, ip, iface);
  }

  /** The loop over the link list: for each link in order, read its IPv4 addresses (an error
      stops the search), and return the first address equal to `ip`. */
  function ScanLinks(links: seq<LinkAddrs>, ip: AddrText, node: string): (r: Result<Iface, Error>)
    ensures r.Ok? ==> exists i :: FoundAt(links, i, ip, r.value)
    ensures Reachable(links, ip) ==> r.Ok?
    ensures r == Err(ExtIfaceNotFound(node)) <==> forall i | 0 <= i < |links| :: SearchedInVain(links[i], ip)
    ensures r.Err? ==> r.error == ExtIfaceNotFound(node) || exists i | 0 <= i < |links| ::
      && links[i].addrs.None?
      && r.error == AddrListFailed(links[i].link.name)
      && forall j | 0 <= j < i :: SearchedInVain(links[j], ip)
    decreases |links|
  {
    if |links| == 0 then Err(ExtIfaceNotFound(node))
    else
      match links[0].addrs
      case None => Err(AddrListFailed(links[0].link.name))
      case Some(addrs) =>
        match FirstWhere(addrs, (a: IPNet) => SameIp(a.ip, ip))
        case Some(k) =>
          var iface := Iface(addrs[k], links[0].link);
          assert FoundAt(links, 0, ip, iface);
          Ok(iface)
        case None =>
          var rest := ScanLinks(links[1..], ip, node);
          assert SearchedInVain(links[0], ip);
          assert forall j | 1 <= j < |links| :: links[j] == links[1..][j - 1];
          if rest.Ok? then
            FoundAtShift(links, ip, rest.value);
            rest
          else if rest.error == ExtIfaceNotFound(node) then rest
          else
            var i :| 0 <= i < |links[1..]| && links[1..][i].addrs.None?
              && rest.error == AddrListFailed(links[1..][i].link.name)
              && forall j | 0 <= j < i :: SearchedInVain(links[1..][j], ip);
            assert links[i + 1].addrs.None? && forall j | 0 <= j < i + 1 :: SearchedInVain(links[j], ip);
            rest
  }

  /** GetNodeExtIface: the interface holding the node's InternalIP. */
  function GetNodeExtIface(node: Node, links: Option<seq<LinkAddrs>>): (r: Result<Iface, Error>)
    ensures r.Ok? ==> InternalIp(node) == V4(r.value.ipnet.ip)
    ensures r.Ok? ==> links.Some? && exists i :: FoundAt(links.value, i, InternalIp(node), r.value)
    ensures InternalIp(node).Invalid? ==> r == Err(ExtIfaceIpMissing(node.name))
    ensures !InternalIp(node).Invalid? && links.None? ==> r == Err(LinkListFailed)
    ensures InternalIp(node).V6Form? ==> r.Err?
    ensures InternalIp(node).V4? && links.Some? && Reachable(links.value, InternalIp(node)) ==> r.Ok?
  {
    var ip := InternalIp(node);
    if ip.Invalid? then Err(ExtIfaceIpMissing(node.name))
    else
      match links
      case None => Err(LinkListFailed)
      case Some(ls) => ScanLinks(ls, ip, node.name)
  }

  // ---------------------------------------------------------------------------------------
  // VTEP address.

  /** ip.NextIP applied n times: the loop `for i := 0; i < n; i++` runs no step for n <= 0. */
  function AdvanceIp(a: Addr, n: int): (r: Addr)
    ensures n >= 0 ==> r == a + n
    ensures n <= 0 ==> r == a
    decreases n
  {
    if n <= 0 then a else NextIp(AdvanceIp(a, n - 1))
  }

  /** The same loop, run step by step. */
  method AdvanceIpLoop(a: Addr, n: int) returns (r: Addr)
    ensures r == AdvanceIp(a, n)
  {
    r := a;
    var i := 0;
    while i < n
      invariant n <= 0 ==> i == 0
      invariant n > 0 ==> 0 <= i <= n
      invariant r == a + i
    {
      r := NextIp(r);
      i := i + 1;
    }
  }

  /** CalcNodeVtepIPNet: the worker ordinal is strconv.Atoi of the name without its "worker"
      prefix; the VTEP is the pool's address advanced that many times, with the pool's mask.
      Nothing keeps the result inside the pool. */
  function CalcNodeVtepIPNet(node: Node, vtepCidr: IPNet): (r: Result<IPNet, Error>)
    ensures r.Ok? <==> Atoi(TrimPrefix(node.name, "worker")).Some?
    ensures r.Err? ==> r.error == VtepOrdinalInvalid(node.name)
    ensures r.Ok? ==> r.value.prefix == vtepCidr.prefix
    ensures r.Ok? ==> var n := Atoi(TrimPrefix(node.name, "worker")).value;
      r.value.ip == vtepCidr.ip + (if n > 0 then n else 0)
  {
    match Atoi(TrimPrefix(node.name, "worker"))
    case None => Err(VtepOrdinalInvalid(node.name))
    case Some(n) => Ok(IPNet(AdvanceIp(vtepCidr.ip, n), vtepCidr.prefix))
  }

  lemma TrimWorker(t: string)
    ensures TrimPrefix("worker" + t, "worker") == t
  {
    assert HasPrefix("worker" + t, "worker");
  }

  /** The node "worker<n>" gets the pool's address plus n. */
  lemma VtepOfWorker(node: Node, n: nat, vtepCidr: IPNet)
    requires node.name == "worker" + Itoa(n) && n <= MaxInt64
    ensures CalcNodeVtepIPNet(node, vtepCidr) == Ok(IPNet(vtepCidr.ip + n, vtepCidr.prefix))
  {
    TrimWorker(Itoa(n));
    AtoiFormatInt(n);
  }

  /** Two different names can share a VTEP: "worker0<n>" collides with "worker<n>". */
  lemma VtepZeroPaddedCollision(a: Node, b: Node, n: nat, vtepCidr: IPNet)
    requires a.name == "worker" + Itoa(n) && b.name == "worker" + ("0" + Itoa(n)) && n <= MaxInt64
    ensures a.name != b.name
    ensures CalcNodeVtepIPNet(a, vtepCidr) == CalcNodeVtepIPNet(b, vtepCidr)
    ensures CalcNodeVtepIPNet(a, vtepCidr).Ok?
  {
    VtepOfWorker(a, n, vtepCidr);
    TrimWorker("0" + Itoa(n));
    AtoiZeroPadded(n);
    assert |b.name| == |a.name| + 1;
  }

  /** A negative ordinal runs the loop zero times: "worker-<n>" gets the pool's own address. */
  lemma VtepNegativeOrdinal(node: Node, n: nat, vtepCidr: IPNet)
    requires node.name == "worker" + FormatInt(-(n as int)) && n <= MaxInt64
    ensures CalcNodeVtepIPNet(node, vtepCidr) == Ok(IPNet(vtepCidr.ip, vtepCidr.prefix))
  {
    TrimWorker(FormatInt(-(n as int)));
    AtoiFormatInt(-(n as int));
  }

  /** A name that is only "worker" has no ordinal. */
  lemma VtepBareWorker(node: Node, vtepCidr: IPNet)
    requires node.name == "worker"
    ensures CalcNodeVtepIPNet(node, vtepCidr) == Err(VtepOrdinalInvalid("worker"))
  {
    TrimWorker("");
    assert node.name == "worker" + "";
  }

  /** The derived VTEP can leave the pool: worker4 in a /30 pool is outside the pool's block. */
  lemma VtepCanLeavePool(node: Node, vtepCidr: IPNet)
    requires node.name == "worker4" && vtepCidr == IPNet(0x0A12_0000, 30)
    ensures CalcNodeVtepIPNet(node, vtepCidr).Ok?
    ensures !InBlock(vtepCidr, CalcNodeVtepIPNet(node, vtepCidr).value.ip)
  {
    assert Itoa(4) == "4";
    assert node.name == "worker" + Itoa(4);
    VtepOfWorker(node, 4, vtepCidr);
    Pow2Values();
    assert BlockSize(30) == 4;
  }

  // ---------------------------------------------------------------------------------------
  // Uplink gateway.

  /** Neighbour `nb` is the route's gateway (IP.Equal against a nil gateway never holds). */
  predicate IsGateway(nb: Neigh, gw: Option<Addr>) {
    gw == Some(nb.ip)
  }

  /** GetNodeDefaultGateway: the route toward 1.0.0.0 must be the only one and leave through
      the external interface; the gateway keeps the external interface's prefix length and
      takes the MAC of the first neighbour (on that interface) with the gateway's address. */
  function GetNodeDefaultGateway(ext: Iface, routes: Option<seq<Route>>, neighs: int -> Option<seq<Neigh>>): (r: Result<GwInfo, Error>)
    ensures routes.None? ==> r == Err(RouteQueryFailed)
    ensures routes.Some? && |routes.value| != 1 ==> r == Err(RouteNotUnique(|routes.value|))
    ensures routes.Some? && |routes.value| == 1 && routes.value[0].linkIndex != ext.link.index ==>
      r == Err(RouteLinkMismatch(routes.value[0].linkIndex, ext.link.index))
    ensures r.Ok? ==>
      && routes.Some? && |routes.value| == 1
      && routes.value[0].linkIndex == ext.link.index
      && routes.value[0].gw == Some(r.value.ipnet.ip)
      && r.value.ipnet.prefix == ext.ipnet.prefix
    ensures r.Ok? ==> neighs(ext.link.index).Some? && exists k | 0 <= k < |neighs(ext.link.index).value| ::
      var ns := neighs(ext.link.index).value;
      && ns[k].ip == r.value.ipnet.ip && ns[k].mac == r.value.mac
      && forall j | 0 <= j < k :: !IsGateway(ns[j], routes.value[0].gw)
    ensures routes.Some? && |routes.value| == 1 && routes.value[0].gw.None? ==> r.Err?
    ensures routes.Some? && |routes.value| == 1 && routes.value[0].linkIndex == ext.link.index ==>
      && (neighs(ext.link.index).None? ==> r == Err(NeighListFailed))
      && (neighs(ext.link.index).Some? &&
          (forall k | 0 <= k < |neighs(ext.link.index).value| :: !IsGateway(neighs(ext.link.index).value[k], routes.value[0].gw))
          ==> r == Err(GatewayMacNotFound))
    ensures routes.Some? && |routes.value| == 1 && routes.value[0].linkIndex == ext.link.index
      && neighs(ext.link.index).Some?
      && (exists k | 0 <= k < |neighs(ext.link.index).value| :: IsGateway(neighs(ext.link.index).value[k], routes.value[0].gw))
      ==> r.Ok?
  {
    match routes
    case None => Err(RouteQueryFailed)
    case Some(rs) =>
      if |rs| != 1 then Err(RouteNotUnique(|rs|))
      else if rs[0].linkIndex != ext.link.index then Err(RouteLinkMismatch(rs[0].linkIndex, ext.link.index))
      else
        match neighs(ext.link.index)
        case None => Err(NeighListFailed)
        case Some(ns) =>
          match FirstWhere(ns, (nb: Neigh) => IsGateway(nb, rs[0].gw))
          case None => Err(GatewayMacNotFound)
          case Some(k) => Ok(GwInfo(IPNet(ns[k].ip, ext.ipnet.prefix), ns[k].mac))
  }

  // ---------------------------------------------------------------------------------------
  // Router MAC read-back.

  predicate IsPodSidePort(p: PortView) {
    p.name == "to_br0"
  }

  /** GetNodePodDefaultGatewayMAC: the parsed MAC of the router's first "to_br0" port. */
  function GetNodePodDefaultGatewayMAC(routerName: string, view: Option<RouterView>): (r: Result<MacAddr, Error>)
    ensures view.None? ==> r == Err(RouterReadFailed(routerName))
    ensures view.Some? && (forall i | 0 <= i < |view.value.ports| :: !IsPodSidePort(view.value.ports[i])) ==>
      r == Err(PodGatewayPortMissing)
    ensures r.Ok? ==> |r.value| in {6, 8, 20}
    ensures r.Ok? ==> view.Some? && exists i | 0 <= i < |view.value.ports| ::
      && IsPodSidePort(view.value.ports[i])
      && ParseMac(view.value.ports[i].mac) == Some(r.value)
      && forall j | 0 <= j < i :: !IsPodSidePort(view.value.ports[j])
    ensures view.Some? ==> forall i | 0 <= i < |view.value.ports| ::
      && IsPodSidePort(view.value.ports[i])
      && (forall j | 0 <= j < i :: !IsPodSidePort(view.value.ports[j]))
      && ParseMac(view.value.ports[i].mac).None?
      ==> r == Err(PodGatewayMacMalformed(view.value.ports[i].mac))
    ensures view.Some? ==> forall i | 0 <= i < |view.value.ports| ::
      && IsPodSidePort(view.value.ports[i])
      && (forall j | 0 <= j < i :: !IsPodSidePort(view.value.ports[j]))
      && ParseMac(view.value.ports[i].mac).Some?
      ==> r == Ok(ParseMac(view.value.ports[i].mac).value)
  {
    match view
    case None => Err(RouterReadFailed(routerName))
    case Some(v) =>
      match FirstWhere(v.ports, IsPodSidePort)
      case None => Err(PodGatewayPortMissing)
      case Some(i) =>
        assert forall k | 0 <= k < |v.ports| && IsPodSidePort(v.ports[k]) && (forall j | 0 <= j < k :: !IsPodSidePort(v.ports[j])) :: k == i;
        match ParseMac(v.ports[i].mac)
        case None => Err(PodGatewayMacMalformed(v.ports[i].mac))
        case Some(m) => Ok(m)
  }

  /** A router that reports its pod-side MAC as HardwareAddr.String writes it gives that MAC
      back. */
  lemma PodGatewayMacReadBack(routerName: string, ports: seq<PortView>, i: nat, m: MacAddr)
    requires i < |ports| && IsPodSidePort(ports[i]) && ports[i].mac == FormatMac(m)
    requires forall j | 0 <= j < i :: !IsPodSidePort(ports[j])
    requires |m| in {6, 8, 20}
    ensures GetNodePodDefaultGatewayMAC(routerName, Some(RouterView(ports))) == Ok(m)
  {
    var f := FirstWhere(ports, IsPodSidePort);
    assert f.Some? by {
      assert IsPodSidePort(ports[i]);
    }
    assert f.value == i;
    ParseFormatMac(m);
  }

  // ---------------------------------------------------------------------------------------
  // Peer FDB entry and route.

  const ZeroMac: MacAddr := [0, 0, 0, 0, 0, 0]

  /** The router name AddNode writes peer routes to: a literal, whatever router name the
      configuration gave the cube. */
  const PeerRouteRouter: string := "r0"

  /** The calls AddNode issues for a peer, once the vxlan link is known: a permanent FDB entry
      with the all-zero MAC for the peer's address on the vxlan link, then a route on router
      `routerName` to the peer's pod CIDR via the peer's VTEP, leaving through "to_vxlan0". */
  function AddNodeCalls(routerName: string, vxlan: Link, nodeIp: AddrText, podCidr: CidrText, vtepIp: Addr): (cs: seq<Call>)
    ensures |cs| == 2 && cs[0].AppendFdb? && cs[1].CreateRouterRoute?
    ensures var e := cs[0].entry;
      e.linkIndex == vxlan.index && e.permanent && e.ip == nodeIp && |e.mac| == 6
      && forall k | 0 <= k < |e.mac| :: e.mac[k] == 0
    ensures cs[1].routerName == routerName
    ensures cs[1].route.network == podCidr && cs[1].route.nexthop == vtepIp && cs[1].route.iface == "to_vxlan0"
  {
    [ AppendFdb(FdbEntry(vxlan.index, true, nodeIp, ZeroMac)),
      CreateRouterRoute(routerName, RouterRoute(podCidr, vtepIp, "to_vxlan0")) ]
  }

  /** AddNode, with the router that receives the route as a parameter: look the vxlan link up
      by name, then issue the FDB append and the route; the route is not attempted when the
      append fails. */
  function AddNode(w: World, routerName: string, vxlanIfName: string, nodeIp: AddrText, podCidr: CidrText, vtepIp: Addr): (r: Exec)
    ensures w.linkByName(vxlanIfName).None? ==> r == Stop(LinkLookupFailed(vxlanIfName))
    ensures w.linkByName(vxlanIfName).Some? ==>
      var cs := AddNodeCalls(routerName, w.linkByName(vxlanIfName).value, nodeIp, podCidr, vtepIp);
      && 1 <= |r.trace| <= 2 && r.trace[0] == cs[0]
      && (r.outcome.Done? <==> w.api(cs[0]) && w.api(cs[1]))
      && (!w.api(cs[0]) ==> r == Exec([cs[0]], Failed(CallFailed(cs[0]))))
      && (r.outcome.Done? ==> r.trace == cs)
  {
    match w.linkByName(vxlanIfName)
    case None => Stop(LinkLookupFailed(vxlanIfName))
    case Some(link) => RunCalls(w.api, AddNodeCalls(routerName, link, nodeIp, podCidr, vtepIp))
  }

  /** AddNode as the source writes it: the route always goes to the router named "r0". */
  function AddNodeAsWritten(w: World, vxlanIfName: string, nodeIp: AddrText, podCidr: CidrText, vtepIp: Addr): (r: Exec)
    ensures w.linkByName(vxlanIfName).Some? && r.outcome.Done? ==>
      |r.trace| == 2 && r.trace[1].CreateRouterRoute? && r.trace[1].routerName == "r0"
  {
    AddNode(w, PeerRouteRouter, vxlanIfName, nodeIp, podCidr, vtepIp)
  }

  // ---------------------------------------------------------------------------------------
  // The node's vxlan interface.

  const VxlanId: int := 42
  const VxlanPort: int := 4789

  /** CreateNodeVxlanIface: add the vxlan link (VNI 42, UDP port 4789, bound to the external
      interface), look it up by name, bring it up and give it the VTEP address. Each step runs
      only if the previous one succeeded. */
  function CreateNodeVxlanIface(w: World, name: string, ext: Iface, vtep: IPNet): (r: Exec)
    ensures |r.trace| >= 1 && r.trace[0] == LinkAdd(VxlanSpec(name, VxlanId, ext.link.index, VxlanPort))
    ensures !w.api(r.trace[0]) ==> r == Exec([r.trace[0]], Failed(CallFailed(r.trace[0])))
    ensures w.api(r.trace[0]) && w.linkByName(name).None? ==>
      r == Exec([r.trace[0]], Failed(LinkLookupFailed(name)))
    ensures r.outcome.Done? <==>
      && w.api(LinkAdd(VxlanSpec(name, VxlanId, ext.link.index, VxlanPort)))
      && w.linkByName(name).Some?
      && w.api(LinkSetUp(w.linkByName(name).value.index))
      && w.api(AddrAdd(w.linkByName(name).value.index, vtep))
    ensures r.outcome.Done? ==> r.trace == [
      LinkAdd(VxlanSpec(name, VxlanId, ext.link.index, VxlanPort)),
      LinkSetUp(w.linkByName(name).value.index),
      AddrAdd(w.linkByName(name).value.index, vtep)]
  {
    var add := RunCalls(w.api, [LinkAdd(VxlanSpec(name, VxlanId, ext.link.index, VxlanPort))]);
    var rest :=
      match w.linkByName(name)
      case None => Stop(LinkLookupFailed(name))
      case Some(link) =>
        var cs := [LinkSetUp(link.index), AddrAdd(link.index, vtep)];
        assert AllSucceed(w.api, cs) <==> w.api(cs[0]) && w.api(cs[1]);
        RunCalls(w.api, cs);
    Then(add, rest)
  }

  // ---------------------------------------------------------------------------------------
  // NodeInfo.

  function GetNode(w: World, name: string): (r: Result<Node, Error>)
    ensures r.Ok? <==> w.getNode(name).Some?
    ensures r.Ok? ==> r.value == w.getNode(name).value
    ensures r.Err? ==> r.error == NodeReadFailed(name)
  {
    match w.getNode(name)
    case None => Err(NodeReadFailed(name))
    case Some(n) => Ok(n)
  }

  /** BuildNodeInfo: node read, pod CIDR, pod gateway, external interface, VTEP, uplink
      gateway, in this order, stopping at the first error. */
  function BuildNodeInfo(w: World, conf: EnvConf): (r: Result<NodeInfo, Error>)
    ensures r.Ok? ==>
      && r.value.name == conf.nodeName
      && GetNode(w, conf.nodeName) == Ok(r.value.node)
      && ParseNodePodCidr(r.value.node) == Ok(r.value.podCidr)
      && r.value.podGw == CalcNodePodDefaultGateway(r.value.podCidr)
      && GetNodeExtIface(r.value.node, w.links) == Ok(r.value.extIface)
      && CalcNodeVtepIPNet(r.value.node, conf.vtepCidr) == Ok(r.value.vtep)
      && GetNodeDefaultGateway(r.value.extIface, w.routes, w.neighs) == Ok(r.value.nodeGw)
    ensures GetNode(w, conf.nodeName).Err? ==> r == Err(GetNode(w, conf.nodeName).error)
    ensures GetNode(w, conf.nodeName).Ok? && ParseNodePodCidr(GetNode(w, conf.nodeName).value).Err? ==>
      r == Err(ParseNodePodCidr(GetNode(w, conf.nodeName).value).error)
  {
    var node :- GetNode(w, conf.nodeName);
    var podCidr :- ParseNodePodCidr(node);
    var podGw := CalcNodePodDefaultGateway(podCidr);
    var extIface :- GetNodeExtIface(node, w.links);
    var vtep :- CalcNodeVtepIPNet(node, conf.vtepCidr);
    var nodeGw :- GetNodeDefaultGateway(extIface, w.routes, w.neighs);
    Ok(NodeInfo(conf.nodeName, node, podCidr, podGw, extIface, vtep, nodeGw))
  }

  /** The steps after the pod CIDR run in order too: the first of them to fail decides the
      error, whatever the later steps would have answered. */
  lemma BuildNodeInfoLaterSteps(w: World, conf: EnvConf, node: Node, podCidr: IPNet)
    requires GetNode(w, conf.nodeName) == Ok(node) && ParseNodePodCidr(node) == Ok(podCidr)
    ensures GetNodeExtIface(node, w.links).Err? ==>
      BuildNodeInfo(w, conf) == Err(GetNodeExtIface(node, w.links).error)
    ensures GetNodeExtIface(node, w.links).Ok? && CalcNodeVtepIPNet(node, conf.vtepCidr).Err? ==>
      BuildNodeInfo(w, conf) == Err(CalcNodeVtepIPNet(node, conf.vtepCidr).error)
    ensures GetNodeExtIface(node, w.links).Ok? && CalcNodeVtepIPNet(node, conf.vtepCidr).Ok? ==>
      var gw := GetNodeDefaultGateway(GetNodeExtIface(node, w.links).value, w.routes, w.neighs);
      (gw.Err? ==> BuildNodeInfo(w, conf) == Err(gw.error))
      && (gw.Ok? ==> BuildNodeInfo(w, conf).Ok?)
  {
  }
}
