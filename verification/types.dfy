/** The records the bootstrap works on: the Kubernetes node fields it reads, the netlink
    objects it queries, the polycube cube bodies it sends, the calls with an effect on the
    host, and the errors that stop it. */
module Types {
  import opened Basics
  import opened Ipv4
  import opened Mac

  // ---------------------------------------------------------------------------------------
  // Kubernetes.

  /** v1.NodeAddressType. */
  datatype AddressType = Hostname | InternalIP | ExternalIP | InternalDNS | ExternalDNS

  datatype NodeAddress = NodeAddress(kind: AddressType, address: string)

  /** The fields of v1.Node the bootstrap reads: metadata.name, status.addresses and
      spec.podCIDR. */
  datatype Node = Node(name: string, addresses: seq<NodeAddress>, podCidr: string)

  // ---------------------------------------------------------------------------------------
  // netlink.

  /** The link attributes the bootstrap reads: name, index and hardware address. */
  datatype Link = Link(name: string, index: int, mac: MacAddr)

  /** One entry of the link list together with the answer AddrList(link, FAMILY_V4) gives
      for it (None: the query failed). */
  datatype LinkAddrs = LinkAddrs(link: Link, addrs: Option<seq<IPNet>>)

  /** A route returned by RouteGet: its output link index and its gateway (None: nil). */
  datatype Route = Route(linkIndex: int, gw: Option<Addr>)

  /** A neighbour-table entry of the IPv4 family. */
  datatype Neigh = Neigh(ip: Addr, mac: MacAddr)

  /** The vxlan link the bootstrap asks the kernel to add. */
  datatype VxlanSpec = VxlanSpec(name: string, vni: int, vtepDevIndex: int, port: int)

  /** A bridge forwarding-database entry appended through NeighAppend. `ip` is the peer node's
      address as ParseIP left it (Invalid is the nil IP). */
  datatype FdbEntry = FdbEntry(linkIndex: int, permanent: bool, ip: AddrText, mac: MacAddr)

  // ---------------------------------------------------------------------------------------
  // The records of types.go.

  /** An interface: one of its addresses (with prefix length) and its link. */
  datatype Iface = Iface(ipnet: IPNet, link: Link)

  /** A gateway: its address with prefix length, and its hardware address. */
  datatype GwInfo = GwInfo(ipnet: IPNet, mac: MacAddr)

  /** The configuration read from the environment. `vClusterCidr` is only echoed into the CNI
      configuration, so it keeps whatever ParseCIDR accepted. */
  datatype EnvConf = EnvConf(
    nodeName: string,
    vxlanIfName: string,
    vtepCidr: IPNet,
    cniConfFilePath: string,
    vClusterCidr: CidrText,
    mtu: int,
    bridgeName: string,
    routerName: string,
    lbrpName: string,
    k8sDispName: string)

  /** Which names the router's overlay port and the peer routes use: the literals the source
      writes ("vxlan0" and "r0"), or the configured vxlan interface and router names. */
  datatype Naming = AsWritten | Configured

  /** What the bootstrap learns about the node it runs on. */
  datatype NodeInfo = NodeInfo(
    name: string,
    node: Node,
    podCidr: IPNet,
    podGw: GwInfo,
    extIface: Iface,
    vtep: IPNet,
    nodeGw: GwInfo)

  // ---------------------------------------------------------------------------------------
  // polycube cube bodies, as the REST clients send them. Address and MAC fields hold the
  // values whose String() the clients put on the wire.

  datatype CubeKind = Simplebridge | RouterCube | LbrpCube | K8sDispatcher

  /** A router port: name, and optionally the address and MAC it is configured with. */
  datatype RouterPort = RouterPort(name: string, ip: Option<IPNet>, mac: Option<MacAddr>)

  /** A router route: destination network, next hop and output port. */
  datatype RouterRoute = RouterRoute(network: CidrText, nexthop: Addr, iface: string)

  /** A static ARP entry of a router. */
  datatype ArpEntry = ArpEntry(address: Addr, mac: MacAddr, iface: string)

  /** A port of an lbrp or k8sdispatcher cube: name and type string. */
  datatype TypedPort = TypedPort(name: string, kind: string)

  datatype Bridge = Bridge(name: string, ports: seq<string>)

  datatype Router = Router(name: string, ports: seq<RouterPort>, routes: seq<RouterRoute>, arp: seq<ArpEntry>)

  datatype Lbrp = Lbrp(name: string, ports: seq<TypedPort>)

  datatype Dispatcher = Dispatcher(
    name: string,
    ports: seq<TypedPort>,
    clusterIpSubnet: string,
    clientSubnet: IPNet,
    internalSrcIp: string,
    nodePortRange: string)

  /** A router as ReadRouterByID returns it: its ports' names and MAC texts. */
  datatype PortView = PortView(name: string, mac: string)

  datatype RouterView = RouterView(ports: seq<PortView>)

  // ---------------------------------------------------------------------------------------
  // The CNI configuration values plugged into the configuration template.

  datatype CniConf = CniConf(
    mtu: int,
    vClusterCidr: CidrText,
    bridge: string,
    gatewayIp: Addr,
    gatewayMac: MacAddr,
    subnet: IPNet,
    rangeStart: Addr,
    rangeEnd: Addr,
    ipamGateway: Addr)

  // ---------------------------------------------------------------------------------------
  // Effects and errors.

  /** A call that changes the host: a netlink change, a polycube REST create or update, or the
      write of the CNI configuration file. */
  datatype Call =
    | LinkAdd(vxlan: VxlanSpec)
    | LinkSetUp(index: int)
    | AddrAdd(index: int, ipnet: IPNet)
    | CreateBridge(bridge: Bridge)
    | CreateRouter(router: Router)
    | CreateLbrp(lbrp: Lbrp)
    | CreateDispatcher(dispatcher: Dispatcher)
    | CreateDispatcherPort(cube: string, newPort: TypedPort)
    | SetPortPeer(kind: CubeKind, cube: string, port: string, peer: string)
    | AppendFdb(entry: FdbEntry)
    | CreateRouterRoute(routerName: string, route: RouterRoute)
    | WriteCniConf(path: string, conf: CniConf)

  /** Why the bootstrap stopped. */
  datatype Error =
    | NodeNameMissing
    | VtepCidrMalformed
    | VtepCidrNotIPv4
    | VPodsRangeMalformed
    | MtuMalformed
    | NodeReadFailed(name: string)
    | PodCidrMalformed(node: string)
    | PodCidrNotIPv4(node: string)
    | ExtIfaceIpMissing(node: string)
    | LinkListFailed
    | AddrListFailed(link: string)
    | ExtIfaceNotFound(node: string)
    | VtepOrdinalInvalid(node: string)
    | RouteQueryFailed
    | RouteNotUnique(count: nat)
    | RouteLinkMismatch(routeIndex: int, extIndex: int)
    | NeighListFailed
    | GatewayMacNotFound
    | LinkLookupFailed(link: string)
    | RouterReadFailed(router: string)
    | PodGatewayMacMalformed(text: string)
    | PodGatewayPortMissing
    | NodeListFailed
    | PeerPodCidrMalformed(node: string)
    | CallFailed(call: Call)

  // ---------------------------------------------------------------------------------------
  // The outside world.

  /** What the outside world answers, as values: the environment, the Kubernetes API, the
      kernel's link, address, route and neighbour tables, the polycube router read-back, and
      an oracle that decides whether each host-changing call succeeds. A query answered with
      None is a query that returned an error. */
  datatype World = World(
    env: map<string, string>,
    getNode: string -> Option<Node>,
    listNodes: Option<seq<Node>>,
    links: Option<seq<LinkAddrs>>,
    routes: Option<seq<Route>>,
    neighs: int -> Option<seq<Neigh>>,
    linkByName: string -> Option<Link>,
    readRouter: string -> Option<RouterView>,
    api: Call -> bool)
}
