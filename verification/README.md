# polykube node bootstrap, modelled in Dafny

This project models the program that joins a Kubernetes worker node to the polykube pod
overlay. The program runs once per node, in this order:

1. It reads its configuration from the environment.
2. It learns the node: its pod CIDR, pod gateway, external interface, VTEP address and uplink
   gateway.
3. It creates a vxlan interface on top of the external interface.
4. It creates four polycube cubes and wires their ports together. The cubes are a
   simplebridge, a router, an lbrp and a k8sdispatcher.
5. It reads the router's pod-side MAC back from polycube.
6. It writes the CNI plugin configuration.
7. For every other worker, it adds a forwarding-database (FDB) entry and a router route.

Every kernel, Kubernetes and polycube interaction is abstracted:

- Reads are snapshot values in a `World`: the environment map, node records, link, address,
  route and neighbour tables, and the router read-back.
- Host-changing calls are values of type `Call`. Whether each one succeeds is decided by an
  oracle `api: Call -> bool`.
- A run is an `Exec`: the calls issued, in order, plus `Done` or `Failed(error)`. Sequencing
  is fail-fast, as in the source, where every error ends the process.

Modules:

| file | module | contents |
|---|---|---|
| basics.dfy | `Basics` | `Option`, `Result`, `HasPrefix`, `TrimPrefix`, first-match search |
| decimal.dfy | `Decimal` | `strconv.Atoi` (sign, digits, int64 range) and decimal rendering |
| ipv4.dfy | `Ipv4` | IPv4 addresses as integers, masks, broadcast, `net.ParseIP`/`ParseCIDR` (IPv4 parsed, IPv6 syntax-checked), `IP.String` |
| mac.dfy | `Mac` | `net.ParseMAC` (the three forms) and `HardwareAddr.String` |
| utils.dfy | `Utils` | `CreatePeer`, its inverse `SplitPeer`, `Truncate` |
| types.dfy | `Types` | the records of types.go, netlink/Kubernetes views, cube bodies, calls, errors, `World` |
| effects.dfy | `Effects` | fail-fast execution of calls and sequencing of phases |
| node.dfy | `Nodes` | init/node.go |
| polycube.dfy | `Polycube` | init/polycube.go |
| conf.dfy | `Conf` | init/conf.go |
| main.dfy | `Bootstrap` | init/main.go |

The four cube names are read from `POLYCUBE_BRIDGE_NAME`, `POLYCUBE_ROUTER_NAME`,
`POLYCUBE_LBRP_NAME` and `POLYCUBE_K8SDISP_NAME`, with the defaults br0, r0, lbrp0 and k0
(init/conf.go:103-112).

Two places in the source use a literal where the configured name is evidently meant (see
"## Findings"): the router's overlay port is peered with "vxlan0", and peer routes are posted to
the router "r0". The cube wiring, the peer pass and the whole run therefore take a `Naming`
parameter. `AsWritten` uses the literals and is the source as it stands; `Configured` uses the
configured vxlan interface and router names. Every property below that is stated for a
`naming` holds for both.

## Model

| member | source | states |
|---|---|---|
| Utils.CreatePeer | utils/utils.go:3-5 | the peer string is the service name, one ':' and the port name, in that order |
| Utils.SplitCreatePeer | utils/utils.go:3-5 | splitting a peer string at its first ':' gives back the service and port it was built from, when the service name has no ':' |
| Utils.SplitCreatePeerAmbiguous | utils/utils.go:3-5 | when the service name contains ':', splitting the peer string no longer recovers the pair |
| Utils.Truncate | utils/utils.go:7-12 | the result is the prefix of `s` of length min(len(s), n); `s` itself when it is no longer than n |
| Utils.TruncateIdempotent | utils/utils.go:7-12 | truncating twice to the same length is truncating once |
| Utils.TruncateTwice | utils/utils.go:7-12 | truncating to m and then to n ≤ m is truncating to n |
| Decimal.AtoiFormatInt | init/node.go:170 | Atoi reads back every int64 written in decimal |
| Decimal.AtoiZeroPadded | init/node.go:170 | Atoi accepts a leading zero: "0" followed by n reads as n |
| Decimal.AtoiPlusSign | init/node.go:170 | Atoi accepts a leading '+' |
| Ipv4.ParseIp | init/node.go:117 | an IPv4 result is a 32-bit address; text whose first separator is ':' is IPv6 exactly when it has Go's IPv6 syntax (hex fields of one to four digits, at most one "::" standing for at least one zero field, an optional trailing dotted quad, 16 bytes in all, no zone), and is then kept as the text itself |
| Ipv4.ParseCidrV6 | init/node.go:35 | an IPv6 address followed by "/" and a prefix is accepted exactly when the address has IPv6 syntax and the prefix is decimal digits worth at most 128 |
| Ipv4.V6TextExamples | init/node.go:117 | "::" and "fe80::1" are IPv6 text |
| Ipv4.V6TextCounterexamples | init/node.go:117 | "1::2::3" (two ellipses), "12345::" (a five-digit field) and "fe80::1%eth0" (a zone) are not |
| Ipv4.MalformedV6CidrRejected | init/node.go:35-38 | "::zz/999" is not a CIDR |
| Ipv4.ParseFormatCidr | init/node.go:35 | ParseCIDR of a rendered CIDR gives the masked network, and gives the CIDR itself when it is a network address |
| Ipv4.ParseFormatIp | init/main.go:77 | ParseIP reads back every rendered IPv4 address |
| Ipv4.FormatParseIp | init/node.go:117 | every text ParseIP reads as IPv4 is the rendering of that address, so with ParseFormatIp the accepted IPv4 texts are exactly the canonical dotted quads: "01.2.3.4" and "1.2.3" are rejected |
| Decimal.ItoaValue | init/node.go:117 | a digit string without a leading zero is the decimal rendering of its value |
| Ipv4.SplitJoin | init/node.go:117 | joining the fields Split cuts from a text gives the text back |
| Ipv4.BroadcastIsBlockEnd | init/node.go:57-62 | `ip \| ^mask` is the last address of the block that holds ip |
| Mac.ParseFormatMac | init/node.go:91 | ParseMAC reads back every 6-, 8- or 20-octet address that HardwareAddr.String renders |
| Mac.FormatParseMac | init/node.go:91 | a colon-separated lower-case MAC text is rendered back unchanged after parsing |
| Effects.RunCalls | init/polycube.go:420-436 | calls are issued in order until one fails; the trace is a prefix of the list; Done exactly when every call succeeds; on failure the last call issued is the one that failed and all earlier ones succeeded |
| Effects.RunCallsStopsAtFailure | init/polycube.go:253-415 | no call after a failing one is issued |
| Effects.RunCallsAppend | init/polycube.go:420-436 | running two call lists one after the other is running their concatenation |
| Nodes.ParseNodePodCidr | init/node.go:33-50 | succeeds exactly when the pod CIDR parses as IPv4, and then gives the network ParseCIDR returns; a well-formed IPv6 CIDR gives PodCidrNotIPv4 and malformed text (malformed IPv6 included) gives PodCidrMalformed |
| Nodes.ParseNodePodCidrFormatted | init/node.go:33-50 | a node whose pod CIDR is a rendered IPv4 network gets that network back |
| Nodes.CalcNodePodDefaultGateway | init/node.go:55-76 | the gateway is the block's last address minus one, with the pod CIDR's prefix and no MAC; it cannot fail |
| Nodes.PodGatewayBelowBroadcast | init/node.go:57-65 | the gateway is PrevIP of `ip \| ^mask` for every prefix length |
| Nodes.PodGatewayInsideBlock | init/node.go:52-54 | for blocks of at least four addresses, the gateway lies strictly between the network and broadcast addresses, inside the block, just below the broadcast address |
| Nodes.PodGatewaySlash24 | init/node.go:52-54 | a /24 gets the .254 gateway: the network address plus 254, whose last octet is 254 |
| Nodes.PodGatewaySlash31 | init/node.go:55-76 | a /31 gets the network address itself as its gateway |
| Nodes.PodGatewaySlash32 | init/node.go:55-76 | a /32 gets a gateway outside its own block |
| Nodes.InternalIp | init/node.go:114-120 | the node's address is ParseIP of the first InternalIP entry, whatever it parses to; nil (`Invalid`) when there is none |
| Nodes.ScanLinks | init/node.go:134-160 | the interface is found at the first link whose address list holds the address, paired with the first matching address; "not found" exactly when every list was read and none matches; a failed address query stops the scan with its own error; an address held by a link reached before any failed query is always found |
| Nodes.FoundAtShift | init/node.go:134-158 | a match found in the rest of the link list is a match in the whole list once the first link has been searched in vain |
| Nodes.GetNodeExtIface | init/node.go:111-161 | a found interface's address equals the node's InternalIP; no InternalIP and a failed link listing give their errors; an IPv6 InternalIP is never matched; an IPv4 InternalIP held by a link reached before any failed address query is always found |
| Nodes.AdvanceIpLoop | init/node.go:175-178 | n NextIP steps advance the address by n, and by nothing when n ≤ 0 |
| Nodes.CalcNodeVtepIPNet | init/node.go:166-185 | succeeds exactly when the name with "worker" trimmed passes Atoi; the VTEP is the pool address advanced by that number, or by none when it is not positive, with the pool's prefix |
| Nodes.VtepOfWorker | init/node.go:166-185 | worker<n> gets pool address + n |
| Nodes.VtepZeroPaddedCollision | init/node.go:170 | worker<n> and worker0<n> are different nodes that get the same VTEP |
| Nodes.VtepNegativeOrdinal | init/node.go:170-178 | worker-<n> gets the pool address itself |
| Nodes.VtepBareWorker | init/node.go:170-174 | a node named just "worker" has no VTEP |
| Nodes.VtepCanLeavePool | init/node.go:175-184 | nothing keeps the VTEP inside the pool: worker4 in a /30 pool lies outside it |
| Nodes.GetNodeDefaultGateway | init/node.go:238-305 | each failure gets its own error: route query, route count other than one, route on another link, neighbour query, no neighbour with the gateway's address; on success the gateway is the route's gateway with the external prefix and the MAC of the first neighbour holding that address; a single route on the external link and a neighbour holding its gateway always give success |
| Nodes.GetNodePodDefaultGatewayMAC | init/node.go:79-108 | the result is the parsed MAC of the first "to_br0" port, and whenever that port's MAC parses, it is the result; a failed router read, a missing port and a malformed MAC are errors |
| Nodes.PodGatewayMacReadBack | init/node.go:89-98 | a router that reports its pod-side MAC as HardwareAddr.String writes it gives that MAC back |
| Nodes.AddNodeCalls | init/node.go:318-345 | the FDB entry is permanent, on the vxlan link, for the peer's address, with the all-zero MAC; the route goes to the peer's pod CIDR via its VTEP through "to_vxlan0" on the given router |
| Nodes.AddNode | init/node.go:309-365 | a missing vxlan link stops before any call; the route is not requested when the FDB append fails; Done exactly when both calls succeed, and then exactly those two calls were issued |
| Nodes.AddNodeAsWritten | init/node.go:341-362 | as written, a successful AddNode sends its route to the router named "r0" |
| Nodes.CreateNodeVxlanIface | init/node.go:188-235 | LinkAdd of a vxlan with VNI 42, the external link as VTEP device and port 4789 comes first; a failed add or a failed lookup stops there; Done exactly when add, lookup, set-up and address add succeed, and then those three calls were issued |
| Nodes.GetNode | init/node.go:21-30 | the node record, or NodeReadFailed when the API has none |
| Nodes.BuildNodeInfo | init/node.go:369-407 | on success every field comes from its step (node, pod CIDR, pod gateway, external interface, VTEP, uplink gateway); the first two steps' errors are returned as they are |
| Nodes.BuildNodeInfoLaterSteps | init/node.go:383-396 | the external interface, VTEP and uplink gateway steps run in that order and their errors are returned as they are |
| Polycube.BridgeBody | init/polycube.go:52-60 | the bridge is created with the single port "to_r0" |
| Polycube.RouterBody | init/polycube.go:96-135 | the router is created with three ports: "to_br0" with the pod gateway's address and MAC, "to_vxlan0" bare, and "to_lbrp0" with the external interface's address and MAC; one default route and one ARP entry, both through "to_lbrp0" |
| Polycube.DefaultRoute | init/polycube.go:115-121 | the default route is 0.0.0.0/0 via the uplink gateway through "to_lbrp0" |
| Polycube.DefaultRouteText | init/polycube.go:117 | the default route's network is what "0.0.0.0/0" parses to |
| Polycube.RouterBodyWellFormed | init/polycube.go:96-128 | port names are distinct; every route and ARP entry names a declared port; the default next hop resolves, through the ARP entry, to the uplink gateway's MAC on the port that carries the external address |
| Polycube.LbrpBody | init/polycube.go:155-170 | "to_r0" is the backend port and "to_k0" the frontend port |
| Polycube.DispatcherBody | init/polycube.go:189-211 | the k8sdispatcher is created with only its "to_lbrp0" backend port; its client subnet is the pod CIDR, and the cluster-IP subnet, internal source address and NodePort range are fixed values |
| Polycube.CreateK8sDispatcher | init/polycube.go:186-233 | the "to_int" frontend port is added by a second request, sent only when the cube was created; Done exactly when both requests succeed |
| Polycube.CreationCalls | init/polycube.go:420-432 | the bridge, router, lbrp and k8sdispatcher are created in that order, each from its body |
| Polycube.CreationDeclarations | init/polycube.go:52-230 | the ports each creation request declares |
| Polycube.WiringCallsAsWritten | init/polycube.go:287-306 | as written, the router's "to_vxlan0" port is peered to the literal "vxlan0" |
| Polycube.WiringCalls | init/polycube.go:236-418 | eight peer updates, in source order, with the router's overlay port peered to the configured vxlan interface |
| Polycube.Wiring | init/polycube.go:236-418 | under AsWritten the source's eight updates, under Configured the corrected ones; in both, eight port-peer updates whose third peers the router's "to_vxlan0" port with the naming's overlay peer |
| Polycube.OverlayPeerMismatch | init/polycube.go:287-306 | the literal peer misses the vxlan interface whenever its configured name is not "vxlan0"; the two wirings differ only in that update, and agree entirely when the name is "vxlan0" |
| Polycube.WiringSymmetric | init/polycube.go:243-394 | every cube-to-cube update names a port that is itself wired back to the updated port, for bridge–router, router–lbrp and lbrp–k8sdispatcher |
| Polycube.HostFacingPorts | init/polycube.go:287-306 | exactly two updates name a host interface instead of a `cube:port`: "to_vxlan0" gets the naming's overlay peer ("vxlan0" as written, the vxlan interface once corrected) and "to_int" the external interface |
| Polycube.WiredPortsDeclared | init/polycube.go:236-418 | every port named in a wiring update was declared for that cube at creation |
| Polycube.DeclaredPortsWired | init/polycube.go:52-230 | every port declared at creation gets a peer |
| Polycube.ConnectCubes | init/polycube.go:236-418 | under either naming: the calls issued are a prefix of the eight updates; Done exactly when every update succeeds, and then all eight were issued; only port-peer updates are issued |
| Polycube.CreateCubes | init/polycube.go:420-437 | creation runs first and wiring only after it; Done exactly when every creation and every update succeeds |
| Polycube.NoWiringAfterFailedCreation | init/polycube.go:420-433 | when a creation fails, no port is wired |
| Polycube.CreateCubesSuccessTrace | init/polycube.go:420-437 | a successful run issues the five creation requests then the naming's eight updates, thirteen calls in all |
| Conf.GetEnv | init/conf.go:44-54 | the value of the variable when it is set and non-empty, the default otherwise |
| Conf.GetEnvEmptyIsUnset | init/conf.go:44-54 | a variable set to "" reads like an unset one |
| Conf.GetEnvConf | init/conf.go:58-114 | the node name is required; each field comes from its variable or default; the VTEP pool and the virtual pods range must parse as CIDRs and the MTU through Atoi; the checks run in source order and the first failure is reported |
| Conf.DefaultVtepCidrParse | init/conf.go:71 | the default VTEP pool text parses to 10.18.0.0/16 |
| Conf.DefaultVPodsRangeParse | init/conf.go:84 | the default virtual pods range text parses to 10.10.0.0/16 |
| Conf.DefaultCidrsParse | init/conf.go:71-84 | the default VTEP pool is 10.18.0.0/16 and the default virtual pods range 10.10.0.0/16 |
| Conf.DefaultMtuParse | init/conf.go:94 | the default MTU text reads as 1450 |
| Conf.GetEnvConfDefaults | init/conf.go:58-114 | with only the node name set, the configuration is vxlan0, 10.18.0.0/16, /etc/cni/net.d/00-polykube.json, 10.10.0.0/16, 1450, br0, r0, lbrp0, k0 |
| Conf.GetEnvConfAcceptsAnyMtu | init/conf.go:94-99 | a zero or negative MTU is accepted as it is |
| Conf.CniConfOf | init/conf.go:129-143 | the values written: MTU, virtual pods range, bridge, the pod gateway's address and MAC (both gateway fields hold the same address), the pod subnet, and a range from network + 1 to gateway − 1 |
| Conf.CreateCniConfFile | init/conf.go:117-152 | one write of those values to the configured path; Done exactly when it succeeds |
| Conf.IpamRangeInsideBlock | init/conf.go:133-143 | for blocks of at least four addresses the range is non-empty, inside the pod CIDR, and leaves out the network address, the gateway and the broadcast address |
| Conf.IpamRangeSlash24 | init/conf.go:133-143 | a /24 gets .1 to .253 with gateway .254 |
| Conf.IpamRangeEmptyForTinyBlocks | init/conf.go:140-141 | a /31 or /32 gets a range that ends before it starts |
| Bootstrap.SelectPeers | init/main.go:72-73 | the peers are exactly the listed nodes named "worker…" other than this node, in list order |
| Bootstrap.SelectPeersCounts | init/main.go:72-73 | each peer is selected as many times as it is listed, and no other node is selected |
| Bootstrap.SelectPeersAppend | init/main.go:72-73 | the peers of a concatenated list are the peers of the first part followed by those of the second; with SelectPeersCounts this fixes the result as the order-preserving filter |
| Bootstrap.SelectPeersExcludesSelf | init/main.go:73 | this node is never its own peer |
| Bootstrap.AddPeer | init/main.go:74-94 | a malformed pod CIDR or a name without an ordinal stops the pass; otherwise AddNode on the naming's router ("r0" as written, the configured router once corrected) with the first InternalIP, the parsed pod CIDR (well-formed IPv6 included) and the VTEP address |
| Bootstrap.AddPeersIsAddEachSelected | init/main.go:72-96 | skipping non-peers while looping is adding the selected peers one after the other |
| Bootstrap.AddEachDone | init/main.go:72-97 | a completed pass found every peer ready and the vxlan link, and issued exactly two calls per peer, in list order |
| Bootstrap.AddEachStopsAtFailure | init/main.go:81-94 | the first peer that fails ends the pass; no later peer is processed |
| Bootstrap.AddPeersFailsOnUnreadyPeer | init/main.go:81-91 | a peer with a malformed pod CIDR or without an ordinal makes the pass fail |
| Bootstrap.AddOtherNodes | init/main.go:64-98 | a failed node listing stops before any call; otherwise the selected peers are added in order |
| Bootstrap.PeerViewAgrees | init/main.go:88 | what a peer installs for this node matches what this node set up: the FDB entry carries the external interface's address, and the route goes to this node's pod CIDR via this node's own VTEP |
| Bootstrap.WorkerScenario | init/conf.go:129-143 | worker<n> with pod CIDR 10.10.n.0/24 and pool 10.18.0.0/16 gets gateway 10.10.n.254, VTEP 10.18.0.n and range 10.10.n.1 to 10.10.n.253 |
| Bootstrap.Run | init/main.go:100-131 | configuration errors and node-information errors stop the run before any call |
| Bootstrap.RunDone | init/main.go:100-131 | a completed run issued the three vxlan calls, the thirteen cube requests, the CNI write with the MAC read back from the router, then the peer calls |
| Bootstrap.CniGatewayMacFromRouter | init/main.go:119-125 | in a completed run the router is created with an empty pod-side MAC, the MAC read-back succeeds, the CNI configuration carries that MAC, and both gateway fields are PrevIP of the pod broadcast address |
| Bootstrap.NoCniFileBeforeCubes | init/main.go:110-127 | if the vxlan interface or the cubes cannot be set up, the run fails without writing the CNI configuration or adding any peer |
| Bootstrap.PeerRouteMissesConfiguredRouter | init/node.go:341-362 | as written, when the router is configured under another name, no created cube is the router a peer route targets |
| Bootstrap.PeerRouteReachesCreatedRouter | init/node.go:341-352 | with the configured router name, every peer route targets the created router through a port it declares |
| Bootstrap.AddNodeDefaultRouter | init/node.go:341-362 | with the default router name, the source's AddNode and the corrected one coincide |
| Bootstrap.OverlayPortReachesVxlanIface | init/polycube.go:287-306 | with Configured, the router's overlay port is wired to the interface CreateNodeVxlanIface adds; with AsWritten, it is not when that interface is not "vxlan0" |

## Left out

- Kernel, Kubernetes and polycube I/O are not modelled as I/O. The netlink calls, the
  clientset and the REST clients become snapshot values and success oracles. The client
  set-up in the `init` functions of main.go and polycube.go is left out, because it only
  builds clients.
- Logging is left out. `log.Fatal` ends the process, so the model treats it as the end of the
  run, with the error the source returns next.
- `runtime.LockOSThread` is left out; it is about thread affinity.
- The model does not update the `World` snapshot after calls: a later read does not see an
  earlier call's effect. For example, the vxlan lookup does not depend on the LinkAdd
  succeeding.
- The JSON template and the file formatting are left out. The model keeps the values written
  into the template and a single write call, which stands for os.Create and Fprintf.
- utils/k8sdispatcher/model_k8sdispatcher.go is a generated data type with no logic; the
  dispatcher body models its fields.
- The "TRACE" log level sent in every cube body is left out.
- IPv6 addresses are checked against Go's IPv6 syntax but are kept as text, not as 16-byte
  values. No IPv6 address is ever compared with or computed from another: the pod CIDR check
  rejects IPv6, an IPv6 InternalIP is never equal to an IPv4 interface address, and a peer's
  IPv6 pod CIDR or address is passed on to the calls unchanged. An IPv6 CIDR is therefore
  not masked to its network address.
- Conf.GetEnvConf: reports an IPv6 `NODE_VTEP_CIDR` as VtepCidrNotIPv4, while the source
  accepts it and later does 16-byte address arithmetic on it.
- Nodes.ParseNodePodCidr: an IPv4-mapped IPv6 CIDR such as "::ffff:10.0.0.0/120" gives
  PodCidrNotIPv4, while Go's To4 would accept it as IPv4; the same text as an InternalIP is
  likewise never matched against IPv4 interface addresses.
- Addresses are unbounded integers: NextIP/PrevIP at the ends of the address space, where Go
  would carry across bytes or produce a 16-byte address, are not modelled.
- String lengths count characters, not UTF-8 bytes.
- Utils.Truncate: requires n ≥ 0; for a negative n the source slices out of range and panics.
- Polycube.WiringSymmetric: requires that cube names and the vxlan and external interface
  names contain no ':'. Otherwise the `cube:port` form is ambiguous
  (Utils.SplitCreatePeerAmbiguous), and Linux interface names never contain ':'.
- Polycube.HostFacingPorts: requires that the vxlan and external interface names contain no
  ':', for the same reason.

## Findings

| source | as written | input that shows it | evidently intended | confidence | as-written member | corrected member |
|---|---|---|---|---|---|---|
| init/node.go:341-362 | AddNode sends each peer route to the router named "r0", a literal | POLYCUBE_ROUTER_NAME=r1: the router cube is created as "r1", but peer routes are posted to "r0" | post the route to the configured router, `conf.routerName` | not executed; high, since every other cube reference uses the configured name | Nodes.AddNodeAsWritten, Bootstrap.PeerRouteMissesConfiguredRouter | Nodes.AddNode, Bootstrap.PeerRouteReachesCreatedRouter |
| init/polycube.go:287-306 | ConnectCubes peers the router's "to_vxlan0" port with the interface named "vxlan0", a literal | NODE_VXLAN_IFACE_NAME=vx1: the vxlan interface is created as "vx1" (init/main.go:110), but the router port is peered with "vxlan0" | peer the port with the configured vxlan interface, `conf.vxlanIfName` | not executed; high, since the interface is created under the configured name | Polycube.WiringCallsAsWritten, Polycube.OverlayPeerMismatch | Polycube.WiringCalls, Bootstrap.OverlayPortReachesVxlanIface |

Both behaviours are kept in the model: `Polycube.Wiring`, `Polycube.CreateCubes`,
`Bootstrap.AddPeer` and `Bootstrap.Run` take a `Naming`, where `AsWritten` is the source as it
stands and `Configured` the corrected definition.
