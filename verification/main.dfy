/** The bootstrap run of a node: read the configuration, learn the node, create the vxlan
    interface, create and wire the cubes, read back the pod gateway's MAC, write the CNI
    configuration, and make every other worker's pods reachable. Any failure stops the run. */
module Bootstrap {
  import opened Basics
  import opened Ipv4
  import opened Mac
  import opened Types
  import opened Effects
  import opened Nodes
  import opened Polycube
  import opened Conf
  import opened Decimal

  // ---------------------------------------------------------------------------------------
  // Peers.

  /** The nodes addOtherNodes handles: workers other than this node. */
  predicate IsPeer(conf: EnvConf, n: Node) {
    HasPrefix(n.name, "worker") && n.name != conf.nodeName
  }

  /** The peers among `nodes`, in list order. */
  function SelectPeers(conf: EnvConf, nodes: seq<Node>): (ps: seq<Node>)
    ensures |ps| <= |nodes|
    ensures forall i | 0 <= i < |ps| :: ps[i] in nodes && IsPeer(conf, ps[i])
    ensures forall n | n in nodes && IsPeer(conf, n) :: n in ps
    decreases |nodes|
  {
    if |nodes| == 0 then []
    else
      var rest := SelectPeers(conf, nodes[1..]);
      assert forall n | n in nodes[1..] :: n in nodes;
      if IsPeer(conf, nodes[0]) then [nodes[0]] + rest else rest
  }

  /** Each peer is selected as many times as it occurs in the list, and nothing else is. */
  lemma {:induction false} SelectPeersCounts(conf: EnvConf, nodes: seq<Node>)
    ensures forall n :: multiset(SelectPeers(conf, nodes))[n] == if IsPeer(conf, n) then multiset(nodes)[n] else 0
    decreases |nodes|
  {
    if |nodes| > 0 {
      SelectPeersCounts(conf, nodes[1..]);
      assert nodes == [nodes[0]] + nodes[1..];
      assert multiset(nodes) == multiset{nodes[0]} + multiset(nodes[1..]);
      var rest := SelectPeers(conf, nodes[1..]);
      if IsPeer(conf, nodes[0]) {
        assert multiset([nodes[0]] + rest) == multiset{nodes[0]} + multiset(rest);
      }
    }
  }

  /** Selection keeps list order: the peers of a concatenation are the peers of the first part
      followed by the peers of the second. With SelectPeersCounts, this pins the result down
      to the order-preserving filter. */
  lemma {:induction false} SelectPeersAppend(conf: EnvConf, a: seq<Node>, b: seq<Node>)
    ensures SelectPeers(conf, a + b) == SelectPeers(conf, a) + SelectPeers(conf, b)
    decreases |a|
  {
    if |a| > 0 {
      assert (a + b)[0] == a[0] && (a + b)[1..] == a[1..] + b;
      SelectPeersAppend(conf, a[1..], b);
    } else {
      assert a + b == b;
    }
  }

  /** This node is never its own peer, and neither is a node whose name lacks "worker". */
  lemma SelectPeersExcludesSelf(conf: EnvConf, nodes: seq<Node>)
    ensures forall i | 0 <= i < |SelectPeers(conf, nodes)| ::
      SelectPeers(conf, nodes)[i].name != conf.nodeName && HasPrefix(SelectPeers(conf, nodes)[i].name, "worker")
  {
  }

  /** A peer whose pod CIDR parses and whose name yields a VTEP ordinal. */
  predicate PeerReady(conf: EnvConf, p: Node) {
    !ParseCidr(p.podCidr).CidrInvalid? && CalcNodeVtepIPNet(p, conf.vtepCidr).Ok?
  }

  /** The router the peer routes are added to: "r0" as written, the configured router once
      corrected. */
  function PeerRouter(naming: Naming, conf: EnvConf): string {
    match naming
    case AsWritten => PeerRouteRouter
    case Configured => conf.routerName
  }

  /** One iteration of addOtherNodes for a peer: parse its pod CIDR, derive its VTEP, and add
      it. Its address is the first InternalIP entry, read as ParseIP reads it. With AsWritten
      this is the source's loop body. */
  function AddPeer(naming: Naming, w: World, conf: EnvConf, p: Node): (r: Exec)
    ensures ParseCidr(p.podCidr).CidrInvalid? ==> r == Stop(PeerPodCidrMalformed(p.name))
    ensures !ParseCidr(p.podCidr).CidrInvalid? && CalcNodeVtepIPNet(p, conf.vtepCidr).Err? ==>
      r == Stop(VtepOrdinalInvalid(p.name))
    ensures PeerReady(conf, p) ==> r == AddNode(w, PeerRouter(naming, conf), conf.vxlanIfName, InternalIp(p),
      ParseCidr(p.podCidr), CalcNodeVtepIPNet(p, conf.vtepCidr).value.ip)
    ensures naming.AsWritten? && PeerReady(conf, p) ==> r == AddNodeAsWritten(w, conf.vxlanIfName, InternalIp(p),
      ParseCidr(p.podCidr), CalcNodeVtepIPNet(p, conf.vtepCidr).value.ip)
  {
    var podCidr := ParseCidr(p.podCidr);
    if podCidr.CidrInvalid? then Stop(PeerPodCidrMalformed(p.name))
    else
      match CalcNodeVtepIPNet(p, conf.vtepCidr)
      case Err(e) => Stop(e)
      case Ok(vtep) => AddNode(w, PeerRouter(naming, conf), conf.vxlanIfName, InternalIp(p), podCidr, vtep.ip)
  }

  /** The loop of addOtherNodes over the node list: non-peers are skipped, and peers are added
      in order until one fails. */
  function AddPeers(naming: Naming, w: World, conf: EnvConf, nodes: seq<Node>): (r: Exec)
    ensures (forall i | 0 <= i < |nodes| :: !IsPeer(conf, nodes[i])) ==> r == Exec([], Done)
    decreases |nodes|
  {
    if |nodes| == 0 then Exec([], Done)
    else if !IsPeer(conf, nodes[0]) then AddPeers(naming, w, conf, nodes[1..])
    else Then(AddPeer(naming, w, conf, nodes[0]), AddPeers(naming, w, conf, nodes[1..]))
  }

  /** Adding every node of a list that holds only peers. */
  function AddEach(naming: Naming, w: World, conf: EnvConf, ps: seq<Node>): (r: Exec)
    decreases |ps|
  {
    if |ps| == 0 then Exec([], Done) else Then(AddPeer(naming, w, conf, ps[0]), AddEach(naming, w, conf, ps[1..]))
  }

  /** Skipping non-peers along the way is adding the selected peers one after the other. */
  lemma {:induction false} AddPeersIsAddEachSelected(naming: Naming, w: World, conf: EnvConf, nodes: seq<Node>)
    ensures AddPeers(naming, w, conf, nodes) == AddEach(naming, w, conf, SelectPeers(conf, nodes))
    decreases |nodes|
  {
    if |nodes| > 0 {
      AddPeersIsAddEachSelected(naming, w, conf, nodes[1..]);
      var rest := SelectPeers(conf, nodes[1..]);
      if IsPeer(conf, nodes[0]) {
        var ps := [nodes[0]] + rest;
        assert ps[0] == nodes[0] && ps[1..] == rest;
      }
    }
  }

  /** The two calls that add peer `p` through the vxlan link `vxlan`. */
  function PeerCalls(naming: Naming, vxlan: Link, conf: EnvConf, p: Node): (cs: seq<Call>)
    requires PeerReady(conf, p)
    ensures |cs| == 2
  {
    AddNodeCalls(PeerRouter(naming, conf), vxlan, InternalIp(p), ParseCidr(p.podCidr), CalcNodeVtepIPNet(p, conf.vtepCidr).value.ip)
  }

  /** The calls that add every peer of `ps`, in order. */
  function AllPeerCalls(naming: Naming, vxlan: Link, conf: EnvConf, ps: seq<Node>): (cs: seq<Call>)
    requires forall i | 0 <= i < |ps| :: PeerReady(conf, ps[i])
    ensures |cs| == 2 * |ps|
  {
    if |ps| == 0 then [] else PeerCalls(naming, vxlan, conf, ps[0]) + AllPeerCalls(naming, vxlan, conf, ps[1..])
  }

  /** Adding peers succeeds only if every one of them is ready and the vxlan link is found;
      it then issues exactly two calls per peer, in order. */
  lemma {:induction false} AddEachDone(naming: Naming, w: World, conf: EnvConf, ps: seq<Node>)
    requires AddEach(naming, w, conf, ps).outcome.Done?
    ensures forall i | 0 <= i < |ps| :: PeerReady(conf, ps[i])
    ensures |ps| == 0 ==> AddEach(naming, w, conf, ps).trace == []
    ensures |ps| > 0 ==> (w.linkByName(conf.vxlanIfName).Some?
      && AddEach(naming, w, conf, ps).trace == AllPeerCalls(naming, w.linkByName(conf.vxlanIfName).value, conf, ps))
    decreases |ps|
  {
    if |ps| > 0 {
      var first := AddPeer(naming, w, conf, ps[0]);
      assert first.outcome.Done?;
      assert PeerReady(conf, ps[0]);
      AddEachDone(naming, w, conf, ps[1..]);
      assert forall i | 1 <= i < |ps| :: ps[i] == ps[1..][i - 1];
    }
  }

  /** A peer with a malformed pod CIDR or without a VTEP ordinal makes addOtherNodes fail. */
  lemma AddPeersFailsOnUnreadyPeer(naming: Naming, w: World, conf: EnvConf, nodes: seq<Node>, n: Node)
    requires n in nodes && IsPeer(conf, n) && !PeerReady(conf, n)
    ensures AddPeers(naming, w, conf, nodes).outcome.Failed?
  {
    AddPeersIsAddEachSelected(naming, w, conf, nodes);
    var ps := SelectPeers(conf, nodes);
    if AddEach(naming, w, conf, ps).outcome.Done? {
      AddEachDone(naming, w, conf, ps);
    }
  }

  /** The first peer that cannot be added ends the pass: the calls issued are those of the
      peers before it and its own, and no later peer is processed. */
  lemma {:induction false} AddEachStopsAtFailure(naming: Naming, w: World, conf: EnvConf, ps: seq<Node>, k: nat)
    requires k < |ps| && AddEach(naming, w, conf, ps[..k]).outcome.Done?
    requires AddPeer(naming, w, conf, ps[k]).outcome.Failed?
    ensures AddEach(naming, w, conf, ps).trace == AddEach(naming, w, conf, ps[..k]).trace + AddPeer(naming, w, conf, ps[k]).trace
    ensures AddEach(naming, w, conf, ps).outcome == AddPeer(naming, w, conf, ps[k]).outcome
    decreases k
  {
    if k == 0 {
      assert ps[0] == ps[k];
    } else {
      var first := AddPeer(naming, w, conf, ps[0]);
      var last := AddPeer(naming, w, conf, ps[k]);
      var before := AddEach(naming, w, conf, ps[1..][..k - 1]);
      assert ps[..k][0] == ps[0] && ps[..k][1..] == ps[1..][..k - 1];
      assert AddEach(naming, w, conf, ps[..k]) == Then(first, before);
      assert first.outcome.Done? && before.outcome.Done?;
      assert ps[1..][k - 1] == ps[k];
      AddEachStopsAtFailure(naming, w, conf, ps[1..], k - 1);
      assert AddEach(naming, w, conf, ps[1..]).trace == before.trace + last.trace;
      assert AddEach(naming, w, conf, ps).trace == first.trace + (before.trace + last.trace);
      AppendAssoc(first.trace, before.trace, last.trace);
    }
  }

  /** addOtherNodes: list the cluster's nodes, then add the peers among them. */
  function AddOtherNodes(naming: Naming, w: World, conf: EnvConf): (r: Exec)
    ensures w.listNodes.None? ==> r == Stop(NodeListFailed)
    ensures w.listNodes.Some? ==> r == AddEach(naming, w, conf, SelectPeers(conf, w.listNodes.value))
  {
    match w.listNodes
    case None => Stop(NodeListFailed)
    case Some(nodes) =>
      AddPeersIsAddEachSelected(naming, w, conf, nodes);
      AddPeers(naming, w, conf, nodes)
  }

  // ---------------------------------------------------------------------------------------
  // Cross-node agreement.

  /** What a peer installs for this node agrees with what this node set up for itself: the FDB
      entry carries the address of this node's external interface, and the route's next hop is
      the VTEP address this node put on its vxlan interface. */
  lemma PeerViewAgrees(naming: Naming, w: World, conf: EnvConf, info: NodeInfo, peerConf: EnvConf, vxlan: Link)
    requires BuildNodeInfo(w, conf) == Ok(info) && peerConf.vtepCidr == conf.vtepCidr
    requires !ParseCidr(info.node.podCidr).CidrInvalid?
    ensures PeerReady(peerConf, info.node)
    ensures PeerCalls(naming, vxlan, peerConf, info.node)[0].entry.ip == V4(info.extIface.ipnet.ip)
    ensures PeerCalls(naming, vxlan, peerConf, info.node)[1].route.nexthop == info.vtep.ip
    ensures PeerCalls(naming, vxlan, peerConf, info.node)[1].route.network == Cidr4(info.podCidr)
  {
  }

  /** Node worker<n> with pod CIDR 10.10.n.0/24 in the VTEP pool 10.18.0.0/16 gets the pod
      gateway 10.10.n.254, the VTEP address 10.18.0.n, and the IPAM range 10.10.n.1 to
      10.10.n.253. */
  lemma WorkerScenario(conf: EnvConf, info: NodeInfo, n: nat)
    requires n < 256 && info.node.name == "worker" + Itoa(n)
    requires conf.vtepCidr == IPNet(0x0A12_0000, 16)
    requires info.podCidr == IPNet(0x0A0A_0000 + n * 0x100, 24)
    requires info.podGw == CalcNodePodDefaultGateway(info.podCidr)
    ensures info.podGw.ipnet == IPNet(0x0A0A_0000 + n * 0x100 + 254, 24)
    ensures CalcNodeVtepIPNet(info.node, conf.vtepCidr) == Ok(IPNet(0x0A12_0000 + n, 16))
    ensures var c := CniConfOf(conf, info);
      c.rangeStart == 0x0A0A_0000 + n * 0x100 + 1 && c.rangeEnd == 0x0A0A_0000 + n * 0x100 + 253
      && c.gatewayIp == c.ipamGateway == 0x0A0A_0000 + n * 0x100 + 254
  {
    Pow2Values();
    assert BlockSize(24) == 0x100;
    assert IsNetwork(info.podCidr);
    PodGatewaySlash24(info.podCidr);
    IpamRangeSlash24(conf, info);
    VtepOfWorker(info.node, n, conf.vtepCidr);
  }

  // ---------------------------------------------------------------------------------------
  // The run.

  /** The pod gateway with the MAC read back from the router. */
  function WithPodGwMac(info: NodeInfo, mac: MacAddr): (i: NodeInfo)
    ensures i.podGw == GwInfo(info.podGw.ipnet, mac)
    ensures i.(podGw := info.podGw) == info
  {
    info.(podGw := info.podGw.(mac := mac))
  }

  /** The phases after the cubes exist: read the pod gateway's MAC back from the router, write
      the CNI configuration with it, and add the other nodes. */
  function AfterCubes(naming: Naming, w: World, conf: EnvConf, info: NodeInfo): (r: Exec)
    ensures GetNodePodDefaultGatewayMAC(conf.routerName, w.readRouter(conf.routerName)).Err? ==>
      r == Stop(GetNodePodDefaultGatewayMAC(conf.routerName, w.readRouter(conf.routerName)).error)
  {
    match GetNodePodDefaultGatewayMAC(conf.routerName, w.readRouter(conf.routerName))
    case Err(e) => Stop(e)
    case Ok(mac) => Then(CreateCniConfFile(w.api, conf, WithPodGwMac(info, mac)), AddOtherNodes(naming, w, conf))
  }

  /** main: configuration, node information, vxlan interface, cubes, then the rest. */
  function Run(naming: Naming, w: World): (r: Exec)
    ensures GetEnvConf(w.env).Err? ==> r == Stop(GetEnvConf(w.env).error)
    ensures GetEnvConf(w.env).Ok? && BuildNodeInfo(w, GetEnvConf(w.env).value).Err? ==>
      r == Stop(BuildNodeInfo(w, GetEnvConf(w.env).value).error)
  {
    match GetEnvConf(w.env)
    case Err(e) => Stop(e)
    case Ok(conf) =>
      match BuildNodeInfo(w, conf)
      case Err(e) => Stop(e)
      case Ok(info) =>
        Then(CreateNodeVxlanIface(w, conf.vxlanIfName, info.extIface, info.vtep),
          Then(CreateCubes(naming, w.api, conf, info), AfterCubes(naming, w, conf, info)))
  }

  /** The run once the configuration and the node information are known. */
  lemma RunShape(naming: Naming, w: World, conf: EnvConf, info: NodeInfo)
    requires GetEnvConf(w.env) == Ok(conf) && BuildNodeInfo(w, conf) == Ok(info)
    ensures Run(naming, w) == Then(CreateNodeVxlanIface(w, conf.vxlanIfName, info.extIface, info.vtep),
      Then(CreateCubes(naming, w.api, conf, info), AfterCubes(naming, w, conf, info)))
  {
  }

  /** The calls of a completed run, given its configuration and node information. */
  lemma RunDoneWith(naming: Naming, w: World, conf: EnvConf, info: NodeInfo)
    requires GetEnvConf(w.env) == Ok(conf) && BuildNodeInfo(w, conf) == Ok(info)
    requires Run(naming, w).outcome.Done?
    ensures GetNodePodDefaultGatewayMAC(conf.routerName, w.readRouter(conf.routerName)).Ok?
    ensures Run(naming, w).trace ==
      CreateNodeVxlanIface(w, conf.vxlanIfName, info.extIface, info.vtep).trace
      + CreationCalls(conf, info) + Wiring(naming, conf, info.extIface)
      + [WriteCniConf(conf.cniConfFilePath,
          CniConfOf(conf, WithPodGwMac(info, GetNodePodDefaultGatewayMAC(conf.routerName, w.readRouter(conf.routerName)).value)))]
      + AddOtherNodes(naming, w, conf).trace
    ensures |CreateNodeVxlanIface(w, conf.vxlanIfName, info.extIface, info.vtep).trace| == 3
  {
    var vx := CreateNodeVxlanIface(w, conf.vxlanIfName, info.extIface, info.vtep);
    var cubes := CreateCubes(naming, w.api, conf, info);
    var after := AfterCubes(naming, w, conf, info);
    RunShape(naming, w, conf, info);
    assert vx.outcome.Done? && cubes.outcome.Done? && after.outcome.Done?;
    CreateCubesSuccessTrace(naming, w.api, conf, info);
    var mac := GetNodePodDefaultGatewayMAC(conf.routerName, w.readRouter(conf.routerName));
    assert mac.Ok?;
    var cni := CreateCniConfFile(w.api, conf, WithPodGwMac(info, mac.value));
    var peers := AddOtherNodes(naming, w, conf).trace;
    assert after.trace == cni.trace + peers;
    assert Run(naming, w).trace == vx.trace + (cubes.trace + after.trace);
    Regroup(vx.trace, CreationCalls(conf, info), Wiring(naming, conf, info.extIface), cni.trace, peers);
  }

  lemma AppendAssoc(a: seq<Call>, b: seq<Call>, c: seq<Call>)
    ensures (a + b) + c == a + (b + c)
  {
  }

  /** Regrouping the five parts of a completed run's calls. */
  lemma Regroup(a: seq<Call>, b: seq<Call>, c: seq<Call>, d: seq<Call>, e: seq<Call>)
    ensures a + ((b + c) + (d + e)) == a + b + c + d + e
  {
  }

  /** A run that completes issues, in order: the three vxlan calls, the thirteen cube
      requests, the CNI configuration write carrying the MAC read back from the router, and
      the calls for the peers. */
  lemma RunDone(naming: Naming, w: World)
    requires Run(naming, w).outcome.Done?
    ensures GetEnvConf(w.env).Ok? && BuildNodeInfo(w, GetEnvConf(w.env).value).Ok?
    ensures var conf := GetEnvConf(w.env).value;
      var info := BuildNodeInfo(w, conf).value;
      var mac := GetNodePodDefaultGatewayMAC(conf.routerName, w.readRouter(conf.routerName));
      && mac.Ok?
      && Run(naming, w).trace ==
        CreateNodeVxlanIface(w, conf.vxlanIfName, info.extIface, info.vtep).trace
        + CreationCalls(conf, info) + Wiring(naming, conf, info.extIface)
        + [WriteCniConf(conf.cniConfFilePath, CniConfOf(conf, WithPodGwMac(info, mac.value)))]
        + AddOtherNodes(naming, w, conf).trace
      && |CreateNodeVxlanIface(w, conf.vxlanIfName, info.extIface, info.vtep).trace| == 3
  {
    var conf := GetEnvConf(w.env).value;
    var info := BuildNodeInfo(w, conf).value;
    RunDoneWith(naming, w, conf, info);
  }

  /** The router is created without a pod-side MAC; the CNI configuration gets the MAC the
      router then reports on its "to_br0" port, and the IPAM gateway is the pod gateway. */
  lemma CniGatewayMacFromRouter(naming: Naming, w: World, conf: EnvConf, info: NodeInfo)
    requires GetEnvConf(w.env) == Ok(conf) && BuildNodeInfo(w, conf) == Ok(info)
    requires Run(naming, w).outcome.Done?
    ensures GetNodePodDefaultGatewayMAC(conf.routerName, w.readRouter(conf.routerName)).Ok?
    ensures var mac := GetNodePodDefaultGatewayMAC(conf.routerName, w.readRouter(conf.routerName)).value;
      var cni := CniConfOf(conf, WithPodGwMac(info, mac));
      && RouterBody(conf.routerName, info.extIface, info.podGw, info.nodeGw).ports[0].mac == Some([])
      && cni.gatewayMac == mac
      && cni.gatewayIp == cni.ipamGateway == PrevIp(Broadcast(info.podCidr))
  {
    RunDoneWith(naming, w, conf, info);
    BroadcastIsBlockEnd(info.podCidr);
  }

  /** No call of `cs` writes the CNI configuration or adds a peer's FDB entry. */
  predicate NoFileNorPeer(cs: seq<Call>) {
    forall i | 0 <= i < |cs| :: !cs[i].WriteCniConf? && !cs[i].AppendFdb?
  }

  lemma NoFileNorPeerAppend(a: seq<Call>, b: seq<Call>)
    requires NoFileNorPeer(a) && NoFileNorPeer(b)
    ensures NoFileNorPeer(a + b)
  {
    assert forall i | |a| <= i < |a + b| :: (a + b)[i] == b[i - |a|];
  }

  lemma NoFileNorPeerPrefix(a: seq<Call>, b: seq<Call>)
    requires a <= b && NoFileNorPeer(b)
    ensures NoFileNorPeer(a)
  {
    assert forall i | 0 <= i < |a| :: a[i] == b[i];
  }

  /** Creating the vxlan interface issues only netlink link and address calls. */
  lemma VxlanCallsNoFileNorPeer(w: World, name: string, ext: Iface, vtep: IPNet)
    ensures NoFileNorPeer(CreateNodeVxlanIface(w, name, ext, vtep).trace)
  {
    var r := CreateNodeVxlanIface(w, name, ext, vtep);
    if !w.api(r.trace[0]) || w.linkByName(name).None? {
      assert r.trace == [r.trace[0]];
    } else {
      var link := w.linkByName(name).value;
      var cs := [LinkSetUp(link.index), AddrAdd(link.index, vtep)];
      var rest := RunCalls(w.api, cs);
      assert r.trace == [r.trace[0]] + rest.trace;
      assert NoFileNorPeer(cs);
      NoFileNorPeerPrefix(rest.trace, cs);
      assert NoFileNorPeer([r.trace[0]]);
      NoFileNorPeerAppend([r.trace[0]], rest.trace);
    }
  }

  /** Creating and wiring the cubes issues only polycube requests. */
  lemma CubeCallsNoFileNorPeer(naming: Naming, conf: EnvConf, info: NodeInfo)
    ensures NoFileNorPeer(CreationCalls(conf, info) + Wiring(naming, conf, info.extIface))
  {
    var cs := CreationCalls(conf, info);
    assert cs[3] == cs[3..][0] && cs[4] == cs[3..][1];
    assert NoFileNorPeer(cs);
    NoFileNorPeerAppend(cs, Wiring(naming, conf, info.extIface));
  }

  /** The calls of a run whose vxlan interface or cubes could not be set up. */
  lemma NoCniFileBeforeCubesWith(naming: Naming, w: World, conf: EnvConf, info: NodeInfo)
    requires GetEnvConf(w.env) == Ok(conf) && BuildNodeInfo(w, conf) == Ok(info)
    requires !CreateNodeVxlanIface(w, conf.vxlanIfName, info.extIface, info.vtep).outcome.Done?
      || !CreateCubes(naming, w.api, conf, info).outcome.Done?
    ensures Run(naming, w).outcome.Failed?
    ensures NoFileNorPeer(Run(naming, w).trace)
  {
    var vx := CreateNodeVxlanIface(w, conf.vxlanIfName, info.extIface, info.vtep);
    var cubes := CreateCubes(naming, w.api, conf, info);
    var all := CreationCalls(conf, info) + Wiring(naming, conf, info.extIface);
    RunShape(naming, w, conf, info);
    VxlanCallsNoFileNorPeer(w, conf.vxlanIfName, info.extIface, info.vtep);
    if vx.outcome.Done? {
      RunCallsAppend(w.api, CreationCalls(conf, info), Wiring(naming, conf, info.extIface));
      assert cubes == RunCalls(w.api, all);
      CubeCallsNoFileNorPeer(naming, conf, info);
      NoFileNorPeerPrefix(cubes.trace, all);
      assert Run(naming, w).trace == vx.trace + cubes.trace;
      NoFileNorPeerAppend(vx.trace, cubes.trace);
    }
  }

  /** The CNI configuration is written, and peers are added, only after the vxlan interface is
      up and every cube is created and wired. */
  lemma NoCniFileBeforeCubes(naming: Naming, w: World)
    requires GetEnvConf(w.env).Ok? && BuildNodeInfo(w, GetEnvConf(w.env).value).Ok?
    requires var conf := GetEnvConf(w.env).value;
      var info := BuildNodeInfo(w, conf).value;
      !CreateNodeVxlanIface(w, conf.vxlanIfName, info.extIface, info.vtep).outcome.Done?
      || !CreateCubes(naming, w.api, conf, info).outcome.Done?
    ensures Run(naming, w).outcome.Failed?
    ensures forall i | 0 <= i < |Run(naming, w).trace| :: !Run(naming, w).trace[i].WriteCniConf? && !Run(naming, w).trace[i].AppendFdb?
  {
    var conf := GetEnvConf(w.env).value;
    NoCniFileBeforeCubesWith(naming, w, conf, BuildNodeInfo(w, conf).value);
  }

  // ---------------------------------------------------------------------------------------
  // Configured names against literal names.

  /** As written, peer routes go to the router "r0": when the configured router name differs,
      no cube of that name is created, so the route targets a router that does not exist. */
  lemma PeerRouteMissesConfiguredRouter(vxlan: Link, conf: EnvConf, info: NodeInfo, p: Node)
    requires conf.routerName != "r0" && PeerReady(conf, p)
    ensures var c := PeerCalls(AsWritten, vxlan, conf, p)[1];
      var cs := CreationCalls(conf, info);
      c.routerName == "r0" && forall j | 0 <= j < |cs| :: CubeOf(cs[j]) != Some((RouterCube, c.routerName))
  {
    var cs := CreationCalls(conf, info);
    assert cs[3] == cs[3..][0] && cs[4] == cs[3..][1];
  }

  /** With the router name taken from the configuration, every peer route goes to the router
      the run created, through a port that router declares. */
  lemma PeerRouteReachesCreatedRouter(vxlan: Link, conf: EnvConf, info: NodeInfo, p: Node)
    requires PeerReady(conf, p)
    ensures var c := PeerCalls(Configured, vxlan, conf, p)[1];
      Declares(CreationCalls(conf, info)[1], RouterCube, c.routerName, c.route.iface)
  {
    CreationDeclarations(conf, info);
    var c := PeerCalls(Configured, vxlan, conf, p)[1];
    assert c.routerName == conf.routerName && c.route.iface == "to_vxlan0";
  }

  /** With the default router name, the source's AddNode and the corrected one coincide. */
  lemma AddNodeDefaultRouter(w: World, vxlanIfName: string, nodeIp: AddrText, podCidr: CidrText, vtepIp: Addr)
    ensures AddNodeAsWritten(w, vxlanIfName, nodeIp, podCidr, vtepIp) == AddNode(w, DefaultRouterName, vxlanIfName, nodeIp, podCidr, vtepIp)
  {
  }

  /** Once corrected, the router's overlay port is wired to the vxlan interface created under
      the configured name; as written, it is wired to "vxlan0" even when that interface has
      another name. */
  lemma OverlayPortReachesVxlanIface(w: World, conf: EnvConf, ext: Iface, vtep: IPNet)
    ensures var add := CreateNodeVxlanIface(w, conf.vxlanIfName, ext, vtep).trace[0];
      && Wiring(Configured, conf, ext)[2].peer == add.vxlan.name
      && (conf.vxlanIfName != "vxlan0" ==> Wiring(AsWritten, conf, ext)[2].peer != add.vxlan.name)
  {
  }
}
