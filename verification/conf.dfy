/** The configuration read from the environment, and the CNI configuration file written for
    the plugin. */
module Conf {
  import opened Basics
  import opened Decimal
  import opened Ipv4
  import opened Mac
  import opened Types
  import opened Effects
  import Nodes

  // ---------------------------------------------------------------------------------------
  // Environment.

  /** os.Getenv: the value of the variable, or "" when it is unset. */
  function LookupEnv(env: map<string, string>, key: string): (v: string)
    ensures key !in env ==> v == ""
    ensures key in env ==> v == env[key]
  {
    if key in env then env[key] else ""
  }

  /** getEnv: the variable's value, or the default when the variable is unset or empty. */
  function GetEnv(env: map<string, string>, key: string, default: string): (v: string)
    ensures v == default || (key in env && v == env[key] != "")
    ensures key in env && env[key] != "" ==> v == env[key]
  {
    var v := LookupEnv(env, key);
    if v == "" then default else v
  }

  /** A variable set to the empty string reads like an unset one. */
  lemma GetEnvEmptyIsUnset(env: map<string, string>, key: string, default: string)
    ensures GetEnv(env[key := ""], key, default) == GetEnv(env - {key}, key, default) == default
  {
  }

  const DefaultVxlanIfName: string := "vxlan0"
  const DefaultVtepCidr: string := "10.18.0.0/16"
  const DefaultCniConfFilePath: string := "/etc/cni/net.d/00-polykube.json"
  const DefaultVPodsRange: string := "10.10.0.0/16"
  const DefaultMtu: string := "1450"
  const DefaultBridgeName: string := "br0"
  const DefaultRouterName: string := "r0"
  const DefaultLbrpName: string := "lbrp0"
  const DefaultK8sDispName: string := "k0"

  /** GetEnvConf: the node name is mandatory; the VTEP pool and the virtual pods range must be
      CIDRs; the MTU must be a decimal integer (no sign check); every other setting falls back
      to its default. The fields are read in this order and the first failure stops it. */
  function GetEnvConf(env: map<string, string>): (r: Result<EnvConf, Error>)
    ensures LookupEnv(env, "NODE_K8S_NAME") == "" ==> r == Err(NodeNameMissing)
    ensures r.Ok? ==>
      && r.value.nodeName == LookupEnv(env, "NODE_K8S_NAME") != ""
      && r.value.vxlanIfName == GetEnv(env, "NODE_VXLAN_IFACE_NAME", DefaultVxlanIfName)
      && ParseCidr(GetEnv(env, "NODE_VTEP_CIDR", DefaultVtepCidr)) == Cidr4(r.value.vtepCidr)
      && IsNetwork(r.value.vtepCidr)
      && r.value.cniConfFilePath == GetEnv(env, "CNI_CONF_FILE_PATH", DefaultCniConfFilePath)
      && r.value.vClusterCidr == ParseCidr(GetEnv(env, "POLYCUBE_VPODS_RANGE", DefaultVPodsRange))
      && !r.value.vClusterCidr.CidrInvalid?
      && Atoi(GetEnv(env, "POLYCUBE_MTU", DefaultMtu)) == Some(r.value.mtu)
      && r.value.bridgeName == GetEnv(env, "POLYCUBE_BRIDGE_NAME", DefaultBridgeName)
      && r.value.routerName == GetEnv(env, "POLYCUBE_ROUTER_NAME", DefaultRouterName)
      && r.value.lbrpName == GetEnv(env, "POLYCUBE_LBRP_NAME", DefaultLbrpName)
      && r.value.k8sDispName == GetEnv(env, "POLYCUBE_K8SDISP_NAME", DefaultK8sDispName)
    ensures LookupEnv(env, "NODE_K8S_NAME") != "" ==>
      var vtep := ParseCidr(GetEnv(env, "NODE_VTEP_CIDR", DefaultVtepCidr));
      && (vtep.CidrInvalid? ==> r == Err(VtepCidrMalformed))
      && (vtep.Cidr6Form? ==> r == Err(VtepCidrNotIPv4))
      && (vtep.Cidr4? && ParseCidr(GetEnv(env, "POLYCUBE_VPODS_RANGE", DefaultVPodsRange)).CidrInvalid? ==>
            r == Err(VPodsRangeMalformed))
      && (vtep.Cidr4? && !ParseCidr(GetEnv(env, "POLYCUBE_VPODS_RANGE", DefaultVPodsRange)).CidrInvalid? ==>
            (r.Ok? <==> Atoi(GetEnv(env, "POLYCUBE_MTU", DefaultMtu)).Some?))
    ensures r.Err? ==> r.error in {NodeNameMissing, VtepCidrMalformed, VtepCidrNotIPv4, VPodsRangeMalformed, MtuMalformed}
  {
    var nodeName := LookupEnv(env, "NODE_K8S_NAME");
    if nodeName == "" then Err(NodeNameMissing)
    else
      var vxlanIfName := GetEnv(env, "NODE_VXLAN_IFACE_NAME", DefaultVxlanIfName);
      match ParseCidr(GetEnv(env, "NODE_VTEP_CIDR", DefaultVtepCidr))
      case CidrInvalid => Err(VtepCidrMalformed)
      case Cidr6Form(_) => Err(VtepCidrNotIPv4)
      case Cidr4(vtepCidr) =>
        var cniConfFilePath := GetEnv(env, "CNI_CONF_FILE_PATH", DefaultCniConfFilePath);
        var vClusterCidr := ParseCidr(GetEnv(env, "POLYCUBE_VPODS_RANGE", DefaultVPodsRange));
        if vClusterCidr.CidrInvalid? then Err(VPodsRangeMalformed)
        else
          match Atoi(GetEnv(env, "POLYCUBE_MTU", DefaultMtu))
          case None => Err(MtuMalformed)
          case Some(mtu) =>
            Ok(EnvConf(nodeName, vxlanIfName, vtepCidr, cniConfFilePath, vClusterCidr, mtu,
              GetEnv(env, "POLYCUBE_BRIDGE_NAME", DefaultBridgeName),
              GetEnv(env, "POLYCUBE_ROUTER_NAME", DefaultRouterName),
              GetEnv(env, "POLYCUBE_LBRP_NAME", DefaultLbrpName),
              GetEnv(env, "POLYCUBE_K8SDISP_NAME", DefaultK8sDispName)))
  }

  lemma TailRegroup(head: string)
    ensures head + "." + "0" + "." + "0" + "/" + "16" == head + ".0.0/16"
  {
    var t := head + "." + "0" + "." + "0" + "/" + "16";
    assert |t| == |head| + 7;
    forall k | 0 <= k < |t| ensures t[k] == (head + ".0.0/16")[k] {
      if k < |head| {
      }
    }
  }

  /** A /16 network whose first two octets are a and b, written as text. */
  lemma Slash16Parse(a: nat, b: nat)
    requires 10 <= a < 100 && 10 <= b < 100
    ensures var n := IPNet(a * 0x100_0000 + b * 0x1_0000, 16);
      ParseCidr(Itoa(a) + "." + Itoa(b) + ".0.0/16") == Cidr4(n)
  {
    var n := IPNet(a * 0x100_0000 + b * 0x1_0000, 16);
    Pow2Values();
    assert BlockSize(16) == 0x1_0000;
    assert IsNetwork(n);
    assert Octets(n.ip) == [a, b, 0, 0];
    assert Itoa(0) == "0" && Itoa(16) == "16";
    var head := Itoa(a) + "." + Itoa(b);
    assert FormatIp(n.ip) == head + "." + "0" + "." + "0";
    TailRegroup(head);
    ParseFormatCidr(n);
  }

  lemma DefaultVtepCidrParse()
    ensures ParseCidr(DefaultVtepCidr) == Cidr4(IPNet(0x0A12_0000, 16))
  {
    assert Itoa(10) == "10" && Itoa(18) == "18";
    assert Itoa(10) + "." + Itoa(18) + ".0.0/16" == DefaultVtepCidr;
    Slash16Parse(10, 18);
  }

  lemma DefaultVPodsRangeParse()
    ensures ParseCidr(DefaultVPodsRange) == Cidr4(IPNet(0x0A0A_0000, 16))
  {
    assert Itoa(10) == "10";
    assert Itoa(10) + "." + Itoa(10) + ".0.0/16" == DefaultVPodsRange;
    Slash16Parse(10, 10);
  }

  /** "10.18.0.0/16" and "10.10.0.0/16" are networks. */
  lemma DefaultCidrsParse()
    ensures ParseCidr(DefaultVtepCidr) == Cidr4(IPNet(0x0A12_0000, 16))
    ensures ParseCidr(DefaultVPodsRange) == Cidr4(IPNet(0x0A0A_0000, 16))
  {
    DefaultVtepCidrParse();
    DefaultVPodsRangeParse();
  }

  /** "1450" reads as 1450. */
  lemma DefaultMtuParse()
    ensures Atoi(DefaultMtu) == Some(1450)
  {
    assert Itoa(14) == "14";
    assert Itoa(145) == "145";
    assert Itoa(1450) == "1450";
    AtoiFormatInt(1450);
  }

  /** With only the node name set, every setting takes its default. */
  lemma GetEnvConfDefaults(name: string)
    requires name != ""
    ensures GetEnvConf(map["NODE_K8S_NAME" := name]) == Ok(EnvConf(name, "vxlan0", IPNet(0x0A12_0000, 16),
      "/etc/cni/net.d/00-polykube.json", Cidr4(IPNet(0x0A0A_0000, 16)), 1450, "br0", "r0", "lbrp0", "k0"))
  {
    var env := map["NODE_K8S_NAME" := name];
    assert LookupEnv(env, "NODE_K8S_NAME") == name;
    OnlyNameSet(name, "NODE_VXLAN_IFACE_NAME", DefaultVxlanIfName);
    OnlyNameSet(name, "NODE_VTEP_CIDR", DefaultVtepCidr);
    OnlyNameSet(name, "CNI_CONF_FILE_PATH", DefaultCniConfFilePath);
    OnlyNameSet(name, "POLYCUBE_VPODS_RANGE", DefaultVPodsRange);
    OnlyNameSet(name, "POLYCUBE_MTU", DefaultMtu);
    OnlyNameSet(name, "POLYCUBE_BRIDGE_NAME", DefaultBridgeName);
    OnlyNameSet(name, "POLYCUBE_ROUTER_NAME", DefaultRouterName);
    OnlyNameSet(name, "POLYCUBE_LBRP_NAME", DefaultLbrpName);
    OnlyNameSet(name, "POLYCUBE_K8SDISP_NAME", DefaultK8sDispName);
    DefaultCidrsParse();
    DefaultMtuParse();
  }

  lemma OnlyNameSet(name: string, key: string, default: string)
    requires key != "NODE_K8S_NAME"
    ensures GetEnv(map["NODE_K8S_NAME" := name], key, default) == default
  {
  }

  /** The MTU is only required to be an integer: zero and negative values are accepted. */
  lemma GetEnvConfAcceptsAnyMtu(env: map<string, string>, n: nat)
    requires LookupEnv(env, "NODE_K8S_NAME") != ""
    requires ParseCidr(GetEnv(env, "NODE_VTEP_CIDR", DefaultVtepCidr)).Cidr4?
    requires !ParseCidr(GetEnv(env, "POLYCUBE_VPODS_RANGE", DefaultVPodsRange)).CidrInvalid?
    requires n <= MaxInt64 && "POLYCUBE_MTU" in env && env["POLYCUBE_MTU"] == FormatInt(-(n as int))
    ensures GetEnvConf(env).Ok? && GetEnvConf(env).value.mtu == -(n as int)
  {
    AtoiFormatInt(-(n as int));
  }

  // ---------------------------------------------------------------------------------------
  // CNI configuration.

  /** The values plugged into the CNI configuration: the bridge, the pod gateway as both the
      plugin's gateway and the IPAM gateway, the pod CIDR as the IPAM subnet, and the IPAM range
      from the address after the network address to the address before the gateway. */
  function CniConfOf(conf: EnvConf, info: NodeInfo): (c: CniConf)
    ensures c.mtu == conf.mtu && c.vClusterCidr == conf.vClusterCidr && c.bridge == conf.bridgeName
    ensures c.gatewayIp == c.ipamGateway == info.podGw.ipnet.ip && c.gatewayMac == info.podGw.mac
    ensures c.subnet == info.podCidr
    ensures c.rangeStart == info.podCidr.ip + 1 && c.rangeEnd == info.podGw.ipnet.ip - 1
  {
    var gw := info.podGw.ipnet.ip;
    CniConf(conf.mtu, conf.vClusterCidr, conf.bridgeName, gw, info.podGw.mac, info.podCidr,
      NextIp(info.podCidr.ip), PrevIp(gw), gw)
  }

  /** CreateCNIConfFile: one write of the configuration to the configured path. */
  function CreateCniConfFile(api: Call -> bool, conf: EnvConf, info: NodeInfo): (r: Exec)
    ensures r.trace == [WriteCniConf(conf.cniConfFilePath, CniConfOf(conf, info))]
    ensures r.outcome.Done? <==> api(WriteCniConf(conf.cniConfFilePath, CniConfOf(conf, info)))
  {
    RunCalls(api, [WriteCniConf(conf.cniConfFilePath, CniConfOf(conf, info))])
  }

  /** The IPAM pool a block of at least four addresses gets: it starts right after the
      network address, ends right before the gateway, lies inside the pod CIDR, is not empty,
      and leaves out the network address, the gateway and the broadcast address. */
  lemma IpamRangeInsideBlock(conf: EnvConf, info: NodeInfo)
    requires IsNetwork(info.podCidr) && info.podCidr.prefix <= 30
    requires info.podGw == Nodes.CalcNodePodDefaultGateway(info.podCidr)
    ensures var c := CniConfOf(conf, info);
      && info.podCidr.ip < c.rangeStart <= c.rangeEnd < c.gatewayIp < Broadcast(info.podCidr)
      && InBlock(info.podCidr, c.rangeStart) && InBlock(info.podCidr, c.rangeEnd)
      && InBlock(info.podCidr, c.gatewayIp)
  {
    Nodes.PodGatewayInsideBlock(info.podCidr);
    BroadcastIsBlockEnd(info.podCidr);
    Pow2Add(2, 30 - info.podCidr.prefix);
  }

  /** A /24 pod CIDR gives the pool ".1" to ".253" and the gateway ".254". */
  lemma IpamRangeSlash24(conf: EnvConf, info: NodeInfo)
    requires IsNetwork(info.podCidr) && info.podCidr.prefix == 24
    requires info.podGw == Nodes.CalcNodePodDefaultGateway(info.podCidr)
    ensures var c := CniConfOf(conf, info);
      c.rangeStart == info.podCidr.ip + 1 && c.rangeEnd == info.podCidr.ip + 253 && c.gatewayIp == info.podCidr.ip + 254
  {
    Nodes.PodGatewaySlash24(info.podCidr);
  }

  /** A /31 or /32 pod CIDR leaves no address for pods: the pool ends before it starts. */
  lemma IpamRangeEmptyForTinyBlocks(conf: EnvConf, info: NodeInfo)
    requires IsNetwork(info.podCidr) && info.podCidr.prefix in {31, 32}
    requires info.podGw == Nodes.CalcNodePodDefaultGateway(info.podCidr)
    ensures var c := CniConfOf(conf, info); c.rangeEnd < c.rangeStart
  {
    if info.podCidr.prefix == 31 {
      Nodes.PodGatewaySlash31(info.podCidr);
    } else {
      Nodes.PodGatewaySlash32(info.podCidr);
    }
  }
}
