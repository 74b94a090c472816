/**
 * The node table of the gateway database: rows, address allocation, the transactions that create
 * and delete nodes, and the recomputation of every node's peers and DNS servers.
 *
 * A table is the sequence of its rows in insertion order. These functions say what each
 * operation does to a table; Database.dfy has the loops that compute them.
 */
module Registry {
  import opened Common
  import opened Text
  import opened Addresses

  const DOCKER_SUBNET_START := 20
  const DOCKER_SUBNET_END := 31
  const WG_PRIVATE_IP_START := 1
  const WG_PRIVATE_IP_END := 254
  const PERSISTENT_KEEPALIVE := 15

  const DOCKER_DNS := IPv4(127, 0, 0, 11)
  const SERVER_PEER_ALLOWED := IPNet(IPv4(10, 0, 0, 0), 24)
  const DOCKER_ALL_SUBNETS := IPNet(IPv4(172, 16, 0, 0), 12)

  datatype Role = Gateway | Server | Client

  /** UDPAddrMarshable: the address is absent when its text did not parse. */
  datatype Endpoint = Endpoint(ip: Option<IPv4>, port: nat)

  datatype Peer = Peer(publicKey: string, endpoint: Option<Endpoint>, allowedIPs: seq<IPNet>, keepalive: Option<nat>)

  /**
   * A row. `certs` is the Clients map of the gateway's certificate bundle, empty on other rows;
   * `clientCert` is the client bundle handed to a server or client.
   */
  datatype Node = Node(
    id: string,
    role: Role,
    isCurrentNode: bool,
    privateKey: string,
    publicKey: string,
    address: IPNet,
    dns: seq<IPNet>,
    peers: seq<Peer>,
    wgPublicIP: Option<string>,
    wgPublicPort: Option<nat>,
    gatewayPublicIP: string,
    gatewayPublicPort: nat,
    certs: map<string, string>,
    clientCert: Option<string>,
    dockerSubnet: Option<IPNet>,
    labels: seq<string>)

  type Table = seq<Node>

  /** What a creation draws from its environment: a UUID, a WireGuard key pair and a client certificate. */
  datatype Fresh = Fresh(id: string, privateKey: string, publicKey: string, cert: string)

  /** Where a gateway is reachable. */
  datatype Site = Site(wgPublicIP: string, wgPublicPort: nat, publicIP: string, publicPort: nat)

  /** NilDockerSubnet stands for the panic of dereferencing a missing subnet. */
  datatype Error =
    | GatewayNotFound
    | GatewayExists
    | PublicEndpointMissing
    | NoWGPrivateIPs
    | NoDockerSubnets
    | BadSubnet(reason: AddressError)
    | SubnetInUse
    | NilDockerSubnet
    | RecordNotFound

  /** The table after a command that touches it in several transactions, and what the command returned. */
  datatype Written = Written(nodes: Table, result: Result<Node, Error>)

  // ---- queries

  function FindGateway(nodes: Table): Option<Node> {
    if nodes == [] then None
    else if nodes[0].role == Gateway then Some(nodes[0])
    else FindGateway(nodes[1..])
  }

  function GetByID(nodes: Table, id: string): Result<Node, Error> {
    if nodes == [] then Failure(RecordNotFound)
    else if nodes[0].id == id then Success(nodes[0])
    else GetByID(nodes[1..], id)
  }

  function FilterRoles(nodes: Table, roles: set<Role>): Table {
    if nodes == [] then []
    else FilterRoles(nodes[..|nodes| - 1], roles)
         + if nodes[|nodes| - 1].role in roles then [nodes[|nodes| - 1]] else []
  }

  function CountRoles(nodes: Table, roles: set<Role>): nat {
    |FilterRoles(nodes, roles)|
  }

  const DOCKER_ROLES := {Server, Gateway}

  function AvailableDockerSubnets(nodes: Table): int {
    DOCKER_SUBNET_END - DOCKER_SUBNET_START + 1 - CountRoles(nodes, DOCKER_ROLES)
  }

  function AvailableWireguardClients(nodes: Table): int {
    WG_PRIVATE_IP_END - WG_PRIVATE_IP_START + 1 - |nodes|
  }

  /** Identifiers are the primary key. */
  predicate UniqueIds(nodes: Table) {
    forall i, j :: 0 <= i < j < |nodes| ==> nodes[i].id != nodes[j].id
  }

  predicate HasId(nodes: Table, id: string) {
    exists i :: 0 <= i < |nodes| && nodes[i].id == id
  }

  // ---- allocation

  function WGPrivateIP(k: nat): IPv4
    requires k <= 255
  {
    IPv4(10, 0, 0, k)
  }

  function DockerSubnet(k: nat): IPNet
    requires k <= 255
  {
    IPNet(IPv4(172, k, 0, 0), 16)
  }

  predicate IPUsed(nodes: Table, ip: IPv4) {
    exists i :: 0 <= i < |nodes| && nodes[i].address.ip == ip
  }

  predicate SubnetUsed(nodes: Table, subnet: IPNet) {
    exists i :: 0 <= i < |nodes| && nodes[i].role in DOCKER_ROLES && nodes[i].dockerSubnet == Some(subnet)
  }

  /** The lowest free address of 10.0.0.from to 10.0.0.254. */
  function FreeIPFrom(nodes: Table, from: nat): Option<IPv4>
    decreases WG_PRIVATE_IP_END + 1 - from
  {
    if from > WG_PRIVATE_IP_END then None
    else if IPUsed(nodes, WGPrivateIP(from)) then FreeIPFrom(nodes, from + 1)
    else Some(WGPrivateIP(from))
  }

  function NextWGPrivateIP(nodes: Table): Option<IPv4> {
    FreeIPFrom(nodes, WG_PRIVATE_IP_START)
  }

  function FreeSubnetFrom(nodes: Table, from: nat): Option<IPNet>
    decreases DOCKER_SUBNET_END + 1 - from
  {
    if from > DOCKER_SUBNET_END then None
    else if SubnetUsed(nodes, DockerSubnet(from)) then FreeSubnetFrom(nodes, from + 1)
    else Some(DockerSubnet(from))
  }

  function NextDockerSubnet(nodes: Table): Option<IPNet> {
    FreeSubnetFrom(nodes, DOCKER_SUBNET_START)
  }

  // ---- writes

  /** Save: an upsert by primary key. */
  function SaveNode(nodes: Table, n: Node): Table {
    if HasId(nodes, n.id) then
      seq(|nodes|, i requires 0 <= i < |nodes| => if nodes[i].id == n.id then n else nodes[i])
    else nodes + [n]
  }

  function DeleteServer(nodes: Table, id: string): Table {
    if nodes == [] then []
    else DeleteServer(nodes[..|nodes| - 1], id)
         + if nodes[|nodes| - 1].id == id && nodes[|nodes| - 1].role == Server then [] else [nodes[|nodes| - 1]]
  }

  /** An update of the labels column alone. */
  function UpdateLabels(nodes: Table, id: string, labels: seq<string>): Table {
    seq(|nodes|, i requires 0 <= i < |nodes| => if nodes[i].id == id then nodes[i].(labels := labels) else nodes[i])
  }

  // ---- peers and DNS

  predicate ServersHaveSubnets(nodes: Table) {
    forall i :: 0 <= i < |nodes| && nodes[i].role == Server ==> nodes[i].dockerSubnet.Some?
  }

  function HostNet(n: Node): IPNet { IPNet(n.address.ip, 32) }

  function ServerAddresses(nodes: Table): seq<IPNet> {
    if nodes == [] then []
    else ServerAddresses(nodes[..|nodes| - 1])
         + if nodes[|nodes| - 1].role == Server then [HostNet(nodes[|nodes| - 1])] else []
  }

  function GatewayDNS(nodes: Table): seq<IPNet> {
    [IPNet(DOCKER_DNS, 32)] + ServerAddresses(nodes)
  }

  /** The gateway's entry for one client or server. */
  function PeerFor(n: Node): Peer
    requires n.role == Server ==> n.dockerSubnet.Some?
  {
    Peer(n.publicKey, None, [HostNet(n)] + if n.role == Server then [n.dockerSubnet.value] else [], None)
  }

  function GatewayPeers(nodes: Table): seq<Peer>
    requires ServersHaveSubnets(nodes)
  {
    if nodes == [] then []
    else GatewayPeers(nodes[..|nodes| - 1])
         + if nodes[|nodes| - 1].role == Gateway then [] else [PeerFor(nodes[|nodes| - 1])]
  }

  function GatewayEndpoint(gw: Node): Endpoint
    requires gw.wgPublicIP.Some? && gw.wgPublicPort.Some?
  {
    Endpoint(ParseIPv4(gw.wgPublicIP.value), gw.wgPublicPort.value)
  }

  function SpokeAllowedIPs(gw: Node, role: Role): seq<IPNet> {
    if role == Server then [SERVER_PEER_ALLOWED] else [DOCKER_ALL_SUBNETS, IPNet(gw.address.ip, 24)]
  }

  function SpokeDNS(gw: Node, role: Role): seq<IPNet> {
    [HostNet(gw)] + if role == Server then [IPNet(DOCKER_DNS, 32)] else []
  }

  function SpokePeer(gw: Node, role: Role): Peer
    requires gw.wgPublicIP.Some? && gw.wgPublicPort.Some?
  {
    Peer(gw.publicKey, Some(GatewayEndpoint(gw)), SpokeAllowedIPs(gw, role), Some(PERSISTENT_KEEPALIVE))
  }

  function RefreshNode(n: Node, gw: Node, nodes: Table): Node
    requires gw.wgPublicIP.Some? && gw.wgPublicPort.Some?
    requires ServersHaveSubnets(nodes)
  {
    if n.role == Gateway then n.(dns := GatewayDNS(nodes), peers := GatewayPeers(nodes))
    else n.(dns := SpokeDNS(gw, n.role), peers := [SpokePeer(gw, n.role)])
  }

  /** updateNodes: one transaction; a failure or panic rolls it back. */
  function Refresh(nodes: Table): Result<Table, Error> {
    match FindGateway(nodes)
    case None => Failure(GatewayNotFound)
    case Some(gw) =>
      if gw.wgPublicIP.None? || gw.wgPublicPort.None? then Failure(PublicEndpointMissing)
      else if !ServersHaveSubnets(nodes) then Failure(NilDockerSubnet)
      else Success(seq(|nodes|, i requires 0 <= i < |nodes| => RefreshNode(nodes[i], gw, nodes)))
  }

  /** What follows a committed insertion: refresh, then read the new row back. */
  function RefreshAndReload(nodes: Table, id: string): Written {
    match Refresh(nodes)
    case Failure(e) => Written(nodes, Failure(e))
    case Success(r) => Written(r, GetByID(r, id))
  }

  // ---- creation

  function GatewayRow(site: Site, ip: IPv4, f: Fresh): Node {
    Node(f.id, Gateway, true, f.privateKey, f.publicKey, IPNet(ip, 24), [], [],
         Some(site.wgPublicIP), Some(site.wgPublicPort), site.publicIP, site.publicPort,
         map[], None, None, [])
  }

  function SpokeRow(role: Role, gw: Node, ip: IPv4, subnet: Option<IPNet>, f: Fresh): Node {
    Node(f.id, role, false, f.privateKey, f.publicKey, IPNet(ip, 24), [],
         [Peer(gw.publicKey, None, [], None)],
         None, None, gw.gatewayPublicIP, gw.gatewayPublicPort, map[], Some(f.cert), subnet, [])
  }

  /** The forced subnet if it parses and is free, otherwise the lowest free one. */
  function ChooseSubnet(nodes: Table, forced: Option<string>): Result<IPNet, Error> {
    match forced
    case Some(text) =>
      (match ParseNet(text, true)
       case Failure(e) => Failure(BadSubnet(e))
       case Success(net) => if SubnetUsed(nodes, net) then Failure(SubnetInUse) else Success(net))
    case None =>
      (match NextDockerSubnet(nodes)
       case None => Failure(NoDockerSubnets)
       case Some(net) => Success(net))
  }

  function AddClientCert(gw: Node, f: Fresh): Node {
    gw.(certs := gw.certs[f.id := f.cert])
  }

  /** The transaction of CreateServer; a failure rolls back the certificate too. */
  function InsertServer(nodes: Table, forced: Option<string>, f: Fresh): Result<Table, Error> {
    match FindGateway(nodes)
    case None => Failure(GatewayNotFound)
    case Some(gw) =>
      if gw.wgPublicIP.None? || gw.wgPublicPort.None? then Failure(PublicEndpointMissing)
      else
        match NextWGPrivateIP(nodes)
        case None => Failure(NoWGPrivateIPs)
        case Some(ip) =>
          match ChooseSubnet(nodes, forced)
          case Failure(e) => Failure(e)
          case Success(subnet) =>
            Success(SaveNode(nodes, AddClientCert(gw, f)) + [SpokeRow(Server, gw, ip, Some(subnet), f)])
  }

  function InsertClient(nodes: Table, f: Fresh): Result<Table, Error> {
    match NextWGPrivateIP(nodes)
    case None => Failure(NoWGPrivateIPs)
    case Some(ip) =>
      match FindGateway(nodes)
      case None => Failure(GatewayNotFound)
      case Some(gw) => Success(SaveNode(nodes, AddClientCert(gw, f)) + [SpokeRow(Client, gw, ip, None, f)])
  }

  function CreateServer(nodes: Table, forced: Option<string>, f: Fresh): Written {
    match InsertServer(nodes, forced, f)
    case Failure(e) => Written(nodes, Failure(e))
    case Success(inserted) => RefreshAndReload(inserted, f.id)
  }

  function CreateClient(nodes: Table, f: Fresh): Written {
    match InsertClient(nodes, f)
    case Failure(e) => Written(nodes, Failure(e))
    case Success(inserted) => RefreshAndReload(inserted, f.id)
  }

  function CreateGateway(nodes: Table, site: Site, f: Fresh): Written {
    if FindGateway(nodes).Some? then Written(nodes, Failure(GatewayExists))
    else
      match NextWGPrivateIP(nodes)
      case None => Written(nodes, Failure(NoWGPrivateIPs))
      case Some(ip) => RefreshAndReload(nodes + [GatewayRow(site, ip, f)], f.id)
  }

  function EnsureGateway(nodes: Table, site: Site, f: Fresh): Written {
    match FindGateway(nodes)
    case Some(gw) => Written(nodes, Success(gw))
    case None => CreateGateway(nodes, site, f)
  }

  // ---- what allocation promises

  lemma {:induction false} FreeIPIsLowest(nodes: Table, from: nat)
    ensures match FreeIPFrom(nodes, from)
            case None => forall k :: from <= k <= WG_PRIVATE_IP_END ==> IPUsed(nodes, WGPrivateIP(k))
            case Some(ip) =>
              && ip == WGPrivateIP(ip.o3) && from <= ip.o3 <= WG_PRIVATE_IP_END && !IPUsed(nodes, ip)
              && forall k :: from <= k < ip.o3 ==> IPUsed(nodes, WGPrivateIP(k))
    decreases WG_PRIVATE_IP_END + 1 - from
  {
    if from <= WG_PRIVATE_IP_END && IPUsed(nodes, WGPrivateIP(from)) {
      FreeIPIsLowest(nodes, from + 1);
    }
  }

  lemma {:induction false} FreeSubnetIsLowest(nodes: Table, from: nat)
    ensures match FreeSubnetFrom(nodes, from)
            case None => forall k :: from <= k <= DOCKER_SUBNET_END ==> SubnetUsed(nodes, DockerSubnet(k))
            case Some(net) =>
              && net == DockerSubnet(net.ip.o1) && from <= net.ip.o1 <= DOCKER_SUBNET_END && !SubnetUsed(nodes, net)
              && forall k :: from <= k < net.ip.o1 ==> SubnetUsed(nodes, DockerSubnet(k))
    decreases DOCKER_SUBNET_END + 1 - from
  {
    if from <= DOCKER_SUBNET_END && SubnetUsed(nodes, DockerSubnet(from)) {
      FreeSubnetIsLowest(nodes, from + 1);
    }
  }

  ghost function AddressesOf(nodes: Table): set<IPv4> {
    set i | 0 <= i < |nodes| :: nodes[i].address.ip
  }

  lemma {:induction false} AddressCount(nodes: Table)
    ensures |AddressesOf(nodes)| <= |nodes|
  {
    if nodes != [] {
      var front := nodes[..|nodes| - 1];
      AddressCount(front);
      assert AddressesOf(nodes) == AddressesOf(front) + {nodes[|nodes| - 1].address.ip};
    }
  }

  /** An address is free as long as the table has fewer than 254 rows. */
  lemma FreeIPExists(nodes: Table)
    requires |nodes| <= WG_PRIVATE_IP_END - WG_PRIVATE_IP_START
    ensures NextWGPrivateIP(nodes).Some?
  {
    FreeIPIsLowest(nodes, WG_PRIVATE_IP_START);
    if NextWGPrivateIP(nodes).None? {
      var all := seq(254, i requires 0 <= i < 254 => WGPrivateIP(i + 1));
      forall i | 0 <= i < |all|
        ensures all[i] in AddressesOf(nodes)
      {
        assert IPUsed(nodes, WGPrivateIP(i + 1));
      }
      DistinctFit(all, AddressesOf(nodes));
      AddressCount(nodes);
    }
  }

  ghost function SubnetsOf(nodes: Table): set<IPNet> {
    set i | 0 <= i < |nodes| && nodes[i].role == Server && nodes[i].dockerSubnet.Some? :: nodes[i].dockerSubnet.value
  }

  lemma {:induction false} SubnetCount(nodes: Table)
    ensures |SubnetsOf(nodes)| <= CountRoles(nodes, {Server})
  {
    if nodes != [] {
      var front, last := nodes[..|nodes| - 1], nodes[|nodes| - 1];
      SubnetCount(front);
      assert SubnetsOf(nodes)
          == SubnetsOf(front) + if last.role == Server && last.dockerSubnet.Some? then {last.dockerSubnet.value} else {};
    }
  }

  /** A docker subnet is free as long as fewer than 12 servers exist, custom subnets included. */
  lemma FreeSubnetExists(nodes: Table)
    requires forall i :: 0 <= i < |nodes| && nodes[i].role == Gateway ==> nodes[i].dockerSubnet.None?
    requires CountRoles(nodes, {Server}) <= DOCKER_SUBNET_END - DOCKER_SUBNET_START
    ensures NextDockerSubnet(nodes).Some?
  {
    FreeSubnetIsLowest(nodes, DOCKER_SUBNET_START);
    if NextDockerSubnet(nodes).None? {
      var all := seq(12, i requires 0 <= i < 12 => DockerSubnet(i + 20));
      forall i | 0 <= i < |all|
        ensures all[i] in SubnetsOf(nodes)
      {
        assert SubnetUsed(nodes, DockerSubnet(i + 20));
      }
      DistinctFit(all, SubnetsOf(nodes));
      SubnetCount(nodes);
    }
  }

  // ---- consistency

  /** Everything in a row but the recomputed configuration. */
  function Identity(n: Node): Node { n.(dns := [], peers := []) }

  /** What routing depends on: a row without configuration, labels and certificates. */
  function Core(n: Node): Node { n.(dns := [], peers := [], labels := [], certs := map[]) }

  predicate SameCores(a: Table, b: Table) {
    |a| == |b| && forall i :: 0 <= i < |a| ==> Core(a[i]) == Core(b[i])
  }

  predicate WellFormed(n: Node) {
    && n.address.ones == 24
    && n.address.ip == WGPrivateIP(n.address.ip.o3)
    && WG_PRIVATE_IP_START <= n.address.ip.o3 <= WG_PRIVATE_IP_END
    && (n.dockerSubnet.Some? <==> n.role == Server)
  }

  /** Two rows share no identifier, key, address or subnet. */
  predicate Apart(a: Node, b: Node) {
    && a.id != b.id
    && a.publicKey != b.publicKey
    && a.address.ip != b.address.ip
    && (a.dockerSubnet.Some? ==> a.dockerSubnet != b.dockerSubnet)
  }

  /** The gateway is the first row, alone in its role, reachable, and owns 10.0.0.1. */
  predicate HubFirst(nodes: Table) {
    nodes != [] ==>
      && nodes[0].role == Gateway && nodes[0].isCurrentNode
      && nodes[0].address.ip == WGPrivateIP(WG_PRIVATE_IP_START)
      && nodes[0].wgPublicIP.Some? && nodes[0].wgPublicPort.Some?
      && forall i :: 1 <= i < |nodes| ==> nodes[i].role != Gateway
  }

  ghost predicate Consistent(nodes: Table) {
    && HubFirst(nodes)
    && (forall i :: 0 <= i < |nodes| ==> WellFormed(nodes[i]))
    && (forall i, j :: 0 <= i < j < |nodes| ==> Apart(nodes[i], nodes[j]))
  }

  lemma ConsistentSameCores(a: Table, b: Table)
    requires Consistent(a) && SameCores(a, b)
    ensures Consistent(b)
  {
    forall i | 0 <= i < |b|
      ensures WellFormed(b[i])
    {
      assert WellFormed(a[i]) && Core(a[i]) == Core(b[i]);
    }
    forall i, j | 0 <= i < j < |b|
      ensures Apart(b[i], b[j])
    {
      assert Apart(a[i], a[j]) && Core(a[i]) == Core(b[i]) && Core(a[j]) == Core(b[j]);
    }
    if b != [] {
      assert Core(a[0]) == Core(b[0]);
      forall i | 1 <= i < |b|
        ensures b[i].role != Gateway
      {
        assert Core(a[i]) == Core(b[i]);
      }
    }
  }

  predicate Unused(nodes: Table, f: Fresh) {
    forall i :: 0 <= i < |nodes| ==> nodes[i].id != f.id && nodes[i].publicKey != f.publicKey
  }

  ghost function UpTo(n: nat): set<int> {
    if n == 0 then {} else UpTo(n - 1) + {n}
  }

  lemma {:induction false} UpToSize(n: nat)
    ensures |UpTo(n)| == n && forall k :: k in UpTo(n) <==> 1 <= k <= n
  {
    if n > 0 {
      UpToSize(n - 1);
    }
  }

  /** On a consistent table the count decides: an address is free if and only if fewer than 254 rows exist. */
  lemma FreeIPExactly(nodes: Table)
    requires Consistent(nodes)
    ensures NextWGPrivateIP(nodes).Some? <==> AvailableWireguardClients(nodes) > 0
  {
    if |nodes| < 254 {
      FreeIPExists(nodes);
    } else {
      FreeIPIsLowest(nodes, WG_PRIVATE_IP_START);
      hide FreeIPFrom, HubFirst;
      if NextWGPrivateIP(nodes).Some? {
        var free := NextWGPrivateIP(nodes).value;
        var rows := seq(|nodes|, i requires 0 <= i < |nodes| => nodes[i].address.ip.o3 as int);
        var pool := UpTo(WG_PRIVATE_IP_END);
        UpToSize(WG_PRIVATE_IP_END);
        hide UpTo;
        forall i | 0 <= i < |rows|
          ensures rows[i] in pool - {free.o3}
        {
          assert WellFormed(nodes[i]);
        }
        forall i, j | 0 <= i < j < |rows|
          ensures rows[i] != rows[j]
        {
          assert Apart(nodes[i], nodes[j]) && WellFormed(nodes[i]) && WellFormed(nodes[j]);
        }
        DistinctFit(rows, pool - {free.o3});
      }
    }
  }

  lemma SaveGateway(nodes: Table, gw: Node)
    requires Consistent(nodes) && nodes != [] && gw.id == nodes[0].id
    ensures SaveNode(nodes, gw) == nodes[0 := gw]
  {
    forall i | 1 <= i < |nodes|
      ensures nodes[i].id != gw.id
    {
      assert Apart(nodes[0], nodes[i]);
    }
  }

  lemma ConsistentAppend(nodes: Table, n: Node)
    requires Consistent(nodes) && nodes != [] && n.role != Gateway && WellFormed(n)
    requires forall i :: 0 <= i < |nodes| ==> nodes[i].id != n.id && nodes[i].publicKey != n.publicKey
    requires !IPUsed(nodes, n.address.ip)
    requires n.dockerSubnet.Some? ==> !SubnetUsed(nodes, n.dockerSubnet.value)
    ensures Consistent(nodes + [n])
  {
    forall i | 0 <= i < |nodes|
      ensures Apart(nodes[i], n)
    {
      assert WellFormed(nodes[i]);
    }
  }

  /** Everything a new server or client row holds but its address and subnet, column by column. */
  predicate FreshSpoke(n: Node, gw: Node, role: Role, f: Fresh) {
    && n.id == f.id && n.role == role && !n.isCurrentNode
    && n.privateKey == f.privateKey && n.publicKey == f.publicKey
    && n.wgPublicIP.None? && n.wgPublicPort.None?
    && n.gatewayPublicIP == gw.gatewayPublicIP && n.gatewayPublicPort == gw.gatewayPublicPort
    && n.certs == map[] && n.clientCert == Some(f.cert) && n.labels == []
  }

  /** What an insertion does to a consistent table: one new consistent row, one new certificate, nothing else. */
  ghost predicate Inserted(before: Table, after: Table, role: Role, f: Fresh) {
    && before != [] && |after| == |before| + 1
    && after[..|before|] == before[0 := AddClientCert(before[0], f)]
    && var n := after[|before|];
       && FreshSpoke(n, before[0], role, f)
       && !IPUsed(before, n.address.ip)
       && (forall k :: WG_PRIVATE_IP_START <= k < n.address.ip.o3 ==> IPUsed(before, WGPrivateIP(k)))
       && (role == Server ==> n.dockerSubnet.Some? && !SubnetUsed(before, n.dockerSubnet.value))
  }

  lemma InsertClientEffect(nodes: Table, f: Fresh)
    requires Consistent(nodes) && InsertClient(nodes, f).Success? && Unused(nodes, f)
    ensures Inserted(nodes, InsertClient(nodes, f).value, Client, f)
    ensures Consistent(InsertClient(nodes, f).value)
  {
    var gw := nodes[0];
    FreeIPIsLowest(nodes, WG_PRIVATE_IP_START);
    SaveGateway(nodes, AddClientCert(gw, f));
    var n := SpokeRow(Client, gw, NextWGPrivateIP(nodes).value, None, f);
    ConsistentAppend(nodes, n);
    ConsistentSameCores(nodes + [n], InsertClient(nodes, f).value);
  }

  lemma InsertServerShape(nodes: Table, forced: Option<string>, f: Fresh)
    requires Consistent(nodes) && InsertServer(nodes, forced, f).Success?
    ensures nodes != [] && NextWGPrivateIP(nodes).Some? && ChooseSubnet(nodes, forced).Success?
    ensures InsertServer(nodes, forced, f).value
         == nodes[0 := AddClientCert(nodes[0], f)]
            + [SpokeRow(Server, nodes[0], NextWGPrivateIP(nodes).value, Some(ChooseSubnet(nodes, forced).value), f)]
  {
    hide NextWGPrivateIP, ChooseSubnet, SaveNode;
    SaveGateway(nodes, AddClientCert(nodes[0], f));
  }

  /** The subnet chosen is free; an automatic one is the lowest free one. */
  lemma ChosenSubnet(nodes: Table, forced: Option<string>)
    requires ChooseSubnet(nodes, forced).Success?
    ensures !SubnetUsed(nodes, ChooseSubnet(nodes, forced).value)
    ensures forced.Some? ==> ParseNet(forced.value, true) == Success(ChooseSubnet(nodes, forced).value)
    ensures forced.None? ==>
              var net := ChooseSubnet(nodes, forced).value;
              && net == DockerSubnet(net.ip.o1)
              && DOCKER_SUBNET_START <= net.ip.o1 <= DOCKER_SUBNET_END
              && forall k :: DOCKER_SUBNET_START <= k < net.ip.o1 ==> SubnetUsed(nodes, DockerSubnet(k))
  {
    FreeSubnetIsLowest(nodes, DOCKER_SUBNET_START);
    hide FreeSubnetFrom, ParseNet, SubnetUsed;
  }

  lemma InsertServerEffect(nodes: Table, forced: Option<string>, f: Fresh)
    requires Consistent(nodes) && InsertServer(nodes, forced, f).Success? && Unused(nodes, f)
    ensures Inserted(nodes, InsertServer(nodes, forced, f).value, Server, f)
    ensures Consistent(InsertServer(nodes, forced, f).value)
    ensures forced.Some? ==>
              ParseNet(forced.value, true) == Success(InsertServer(nodes, forced, f).value[|nodes|].dockerSubnet.value)
    ensures forced.None? ==>
              var net := InsertServer(nodes, forced, f).value[|nodes|].dockerSubnet.value;
              && net == DockerSubnet(net.ip.o1)
              && DOCKER_SUBNET_START <= net.ip.o1 <= DOCKER_SUBNET_END
              && forall k :: DOCKER_SUBNET_START <= k < net.ip.o1 ==> SubnetUsed(nodes, DockerSubnet(k))
  {
    InsertServerShape(nodes, forced, f);
    ChosenSubnet(nodes, forced);
    FreeIPIsLowest(nodes, WG_PRIVATE_IP_START);
    hide InsertServer, FreeIPFrom, ChooseSubnet, ParseNet;
    var n := SpokeRow(Server, nodes[0], NextWGPrivateIP(nodes).value, Some(ChooseSubnet(nodes, forced).value), f);
    ConsistentAppend(nodes, n);
    assert SameCores(nodes + [n], nodes[0 := AddClientCert(nodes[0], f)] + [n]);
    ConsistentSameCores(nodes + [n], InsertServer(nodes, forced, f).value);
  }

  // ---- what a refresh promises

  lemma {:induction false} ConfigSameCores(a: Table, b: Table)
    requires SameCores(a, b) && ServersHaveSubnets(a)
    ensures ServersHaveSubnets(b)
    ensures GatewayPeers(a) == GatewayPeers(b) && ServerAddresses(a) == ServerAddresses(b)
  {
    assert ServersHaveSubnets(b) by {
      forall i | 0 <= i < |b| && b[i].role == Server
        ensures b[i].dockerSubnet.Some?
      {
        assert Core(a[i]) == Core(b[i]);
      }
    }
    if a != [] {
      var n := |a| - 1;
      ConfigSameCores(a[..n], b[..n]);
      assert Core(a[n]) == Core(b[n]);
    }
  }

  lemma {:induction false} GatewaySameCores(a: Table, b: Table)
    requires SameCores(a, b)
    ensures match FindGateway(a)
            case None => FindGateway(b).None?
            case Some(gw) => FindGateway(b).Some? && Core(gw) == Core(FindGateway(b).value)
  {
    if a != [] {
      assert Core(a[0]) == Core(b[0]);
      if a[0].role != Gateway {
        GatewaySameCores(a[1..], b[1..]);
      }
    }
  }

  lemma RefreshNodeSameCores(n: Node, m: Node, gw: Node, gw': Node, a: Table, b: Table)
    requires SameCores(a, b) && ServersHaveSubnets(a) && Core(gw) == Core(gw') && n.role == m.role
    requires gw.wgPublicIP.Some? && gw.wgPublicPort.Some?
    ensures ServersHaveSubnets(b)
    ensures RefreshNode(n, gw, a).dns == RefreshNode(m, gw', b).dns
    ensures RefreshNode(n, gw, a).peers == RefreshNode(m, gw', b).peers
  {
    ConfigSameCores(a, b);
  }

  /** Frame: a refresh rewrites peers and DNS and nothing else. */
  lemma RefreshFrame(nodes: Table)
    requires Refresh(nodes).Success?
    ensures var r := Refresh(nodes).value;
            |r| == |nodes| && forall i :: 0 <= i < |nodes| ==> Identity(r[i]) == Identity(nodes[i])
  {
  }

  /** Refreshing twice is refreshing once, on every table on which it succeeds. */
  lemma RefreshIdempotent(nodes: Table)
    requires Refresh(nodes).Success?
    ensures Refresh(Refresh(nodes).value) == Refresh(nodes)
  {
    var r := Refresh(nodes).value;
    var gw := FindGateway(nodes).value;
    GatewaySameCores(nodes, r);
    ConfigSameCores(nodes, r);
    var gw' := FindGateway(r).value;
    var again := Refresh(r).value;
    forall i | 0 <= i < |nodes|
      ensures again[i] == r[i]
    {
      RefreshNodeSameCores(nodes[i], r[i], gw, gw', nodes, r);
    }
    assert again == r;
  }

  /** On a consistent table a refresh never fails: in particular no server lacks a subnet. */
  lemma RefreshWellDefined(nodes: Table)
    requires Consistent(nodes) && nodes != []
    ensures Refresh(nodes).Success?
    ensures Consistent(Refresh(nodes).value) && SameCores(nodes, Refresh(nodes).value)
    ensures ServersHaveSubnets(nodes)
  {
    assert ServersHaveSubnets(nodes) by {
      forall i | 0 <= i < |nodes| && nodes[i].role == Server
        ensures nodes[i].dockerSubnet.Some?
      {
        assert WellFormed(nodes[i]);
      }
    }
    RefreshFrame(nodes);
    var r := Refresh(nodes).value;
    forall i | 0 <= i < |nodes|
      ensures Core(nodes[i]) == Core(r[i])
    {
      assert Identity(r[i]) == Identity(nodes[i]);
    }
    ConsistentSameCores(nodes, r);
  }
}
