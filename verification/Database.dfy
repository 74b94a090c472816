/**
 * The gateway database with its repositories and the commands that use them, as a mutable object:
 * the loops, text comparisons and early exits of the source, each proved to do what the functions
 * of Registry and Admission say.
 */
module Database {
  import opened Common
  import opened Text
  import opened Addresses
  import opened Registry
  import opened Admission
  import opened Runs

  // ---- texts the registry writes

  lemma SmallNumbers()
    ensures PrintNat(0) == "0" && PrintNat(10) == "10" && PrintNat(11) == "11" && PrintNat(12) == "12"
    ensures PrintNat(16) == "16" && PrintNat(24) == "24" && PrintNat(127) == "127" && PrintNat(172) == "172"
  {
  }

  lemma Literals()
    ensures Denotes("127.0.0.11", IPNet(DOCKER_DNS, 32))
    ensures Denotes("10.0.0.0/24", SERVER_PEER_ALLOWED)
    ensures Denotes("172.16.0.0/12", DOCKER_ALL_SUBNETS)
  {
    SmallNumbers();
    hide PrintNat;
  }

  lemma Templates(ip: IPv4)
    ensures Denotes(PrintIPv4(ip) + "/32", IPNet(ip, 32)) && Denotes(PrintIPv4(ip) + "/24", IPNet(ip, 24))
  {
    assert PrintNat(32) == "32" && PrintNat(24) == "24";
  }

  lemma CandidateAddress(k: nat)
    requires k <= 255
    ensures ParseIPv4("10.0.0." + PrintNat(k)) == Some(WGPrivateIP(k))
  {
    SmallNumbers();
    hide PrintNat, ParseIPv4;
    assert "10.0.0." + PrintNat(k) == PrintIPv4(WGPrivateIP(k));
    AddressRoundTrip("10.0.0." + PrintNat(k), WGPrivateIP(k));
  }

  lemma CandidateSubnet(k: nat)
    requires k <= 255
    ensures ParseIPv4("172." + PrintNat(k) + ".0.0") == Some(DockerSubnet(k).ip)
  {
    SmallNumbers();
    hide PrintNat, ParseIPv4;
    assert "172." + PrintNat(k) + ".0.0" == PrintIPv4(DockerSubnet(k).ip);
    AddressRoundTrip("172." + PrintNat(k) + ".0.0", DockerSubnet(k).ip);
  }

  lemma ServerTexts(gw: Node)
    ensures ParsedNets([PrintIPv4(gw.address.ip), "127.0.0.11"]) == SpokeDNS(gw, Server)
    ensures ParsedNets(["10.0.0.0/24"]) == SpokeAllowedIPs(gw, Server)
  {
    Literals();
    hide Denotes, ParsedNets;
    var dns, allowed := SpokeDNS(gw, Server), SpokeAllowedIPs(gw, Server);
    BareDenotes(gw.address.ip);
    NothingDropped([PrintIPv4(gw.address.ip), "127.0.0.11"], dns);
    NothingDropped(["10.0.0.0/24"], allowed);
  }

  lemma ClientTexts(gw: Node)
    ensures ParsedNets([PrintIPv4(gw.address.ip)]) == SpokeDNS(gw, Client)
    ensures ParsedNets(["172.16.0.0/12", PrintIPv4(gw.address.ip) + "/24"]) == SpokeAllowedIPs(gw, Client)
  {
    Literals();
    Templates(gw.address.ip);
    hide Denotes, ParsedNets;
    BareDenotes(gw.address.ip);
    NothingDropped([PrintIPv4(gw.address.ip)], SpokeDNS(gw, Client));
    NothingDropped(["172.16.0.0/12", PrintIPv4(gw.address.ip) + "/24"], SpokeAllowedIPs(gw, Client));
  }

  lemma BareDenotes(ip: IPv4)
    ensures Denotes(PrintIPv4(ip), IPNet(ip, 32))
  {
  }

  // ---- filtered lists

  lemma {:induction false} ServerAddressesListed(nodes: Table)
    ensures var servers := FilterRoles(nodes, {Server});
            && |ServerAddresses(nodes)| == |servers|
            && forall i :: 0 <= i < |servers| ==> ServerAddresses(nodes)[i] == HostNet(servers[i])
  {
    if nodes != [] {
      ServerAddressesListed(nodes[..|nodes| - 1]);
    }
  }

  lemma {:induction false} SpokesListed(nodes: Table)
    requires ServersHaveSubnets(nodes)
    ensures var spokes := FilterRoles(nodes, {Client, Server});
            && |GatewayPeers(nodes)| == |spokes|
            && forall i :: 0 <= i < |spokes| ==>
                 && (spokes[i].role == Server ==> spokes[i].dockerSubnet.Some?)
                 && spokes[i].role != Gateway && GatewayPeers(nodes)[i] == PeerFor(spokes[i])
  {
    if nodes != [] {
      SpokesListed(nodes[..|nodes| - 1]);
    }
  }

  lemma {:induction false} SubnetsOfSpokes(nodes: Table)
    requires ServersHaveSubnets(FilterRoles(nodes, {Client, Server}))
    ensures ServersHaveSubnets(nodes)
  {
    if nodes != [] {
      var n, front := |nodes| - 1, FilterRoles(nodes[..|nodes| - 1], {Client, Server});
      var spokes := FilterRoles(nodes, {Client, Server});
      forall i | 0 <= i < |front| && front[i].role == Server
        ensures front[i].dockerSubnet.Some?
      {
        assert front[i] == spokes[i];
      }
      SubnetsOfSpokes(nodes[..n]);
      if nodes[n].role == Server {
        assert spokes[|front|] == nodes[n];
      }
    }
  }

  lemma SaveAt(nodes: Table, n: Node, i: nat)
    requires UniqueIds(nodes) && i < |nodes| && nodes[i].id == n.id
    ensures SaveNode(nodes, n) == nodes[i := n] && UniqueIds(nodes[i := n])
  {
  }

  class GatewayDatabase {
    var nodes: Table
    var requests: seq<Request>

    constructor ()
      ensures nodes == [] && requests == []
    {
      nodes, requests := [], [];
    }

    function State(): Db
      reads this
    {
      Db(nodes, requests)
    }

    // ---- node repository

    method FilterNodes(allNodes: Table, roles: set<Role>) returns (result: Table)
      ensures result == FilterRoles(allNodes, roles)
    {
      result := [];
      for i := 0 to |allNodes|
        invariant result == FilterRoles(allNodes[..i], roles)
      {
        assert allNodes[..i + 1][..i] == allNodes[..i];
        if allNodes[i].role in roles {
          result := result + [allNodes[i]];
        }
      }
      assert allNodes[..|allNodes|] == allNodes;
    }

    /** The gateway's DNS list, through text and back. */
    method GatewayDNSFromText(oldNodes: Table) returns (dns: seq<IPNet>)
      ensures dns == GatewayDNS(oldNodes)
    {
      var serverNodes := FilterNodes(oldNodes, {Server});
      var addresses := ["127.0.0.11"];
      for k := 0 to |serverNodes|
        invariant |addresses| == k + 1 && addresses[0] == "127.0.0.11"
        invariant forall j :: 0 <= j < k ==> addresses[j + 1] == PrintIPv4(serverNodes[j].address.ip)
      {
        addresses := addresses + [PrintIPv4(serverNodes[k].address.ip)];
      }
      dns := MapStringsToIPNetMarshables(addresses);
      ServerAddressesListed(oldNodes);
      Literals();
      var nets := GatewayDNS(oldNodes);
      forall j | 0 <= j < |nets|
        ensures Denotes(addresses[j], nets[j])
      {
        assert j > 0 ==> nets[j] == HostNet(serverNodes[j - 1]) && addresses[j] == PrintIPv4(serverNodes[j - 1].address.ip);
      }
      NothingDropped(addresses, nets);
    }

    /** The allowed IPs of one gateway peer, through text and back. */
    method PeerAllowedIPs(n: Node) returns (nets: seq<IPNet>)
      requires n.role != Gateway && (n.role == Server ==> n.dockerSubnet.Some?)
      ensures nets == PeerFor(n).allowedIPs
    {
      var allowedIPs := [];
      match n.role {
        case Server =>
          allowedIPs := [PrintIPv4(n.address.ip) + "/32", PrintNet(n.dockerSubnet.value)];
        case Client =>
          allowedIPs := [PrintIPv4(n.address.ip) + "/32"];
        case Gateway =>
      }
      nets := MapStringsToIPNetMarshables(allowedIPs);
      Templates(n.address.ip);
      NothingDropped(allowedIPs, PeerFor(n).allowedIPs);
    }

    /** The gateway's peers; Failure stands for the panic on a server without a subnet. */
    method GatewayPeersFromText(oldNodes: Table) returns (r: Result<seq<Peer>, Error>)
      ensures ServersHaveSubnets(oldNodes) ==> r == Success(GatewayPeers(oldNodes))
      ensures !ServersHaveSubnets(oldNodes) ==> r == Failure(NilDockerSubnet)
    {
      var spokes := FilterNodes(oldNodes, {Client, Server});
      var peers: seq<Peer> := [];
      for k := 0 to |spokes|
        invariant |peers| == k
        invariant forall j :: 0 <= j < k ==> spokes[j].role == Server ==> spokes[j].dockerSubnet.Some?
        invariant forall j :: 0 <= j < k ==> peers[j] == PeerFor(spokes[j])
      {
        FilteredRole(oldNodes, {Client, Server}, k);
        if spokes[k].role == Server && spokes[k].dockerSubnet.None? {
          if ServersHaveSubnets(oldNodes) {
            SpokesListed(oldNodes);
          }
          return Failure(NilDockerSubnet);
        }
        var allowed := PeerAllowedIPs(spokes[k]);
        peers := peers + [Peer(spokes[k].publicKey, None, allowed, None)];
      }
      SubnetsOfSpokes(oldNodes);
      SpokesListed(oldNodes);
      assert peers == GatewayPeers(oldNodes);
      r := Success(peers);
    }

    lemma {:induction false} FilteredRole(all: Table, roles: set<Role>, k: nat)
      requires k < |FilterRoles(all, roles)|
      ensures FilterRoles(all, roles)[k].role in roles
    {
      var front := FilterRoles(all[..|all| - 1], roles);
      if k < |front| {
        FilteredRole(all[..|all| - 1], roles, k);
      }
    }

    method SpokeConfigFromText(role: Role, gatewayNode: Node) returns (dns: seq<IPNet>, allowed: seq<IPNet>)
      requires role != Gateway
      ensures dns == SpokeDNS(gatewayNode, role) && allowed == SpokeAllowedIPs(gatewayNode, role)
    {
      var dnsServerAddresses := [PrintIPv4(gatewayNode.address.ip)];
      var allowedIPs := [];
      match role {
        case Server =>
          dnsServerAddresses := dnsServerAddresses + ["127.0.0.11"];
          allowedIPs := ["10.0.0.0/24"];
        case Client =>
          allowedIPs := ["172.16.0.0/12", PrintIPv4(gatewayNode.address.ip) + "/24"];
        case Gateway =>
      }
      dns := MapStringsToIPNetMarshables(dnsServerAddresses);
      allowed := MapStringsToIPNetMarshables(allowedIPs);
      if role == Server {
        ServerTexts(gatewayNode);
        assert dnsServerAddresses == [PrintIPv4(gatewayNode.address.ip), "127.0.0.11"];
      } else {
        ClientTexts(gatewayNode);
      }
      hide ParsedNets, SpokeDNS, SpokeAllowedIPs, PrintIPv4;
    }

    /** One pass of the loop of updateNodes over one row. */
    method RefreshedRow(n: Node, gatewayNode: Node, oldNodes: Table) returns (r: Result<Node, Error>)
      requires gatewayNode.wgPublicIP.Some? && gatewayNode.wgPublicPort.Some?
      ensures ServersHaveSubnets(oldNodes) ==> r == Success(RefreshNode(n, gatewayNode, oldNodes))
      ensures !ServersHaveSubnets(oldNodes) && n.role == Gateway ==> r == Failure(NilDockerSubnet)
      ensures r.Success? ==> r.value.id == n.id
      ensures r.Failure? ==> !ServersHaveSubnets(oldNodes) && r == Failure(NilDockerSubnet)
    {
      var node := n;
      if node.role == Gateway {
        var dns := GatewayDNSFromText(oldNodes);
        var peers := GatewayPeersFromText(oldNodes);
        if peers.Failure? {
          return Failure(peers.error);
        }
        node := node.(dns := dns, peers := peers.value);
      }
      if node.role == Server || node.role == Client {
        var gatewayEndpoint := Endpoint(ParseIPv4(gatewayNode.wgPublicIP.value), gatewayNode.wgPublicPort.value);
        var dns, allowed := SpokeConfigFromText(node.role, gatewayNode);
        node := node.(dns := dns,
          peers := [Peer(gatewayNode.publicKey, Some(gatewayEndpoint), allowed, Some(PERSISTENT_KEEPALIVE))]);
      }
      r := Success(node);
    }

    lemma {:induction false} GatewayInTable(all: Table) returns (k: nat)
      requires FindGateway(all).Some?
      ensures k < |all| && all[k] == FindGateway(all).value && all[k].role == Gateway
    {
      if all[0].role == Gateway {
        k := 0;
      } else {
        k := GatewayInTable(all[1..]);
        k := k + 1;
      }
    }

    /** updateNodes: rewrite every row in one transaction, or leave the table alone. */
    method UpdateNodes() returns (r: Result<(), Error>)
      requires UniqueIds(nodes)
      modifies this`nodes
      ensures match Refresh(old(nodes))
              case Success(t) => r == Success(()) && nodes == t
              case Failure(e) => r == Failure(e) && nodes == old(nodes)
    {
      var gatewayNode := FindGateway(nodes);
      if gatewayNode.None? {
        return Failure(GatewayNotFound);
      }
      var gw := gatewayNode.value;
      if gw.wgPublicIP.None? || gw.wgPublicPort.None? {
        return Failure(PublicEndpointMissing);
      }
      var oldNodes := nodes;
      ghost var hub := GatewayInTable(oldNodes);
      for i := 0 to |oldNodes|
        invariant |nodes| == |oldNodes| && UniqueIds(nodes)
        invariant forall k :: i <= k < |oldNodes| ==> nodes[k] == oldNodes[k]
        invariant ServersHaveSubnets(oldNodes) ==>
                    forall k :: 0 <= k < i ==> nodes[k] == RefreshNode(oldNodes[k], gw, oldNodes)
        invariant !ServersHaveSubnets(oldNodes) ==> i <= hub
      {
        var row := RefreshedRow(oldNodes[i], gw, oldNodes);
        if row.Failure? {
          nodes := oldNodes;
          return Failure(row.error);
        }
        SaveAt(nodes, row.value, i);
        nodes := SaveNode(nodes, row.value);
      }
      r := Success(());
    }

    method IsDockerSubnetAvailable(rows: Table, dockerSubnet: IPNet) returns (available: bool)
      ensures available <==> !SubnetUsed(rows, dockerSubnet)
    {
      for i := 0 to |rows|
        invariant forall k :: 0 <= k < i && rows[k].role in DOCKER_ROLES ==> rows[k].dockerSubnet != Some(dockerSubnet)
      {
        if rows[i].role in DOCKER_ROLES && rows[i].dockerSubnet.Some? {
          PrintNetInjective(rows[i].dockerSubnet.value, dockerSubnet);
          if PrintNet(rows[i].dockerSubnet.value) == PrintNet(dockerSubnet) {
            return false;
          }
        }
      }
      return true;
    }

    /**
     * The gateway counts against the twelve subnets though it has none: even when no subnet counts as
     * available, up to the twelfth, one can still be handed out.
     */
    method TotalAndAvailableDockerSubnets() returns (total: int, available: int)
      ensures total == CountRoles(nodes, DOCKER_ROLES) && total + available == 12
      ensures Consistent(nodes) && nodes != [] && available >= 0 ==> NextDockerSubnet(nodes).Some?
    {
      var rows := FilterNodes(nodes, DOCKER_ROLES);
      total := |rows|;
      available := DOCKER_SUBNET_END - DOCKER_SUBNET_START + 1 - |rows|;
      if Consistent(nodes) && nodes != [] && available >= 0 {
        SubnetBeyondCount(nodes);
      }
    }

    lemma SubnetBeyondCount(all: Table)
      requires Consistent(all) && all != [] && CountRoles(all, DOCKER_ROLES) <= 12
      ensures NextDockerSubnet(all).Some?
    {
      CountServersOnly(all);
      hide CountRoles, FreeSubnetFrom;
      forall k | 0 <= k < |all| && all[k].role == Gateway
        ensures all[k].dockerSubnet.None?
      {
        assert WellFormed(all[k]);
      }
      FreeSubnetExists(all);
    }

    /** The caller may create a node exactly when an address is available. */
    method TotalAvailableWireguardClients() returns (total: int, available: int)
      ensures total == |nodes| && total + available == 254
      ensures Consistent(nodes) ==> (available > 0 <==> NextWGPrivateIP(nodes).Some?)
    {
      total := |nodes|;
      available := WG_PRIVATE_IP_END - WG_PRIVATE_IP_START + 1 - |nodes|;
      if Consistent(nodes) {
        FreeIPExactly(nodes);
      }
    }

    /** The scan of 172.20.0.0/16 to 172.31.0.0/16 with its subnetExists flag. */
    method GetNextAssignableDockerSubnet(rows: Table) returns (r: Result<IPNet, Error>)
      ensures r == match NextDockerSubnet(rows) case None => Failure(NoDockerSubnets) case Some(net) => Success(net)
    {
      var networkNum := DOCKER_SUBNET_START;
      while networkNum <= DOCKER_SUBNET_END
        invariant DOCKER_SUBNET_START <= networkNum <= DOCKER_SUBNET_END + 1
        invariant NextDockerSubnet(rows) == FreeSubnetFrom(rows, networkNum)
      {
        CandidateSubnet(networkNum);
        var ip := ParseIPv4("172." + PrintNat(networkNum) + ".0.0").value;
        var proposed := IPNet(ip, 16);
        var subnetExists := false;
        for i := 0 to |rows|
          invariant !subnetExists
          invariant forall k :: 0 <= k < i && rows[k].role in DOCKER_ROLES ==> rows[k].dockerSubnet != Some(proposed)
        {
          if rows[i].role in DOCKER_ROLES && rows[i].dockerSubnet.Some? {
            PrintNetInjective(rows[i].dockerSubnet.value, proposed);
            if PrintNet(rows[i].dockerSubnet.value) == PrintNet(proposed) {
              subnetExists := true;
              break;
            }
          }
        }
        assert subnetExists <==> SubnetUsed(rows, proposed);
        if !subnetExists {
          return Success(proposed);
        }
        networkNum := networkNum + 1;
      }
      r := Failure(NoDockerSubnets);
    }

    /** The scan of 10.0.0.1 to 10.0.0.254 with its ipExists flag. */
    method GetNextAssignableWGPrivateIP(rows: Table) returns (r: Result<IPv4, Error>)
      ensures r == match NextWGPrivateIP(rows) case None => Failure(NoWGPrivateIPs) case Some(ip) => Success(ip)
    {
      var networkNum := WG_PRIVATE_IP_START;
      while networkNum <= WG_PRIVATE_IP_END
        invariant WG_PRIVATE_IP_START <= networkNum <= WG_PRIVATE_IP_END + 1
        invariant NextWGPrivateIP(rows) == FreeIPFrom(rows, networkNum)
      {
        CandidateAddress(networkNum);
        var ip := ParseIPv4("10.0.0." + PrintNat(networkNum)).value;
        var proposedIPStr := PrintIPv4(ip);
        var ipExists := false;
        for i := 0 to |rows|
          invariant !ipExists
          invariant forall k :: 0 <= k < i ==> rows[k].address.ip != ip
        {
          PrintIPv4Injective(rows[i].address.ip, ip);
          if PrintIPv4(rows[i].address.ip) == proposedIPStr {
            ipExists := true;
            break;
          }
        }
        assert ipExists <==> IPUsed(rows, ip);
        if !ipExists {
          return Success(ip);
        }
        networkNum := networkNum + 1;
      }
      r := Failure(NoWGPrivateIPs);
    }

    /** What every creation does after its transaction committed. */
    method RefreshThenReload(id: string) returns (r: Result<Node, Error>)
      requires UniqueIds(nodes)
      modifies this`nodes
      ensures Written(nodes, r) == RefreshAndReload(old(nodes), id)
    {
      var u := UpdateNodes();
      if u.Failure? {
        return Failure(u.error);
      }
      r := GetByID(nodes, id);
    }

    method CreateGateway(site: Site, f: Fresh) returns (r: Result<Node, Error>)
      requires UniqueIds(nodes) && Unused(nodes, f)
      modifies this`nodes
      ensures Written(nodes, r) == Registry.CreateGateway(old(nodes), site, f)
    {
      if FindGateway(nodes).Some? {
        return Failure(GatewayExists);
      }
      var ip := GetNextAssignableWGPrivateIP(nodes);
      if ip.Failure? {
        return Failure(ip.error);
      }
      nodes := nodes + [GatewayRow(site, ip.value, f)];
      r := RefreshThenReload(f.id);
    }

    method EnsureGatewayNode(site: Site, f: Fresh) returns (r: Result<Node, Error>)
      requires UniqueIds(nodes) && Unused(nodes, f)
      modifies this`nodes
      ensures Written(nodes, r) == EnsureGateway(old(nodes), site, f)
    {
      var gatewayNode := FindGateway(nodes);
      if gatewayNode.Some? {
        return Success(gatewayNode.value);
      }
      r := CreateGateway(site, f);
    }

    /** The transaction of CreateServer; allocation reads the committed rows, a failure rolls back. */
    method InsertServerRow(forced: Option<string>, f: Fresh) returns (r: Result<(), Error>)
      requires UniqueIds(nodes) && Unused(nodes, f)
      modifies this`nodes
      ensures match InsertServer(old(nodes), forced, f)
              case Success(t) => r == Success(()) && nodes == t && UniqueIds(nodes)
              case Failure(e) => r == Failure(e) && nodes == old(nodes)
    {
      var committed := nodes;
      var gatewayNode := FindGateway(nodes);
      if gatewayNode.None? {
        return Failure(GatewayNotFound);
      }
      var gw := AddClientCert(gatewayNode.value, f);
      nodes := SaveNode(nodes, gw);
      if gw.wgPublicIP.None? || gw.wgPublicPort.None? {
        nodes := committed;
        return Failure(PublicEndpointMissing);
      }
      var ip := GetNextAssignableWGPrivateIP(committed);
      if ip.Failure? {
        nodes := committed;
        return Failure(ip.error);
      }
      var subnet: IPNet;
      if forced.Some? {
        var parsed := ParseNet(forced.value, true);
        if parsed.Failure? {
          nodes := committed;
          return Failure(BadSubnet(parsed.error));
        }
        var available := IsDockerSubnetAvailable(committed, parsed.value);
        if !available {
          nodes := committed;
          return Failure(SubnetInUse);
        }
        subnet := parsed.value;
      } else {
        var next := GetNextAssignableDockerSubnet(committed);
        if next.Failure? {
          nodes := committed;
          return Failure(next.error);
        }
        subnet := next.value;
      }
      SavedIds(committed, gatewayNode.value, gw);
      nodes := nodes + [SpokeRow(Server, gatewayNode.value, ip.value, Some(subnet), f)];
      r := Success(());
    }

    lemma SavedIds(all: Table, gw: Node, saved: Node)
      requires UniqueIds(all) && FindGateway(all) == Some(gw) && saved.id == gw.id
      ensures var t := SaveNode(all, saved);
              |t| == |all| && UniqueIds(t) && forall i :: 0 <= i < |t| ==> t[i].id == all[i].id
    {
      var k := GatewayInTable(all);
      SaveAt(all, saved, k);
    }

    method CreateServer(forced: Option<string>, f: Fresh) returns (r: Result<Node, Error>)
      requires UniqueIds(nodes) && Unused(nodes, f)
      modifies this`nodes
      ensures Written(nodes, r) == Registry.CreateServer(old(nodes), forced, f)
    {
      var t := InsertServerRow(forced, f);
      if t.Failure? {
        return Failure(t.error);
      }
      r := RefreshThenReload(f.id);
    }

    method CreateClient(f: Fresh) returns (r: Result<Node, Error>)
      requires UniqueIds(nodes) && Unused(nodes, f)
      modifies this`nodes
      ensures Written(nodes, r) == Registry.CreateClient(old(nodes), f)
    {
      var ip := GetNextAssignableWGPrivateIP(nodes);
      if ip.Failure? {
        return Failure(ip.error);
      }
      var gatewayNode := FindGateway(nodes);
      if gatewayNode.None? {
        return Failure(GatewayNotFound);
      }
      var gw := AddClientCert(gatewayNode.value, f);
      SavedIds(nodes, gatewayNode.value, gw);
      nodes := SaveNode(nodes, gw) + [SpokeRow(Client, gatewayNode.value, ip.value, None, f)];
      r := RefreshThenReload(f.id);
    }

    // ---- commands

    /** Certificate, gateway row, request row: the tail of `server new` and of `client new --join`. */
    method AddRequest(gatewayNode: Option<Node>, role: Role, subnet: Option<string>, f: Fresh) returns (o: Outcome)
      modifies this
      ensures (State(), o) == IssueRequest(old(State()), gatewayNode, role, subnet, f)
    {
      if gatewayNode.None? {
        return Crashed;
      }
      var gw := AddClientCert(gatewayNode.value, f);
      nodes := SaveNode(nodes, gw);
      if gw.wgPublicIP.None? {
        return Crashed;
      }
      var joinRequest := Request(f.id, role, subnet, f.cert, f.privateKey, gw.wgPublicIP.value);
      requests := requests + [joinRequest];
      o := Issued(joinRequest);
    }

    method ServerNew(force: bool, dockerSubnet: string, f: Fresh) returns (o: Outcome)
      requires UniqueIds(nodes) && Unused(nodes, f)
      modifies this
      ensures (State(), o) == Admission.ServerNew(old(State()), force, dockerSubnet, f)
    {
      var totalSubnets, availableSubnets := TotalAndAvailableDockerSubnets();
      var serverRequests := CountServerRequests(requests);
      if availableSubnets <= 0 || serverRequests >= availableSubnets {
        return Refused(NoSubnetsLeft);
      }
      var totalClients, availableClients := TotalAvailableWireguardClients();
      if availableClients <= 0 || |requests| >= availableClients {
        return Refused(NoClientsLeft);
      }
      var forced: Option<string> := None;
      if dockerSubnet != "" {
        var parsed := ParseNet(dockerSubnet, true);
        if parsed.Failure? {
          return Refused(NodeError(BadSubnet(parsed.error)));
        }
        var available := IsDockerSubnetAvailable(nodes, parsed.value);
        if !available {
          return Refused(NodeError(SubnetInUse));
        }
        forced := Some(dockerSubnet);
      }
      if force {
        var r := CreateServer(forced, f);
        return match r case Success(node) => Created(node) case Failure(e) => Refused(NodeError(e));
      }
      o := AddRequest(FindGateway(nodes), Server, forced, f);
    }

    method ClientNew(joinRequest: bool, f: Fresh) returns (o: Outcome)
      requires UniqueIds(nodes) && Unused(nodes, f)
      modifies this
      ensures (State(), o) == Admission.ClientNew(old(State()), joinRequest, f)
    {
      var currentNode := FindCurrent(nodes);
      if currentNode.None? {
        return Refused(NoCurrentNode);
      }
      if currentNode.value.role != Gateway {
        return Done;
      }
      var total, available := TotalAvailableWireguardClients();
      if available <= 0 || |requests| >= available {
        return Refused(NoClientsLeft);
      }
      if joinRequest {
        o := AddRequest(currentNode, Client, None, f);
      } else {
        var r := CreateClient(f);
        o := match r case Success(node) => Created(node) case Failure(e) => Refused(NodeError(e));
      }
    }

    /** The join handler, when no foreign effect fails. */
    method Join(token: Request, f: Fresh) returns (o: Outcome)
      requires UniqueIds(nodes) && Unused(nodes, f)
      modifies this
      ensures (State(), o) == JoinAttempt(old(State()), token, f, None)
    {
      var stored := GetRequest(requests, token.id);
      if stored.None? {
        return Refused(UnknownToken);
      }
      if token != stored.value {
        return Refused(TokenMismatch);
      }
      hide RefreshAndReload, InsertServer, InsertClient, GetRequest, SaveNode;
      if token.role != Gateway {
        CreateForIs(nodes, token, f);
        JoinUnfolds(State(), token, f);
      }
      hide CreateFor;
      var created: Result<Node, Error>;
      match stored.value.role {
        case Server => created := CreateServer(token.dockerSubnet, f);
        case Client => created := CreateClient(f);
        case Gateway => return Refused(InvalidRole);
      }
      if created.Failure? {
        return Refused(NodeError(created.error));
      }
      var gatewayNode := FindGateway(nodes);
      if gatewayNode.None? {
        return Refused(StepFailed(LoadGateway));
      }
      nodes := SaveNode(nodes, DropCert(gatewayNode.value, token.id));
      requests := DeleteRequest(requests, token.id);
      o := Joined(created.value);
    }

    /** Afterwards no server has that identifier; every other row, its peers and DNS included, is as it was, in order. */
    method ServerRemove(id: string)
      requires UniqueIds(nodes)
      modifies this`nodes
      ensures State() == Perform(old(State()), RemovingServer(id)).0
      ensures !IsServer(nodes, id) && UniqueIds(nodes)
      ensures !IsServer(old(nodes), id) ==> nodes == old(nodes)
      ensures IsServer(old(nodes), id) ==>
                exists k :: 0 <= k < |old(nodes)| && old(nodes)[k].id == id
                            && nodes == old(nodes)[..k] + old(nodes)[k + 1..]
    {
      RemovedRow(nodes, id);
      nodes := DeleteServer(nodes, id);
    }

    lemma RemovedRow(all: Table, id: string)
      requires UniqueIds(all)
      ensures var rest := DeleteServer(all, id);
              && !IsServer(rest, id) && UniqueIds(rest)
              && (!IsServer(all, id) ==> rest == all)
              && (IsServer(all, id) ==> exists k :: 0 <= k < |all| && all[k].id == id && rest == all[..k] + all[k + 1..])
    {
      hide DeleteServer;
      if k :| 0 <= k < |all| && all[k].id == id && all[k].role == Server {
        DeleteServerAt(all, k);
        var rest := all[..k] + all[k + 1..];
        forall i | 0 <= i < |rest|
          ensures rest[i] == all[if i < k then i else i + 1]
        {
        }
      } else {
        DeleteNothing(all, id);
      }
    }
  }
}
