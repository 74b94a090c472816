/**
 * Cryptokey routing over the peers the registry writes (section 2 of the WireGuard paper): an interface
 * sends to, and accepts from, the peer whose allowed IPs match an address with the longest prefix.
 */
module Routing {
  import opened Common
  import opened Addresses
  import opened Registry

  /** The longest prefix among nets that contains ip, or -1. */
  function BestPrefix(nets: seq<IPNet>, ip: IPv4): (best: int)
    ensures -1 <= best <= 32
  {
    if nets == [] then -1
    else
      var rest, last := BestPrefix(nets[..|nets| - 1], ip), nets[|nets| - 1];
      if Contains(last, ip) && last.ones > rest then last.ones else rest
  }

  lemma {:induction false} BestPrefixFound(nets: seq<IPNet>, ip: IPv4)
    ensures BestPrefix(nets, ip) >= 0 <==> exists i :: 0 <= i < |nets| && Contains(nets[i], ip)
  {
    if nets != [] {
      var n := |nets| - 1;
      BestPrefixFound(nets[..n], ip);
      if i :| 0 <= i < |nets| && Contains(nets[i], ip) {
        assert i < n ==> nets[..n][i] == nets[i];
      }
    }
  }

  predicate Matches(p: Peer, ip: IPv4) {
    BestPrefix(p.allowedIPs, ip) >= 0
  }

  /** Longest match over all peers; of two peers with the same prefix the later one holds it. */
  function Lookup(peers: seq<Peer>, ip: IPv4): (found: Option<Peer>)
  {
    if peers == [] then None
    else
      var rest, last := Lookup(peers[..|peers| - 1], ip), peers[|peers| - 1];
      var here := BestPrefix(last.allowedIPs, ip);
      if here >= 0 && (rest.None? || BestPrefix(rest.value.allowedIPs, ip) <= here) then Some(last) else rest
  }

  lemma {:induction false} LookupFinds(peers: seq<Peer>, ip: IPv4)
    ensures match Lookup(peers, ip)
            case None => forall i :: 0 <= i < |peers| ==> !Matches(peers[i], ip)
            case Some(p) => p in peers && Matches(p, ip)
  {
    if peers != [] {
      var front := peers[..|peers| - 1];
      LookupFinds(front, ip);
      assert peers == front + [peers[|peers| - 1]];
    }
  }

  lemma LookupOnly(peers: seq<Peer>, p: Peer, ip: IPv4)
    requires p in peers && Matches(p, ip)
    requires forall i :: 0 <= i < |peers| && Matches(peers[i], ip) ==> peers[i] == p
    ensures Lookup(peers, ip) == Some(p)
  {
    LookupFinds(peers, ip);
  }

  // ---- paths

  /** A spoke reaches out, so it needs the address of its peer; the gateway answers where a spoke was heard. */
  predicate Usable(n: Node, p: Peer) {
    n.role == Gateway || (p.endpoint.Some? && p.endpoint.value.ip.Some?)
  }

  /** n encrypts a packet for dst to the node `to`. */
  predicate Sends(n: Node, dst: IPv4, to: Node) {
    var p := Lookup(n.peers, dst);
    p.Some? && p.value.publicKey == to.publicKey && Usable(n, p.value)
  }

  /** n accepts a packet from src arriving out of the tunnel of the node `from`. */
  predicate Accepts(n: Node, src: IPv4, from: Node) {
    var p := Lookup(n.peers, src);
    p.Some? && p.value.publicKey == from.publicKey
  }

  /** A packet of c for d passes gw to s, and the answer of d passes gw back to c. */
  predicate RoundTrip(c: Node, gw: Node, s: Node, d: IPv4) {
    && Sends(c, d, gw) && Accepts(gw, c.address.ip, c)
    && d != gw.address.ip && Sends(gw, d, s) && Accepts(s, c.address.ip, gw)
    && Sends(s, c.address.ip, gw) && Accepts(gw, d, s)
    && Sends(gw, c.address.ip, c) && Accepts(c, d, gw)
  }

  /** d is n's own address or lies in n's docker subnet. */
  predicate Owns(n: Node, d: IPv4) {
    d == n.address.ip || (n.dockerSubnet.Some? && Contains(n.dockerSubnet.value, d))
  }

  /** The text of the gateway's public address parses, so spokes get an endpoint to send to. */
  predicate Addressed(gw: Node) {
    gw.wgPublicIP.Some? && ParseIPv4(gw.wgPublicIP.value).Some?
  }

  predicate NoServers(nodes: Table) {
    forall i :: 0 <= i < |nodes| ==> nodes[i].role != Server
  }

  ghost predicate Exclusive(nodes: Table) {
    forall i, j, d :: 0 <= i < j < |nodes| && Owns(nodes[i], d) ==> !Owns(nodes[j], d)
  }

  /** The addresses a client sends into its tunnel: 172.16.0.0/12 and 10.0.0.0/24. */
  predicate Tunnelled(d: IPv4) {
    Contains(DOCKER_ALL_SUBNETS, d) || Contains(SERVER_PEER_ALLOWED, d)
  }

  ghost predicate Covered(nodes: Table) {
    forall i, d :: 0 <= i < |nodes| && nodes[i].role == Server && Owns(nodes[i], d) ==> Tunnelled(d)
  }

  /** Every client reaches every address of every server, and is answered. */
  ghost predicate FullyRouted(nodes: Table)
    requires nodes != []
  {
    forall c, s, d ::
      0 <= c < |nodes| && 0 <= s < |nodes| && nodes[c].role == Client && nodes[s].role == Server && Owns(nodes[s], d)
      ==> RoundTrip(nodes[c], nodes[0], nodes[s], d)
  }

  /** All server subnets come from the automatic range 172.20.0.0/16 to 172.31.0.0/16. */
  predicate AutoSubnets(nodes: Table) {
    forall i :: 0 <= i < |nodes| && nodes[i].dockerSubnet.Some? ==> AutoSubnet(nodes[i].dockerSubnet.value)
  }

  predicate AutoSubnet(net: IPNet) {
    net == DockerSubnet(net.ip.o1) && DOCKER_SUBNET_START <= net.ip.o1 <= DOCKER_SUBNET_END
  }

  /**
   * A mesh whose gateway was last refreshed when the table was `snapshot`: the gateway lists the
   * snapshot, every live spoke is in it, and every spoke's only peer is the gateway.
   */
  ghost predicate Meshed(nodes: Table, snapshot: Table) {
    && nodes != [] && Consistent(nodes)
    && snapshot != [] && Consistent(snapshot) && ServersHaveSubnets(snapshot)
    && Core(nodes[0]) == Core(snapshot[0])
    && nodes[0].peers == GatewayPeers(snapshot)
    && nodes[0].dns == GatewayDNS(snapshot)
    && forall i :: 1 <= i < |nodes| ==>
         && nodes[i].peers == [SpokePeer(nodes[0], nodes[i].role)]
         && nodes[i].dns == SpokeDNS(nodes[0], nodes[i].role)
         && exists j :: 1 <= j < |snapshot| && Core(nodes[i]) == Core(snapshot[j])
  }

  lemma RefreshMeshes(nodes: Table)
    requires nodes != [] && Consistent(nodes)
    ensures Refresh(nodes).Success? && Meshed(Refresh(nodes).value, nodes)
  {
    RefreshWellDefined(nodes);
    var r := Refresh(nodes).value;
    assert r[0] == RefreshNode(nodes[0], nodes[0], nodes);
    forall i | 1 <= i < |r|
      ensures r[i].peers == [SpokePeer(r[0], r[i].role)] && r[i].dns == SpokeDNS(r[0], r[i].role)
      ensures Core(r[i]) == Core(nodes[i])
    {
      assert r[i] == RefreshNode(nodes[i], nodes[0], nodes);
      assert nodes[i].role != Gateway;
    }
  }

  // ---- the gateway's peers

  lemma {:induction false} PeersAreSpokes(nodes: Table, p: Peer)
    requires ServersHaveSubnets(nodes)
    ensures p in GatewayPeers(nodes) <==>
            exists j :: 0 <= j < |nodes| && nodes[j].role != Gateway && p == PeerFor(nodes[j])
  {
    if nodes != [] {
      var n := |nodes| - 1;
      PeersAreSpokes(nodes[..n], p);
      if j :| 0 <= j < |nodes| && nodes[j].role != Gateway && p == PeerFor(nodes[j]) {
        if j < n {
          assert nodes[..n][j] == nodes[j];
        }
      }
    }
  }

  lemma PeerMatchesOwner(n: Node, d: IPv4)
    requires n.role == Server ==> n.dockerSubnet.Some?
    requires n.role != Server ==> n.dockerSubnet.None?
    ensures Matches(PeerFor(n), d) <==> Owns(n, d)
  {
    ContainsHost(n.address.ip, d);
    var nets := PeerFor(n).allowedIPs;
    BestPrefixFound(nets, d);
    assert nets[0] == HostNet(n);
    if n.role == Server {
      assert nets[1] == n.dockerSubnet.value;
    }
  }

  /** The gateway sends d to the snapshot spoke that owns it, whenever only one does. */
  lemma GatewaySendsToOwner(snapshot: Table, j: nat, d: IPv4)
    requires Consistent(snapshot) && ServersHaveSubnets(snapshot)
    requires 1 <= j < |snapshot| && Owns(snapshot[j], d)
    requires forall k :: 1 <= k < |snapshot| && Owns(snapshot[k], d) ==> k == j
    ensures Lookup(GatewayPeers(snapshot), d) == Some(PeerFor(snapshot[j]))
    ensures forall p :: p in GatewayPeers(snapshot) && Matches(p, d) ==> p == PeerFor(snapshot[j])
  {
    var peers, p := GatewayPeers(snapshot), PeerFor(snapshot[j]);
    assert WellFormed(snapshot[j]);
    PeersAreSpokes(snapshot, p);
    PeerMatchesOwner(snapshot[j], d);
    forall q | q in peers && Matches(q, d)
      ensures q == p
    {
      PeersAreSpokes(snapshot, q);
      var k :| 0 <= k < |snapshot| && snapshot[k].role != Gateway && q == PeerFor(snapshot[k]);
      assert WellFormed(snapshot[k]);
      PeerMatchesOwner(snapshot[k], d);
    }
    LookupOnly(peers, p, d);
  }

  /** The gateway routes an address exactly when some node known to it owns the address. */
  lemma GatewayRoutesOwned(snapshot: Table, d: IPv4)
    requires Consistent(snapshot) && ServersHaveSubnets(snapshot)
    ensures Lookup(GatewayPeers(snapshot), d).Some? <==> exists k :: 1 <= k < |snapshot| && Owns(snapshot[k], d)
  {
    var peers := GatewayPeers(snapshot);
    LookupFinds(peers, d);
    if Lookup(peers, d).Some? {
      var p := Lookup(peers, d).value;
      PeersAreSpokes(snapshot, p);
      var k :| 0 <= k < |snapshot| && snapshot[k].role != Gateway && p == PeerFor(snapshot[k]);
      assert WellFormed(snapshot[k]);
      PeerMatchesOwner(snapshot[k], d);
    }
    if k :| 1 <= k < |snapshot| && Owns(snapshot[k], d) {
      assert WellFormed(snapshot[k]);
      PeerMatchesOwner(snapshot[k], d);
      PeersAreSpokes(snapshot, PeerFor(snapshot[k]));
    }
  }

  lemma TunnelledInBits(d: IPv4)
    ensures Tunnelled(d) <==>
            (d.o0 == 172 && 16 <= d.o1 <= 31) || (d.o0 == 10 && d.o1 == 0 && d.o2 == 0)
  {
    Contains12(DOCKER_ALL_SUBNETS.ip, d);
    Contains24(SERVER_PEER_ALLOWED.ip, d);
  }

  lemma SpokeLookup(gw: Node, n: Node, ip: IPv4)
    requires gw.wgPublicIP.Some? && gw.wgPublicPort.Some? && WellFormed(gw)
    requires n.peers == [SpokePeer(gw, n.role)]
    ensures n.role == Client ==> (Lookup(n.peers, ip) == Some(SpokePeer(gw, Client)) <==> Tunnelled(ip))
    ensures n.role == Server && Contains(SERVER_PEER_ALLOWED, ip) ==> Lookup(n.peers, ip) == Some(SpokePeer(gw, Server))
    ensures Lookup(n.peers, ip) in {None, Some(SpokePeer(gw, n.role))}
  {
    var p := SpokePeer(gw, n.role);
    BestPrefixFound(p.allowedIPs, ip);
    assert n.peers[..0] == [];
    assert Lookup(n.peers, ip) == if Matches(p, ip) then Some(p) else None;
    if n.role == Client {
      assert p.allowedIPs[0] == DOCKER_ALL_SUBNETS && p.allowedIPs[1] == IPNet(gw.address.ip, 24);
      Contains24(gw.address.ip, ip);
      Contains24(SERVER_PEER_ALLOWED.ip, ip);
    } else if n.role == Server {
      assert p.allowedIPs[0] == SERVER_PEER_ALLOWED;
    }
  }

  // ---- end to end

  lemma MeshPosition(nodes: Table, snapshot: Table, i: nat) returns (j: nat)
    requires Meshed(nodes, snapshot) && 1 <= i < |nodes|
    ensures 1 <= j < |snapshot| && Core(nodes[i]) == Core(snapshot[j])
    ensures WellFormed(nodes[i]) && WellFormed(snapshot[j])
    ensures PeerFor(snapshot[j]).publicKey == nodes[i].publicKey
    ensures forall d :: Owns(nodes[i], d) <==> Owns(snapshot[j], d)
  {
    j :| 1 <= j < |snapshot| && Core(nodes[i]) == Core(snapshot[j]);
  }

  /** What a spoke's only peer does with an address it matches. */
  lemma SpokeSends(gw: Node, n: Node, ip: IPv4)
    requires gw.wgPublicIP.Some? && gw.wgPublicPort.Some? && WellFormed(gw) && n.role != Gateway
    requires n.peers == [SpokePeer(gw, n.role)]
    ensures Sends(n, ip, gw) ==> Addressed(gw)
    ensures Addressed(gw) && (if n.role == Client then Tunnelled(ip) else Contains(SERVER_PEER_ALLOWED, ip)) ==> Sends(n, ip, gw)
    ensures (if n.role == Client then Tunnelled(ip) else Contains(SERVER_PEER_ALLOWED, ip)) ==> Accepts(n, ip, gw)
  {
    SpokeLookup(gw, n, ip);
    hide Lookup, Tunnelled, Contains, ParseIPv4;
  }

  lemma GatewaySends(nodes: Table, snapshot: Table, i: nat, j: nat, d: IPv4)
    requires Meshed(nodes, snapshot) && Exclusive(snapshot) && 1 <= i < |nodes| && 1 <= j < |snapshot|
    requires Core(nodes[i]) == Core(snapshot[j]) && Owns(snapshot[j], d)
    ensures Sends(nodes[0], d, nodes[i]) && Accepts(nodes[0], d, nodes[i])
  {
    assert nodes[0].role == Gateway;
    hide Owns, GatewayPeers, Lookup;
    GatewaySendsToOwner(snapshot, j, d);
    assert nodes[i].publicKey == snapshot[j].publicKey;
  }

  lemma OneRoundTrip(nodes: Table, snapshot: Table, c: nat, s: nat, d: IPv4)
    requires Meshed(nodes, snapshot) && Exclusive(snapshot) && Covered(snapshot) && Addressed(nodes[0])
    requires c < |nodes| && s < |nodes| && nodes[c].role == Client && nodes[s].role == Server && Owns(nodes[s], d)
    ensures RoundTrip(nodes[c], nodes[0], nodes[s], d)
  {
    var gw, src := nodes[0], nodes[c].address.ip;
    assert gw.role == Gateway && WellFormed(gw) && WellFormed(nodes[c]);
    var jc := MeshPosition(nodes, snapshot, c);
    var js := MeshPosition(nodes, snapshot, s);
    assert Owns(snapshot[js], d) && Owns(snapshot[jc], src);
    assert Tunnelled(d);
    assert Contains(SERVER_PEER_ALLOWED, src) by {
      Contains24(SERVER_PEER_ALLOWED.ip, src);
    }
    assert Core(snapshot[0]) == Core(gw) && Owns(snapshot[0], gw.address.ip);
    assert d != gw.address.ip;
    hide Sends, Accepts, Contains, Tunnelled, Owns, Exclusive, Covered;
    GatewaySends(nodes, snapshot, s, js, d);
    GatewaySends(nodes, snapshot, c, jc, src);
    assert nodes[c].peers == [SpokePeer(gw, Client)] && nodes[s].peers == [SpokePeer(gw, Server)];
    hide Meshed;
    SpokeSends(gw, nodes[c], d);
    SpokeSends(gw, nodes[s], src);
  }

  /**
   * End-to-end routing, in every mesh, refreshed or with servers deleted since: if the spokes have an
   * endpoint to send to, and the nodes the gateway knows own disjoint addresses inside the tunnelled
   * ranges, every client reaches every address of every live server and is answered.
   */
  lemma EndToEnd(nodes: Table, snapshot: Table)
    requires Meshed(nodes, snapshot) && Exclusive(snapshot) && Covered(snapshot)
    requires Addressed(nodes[0]) || NoServers(nodes)
    ensures FullyRouted(nodes)
  {
    hide Meshed, Exclusive, Covered, RoundTrip, Owns, Addressed;
    forall c, s, d |
      0 <= c < |nodes| && 0 <= s < |nodes| && nodes[c].role == Client && nodes[s].role == Server && Owns(nodes[s], d)
      ensures RoundTrip(nodes[c], nodes[0], nodes[s], d)
    {
      OneRoundTrip(nodes, snapshot, c, s, d);
    }
  }

  lemma Routed(nodes: Table, c: nat, s: nat, d: IPv4)
    requires nodes != [] && FullyRouted(nodes)
    requires c < |nodes| && s < |nodes| && nodes[c].role == Client && nodes[s].role == Server && Owns(nodes[s], d)
    ensures d != nodes[0].address.ip && Sends(nodes[c], d, nodes[0])
    ensures Sends(nodes[0], d, nodes[s]) && Sends(nodes[0], nodes[c].address.ip, nodes[c])
  {
    assert RoundTrip(nodes[c], nodes[0], nodes[s], d);
  }

  /** Everything routed leaves no second owner for an address of a server. */
  lemma SoleOwner(nodes: Table, s: nat, o: nat, c: nat, d: IPv4)
    requires Consistent(nodes) && nodes != [] && FullyRouted(nodes)
    requires s < |nodes| && o < |nodes| && s != o && Owns(nodes[s], d)
    requires c < |nodes| && nodes[c].role == Client && nodes[s].role == Server
    ensures !Owns(nodes[o], d)
  {
    assert Apart(nodes[s], nodes[o]) || Apart(nodes[o], nodes[s]);
    assert WellFormed(nodes[o]);
    Routed(nodes, c, s, d);
    if Owns(nodes[o], d) {
      if nodes[o].role == Server {
        Routed(nodes, c, o, d);
      } else if nodes[o].role == Client {
        Routed(nodes, o, s, d);
      }
    }
  }

  lemma RoutedImpliesExclusive(nodes: Table, c: nat)
    requires Consistent(nodes) && nodes != [] && FullyRouted(nodes)
    requires c < |nodes| && nodes[c].role == Client
    ensures Exclusive(nodes)
  {
    forall i, j, d | 0 <= i < j < |nodes| && Owns(nodes[i], d)
      ensures !Owns(nodes[j], d)
    {
      assert Apart(nodes[i], nodes[j]) && WellFormed(nodes[i]) && WellFormed(nodes[j]);
      if nodes[i].role == Server {
        SoleOwner(nodes, i, j, c, d);
      } else if nodes[j].role == Server && Owns(nodes[j], d) {
        SoleOwner(nodes, j, i, c, d);
      }
    }
  }

  lemma RoutedImpliesCovered(nodes: Table, c: nat)
    requires Consistent(nodes) && nodes != [] && FullyRouted(nodes)
    requires c < |nodes| && nodes[c].role == Client && nodes[c].peers == [SpokePeer(nodes[0], Client)]
    ensures Covered(nodes)
  {
    var gw, client := nodes[0], nodes[c];
    assert WellFormed(gw);
    forall i, d | 0 <= i < |nodes| && nodes[i].role == Server && Owns(nodes[i], d)
      ensures Tunnelled(d)
    {
      Routed(nodes, c, i, d);
      SpokeLookup(gw, client, d);
    }
  }

  lemma RoutedImpliesBoth(nodes: Table, c: nat)
    requires Meshed(nodes, nodes) && FullyRouted(nodes)
    requires c < |nodes| && nodes[c].role == Client
    ensures Exclusive(nodes) && Covered(nodes)
  {
    assert c != 0;
    assert nodes[c].peers == [SpokePeer(nodes[0], nodes[c].role)];
    RoutedImpliesExclusive(nodes, c);
    RoutedImpliesCovered(nodes, c);
  }

  lemma OwnsItself(n: Node)
    ensures Owns(n, n.address.ip)
  {
  }

  lemma RoutedImpliesAddressed(nodes: Table, c: nat)
    requires Meshed(nodes, nodes) && FullyRouted(nodes)
    requires c < |nodes| && nodes[c].role == Client
    ensures Addressed(nodes[0]) || NoServers(nodes)
  {
    hide Owns, FullyRouted, Sends, Addressed, Exclusive;
    if !NoServers(nodes) {
      var s :| 0 <= s < |nodes| && nodes[s].role == Server;
      OwnsItself(nodes[s]);
      assert nodes[c].peers == [SpokePeer(nodes[0], nodes[c].role)] && WellFormed(nodes[0]);
      hide Meshed;
      Routed(nodes, c, s, nodes[s].address.ip);
      SpokeSends(nodes[0], nodes[c], nodes[s].address.ip);
    }
  }

  /**
   * The exact condition, custom subnets included: in a freshly refreshed table with a client, everything
   * is routed if and only if no address has two owners, every server address is tunnelled, and the spokes
   * have an endpoint for the gateway.
   */
  lemma RoutedExactly(nodes: Table, c: nat)
    requires Meshed(nodes, nodes)
    requires c < |nodes| && nodes[c].role == Client
    ensures FullyRouted(nodes) <==> Exclusive(nodes) && Covered(nodes) && (Addressed(nodes[0]) || NoServers(nodes))
  {
    hide Meshed, FullyRouted, Exclusive, Covered, Addressed, NoServers;
    if FullyRouted(nodes) {
      RoutedImpliesBoth(nodes, c);
      RoutedImpliesAddressed(nodes, c);
    } else if Exclusive(nodes) && Covered(nodes) && (Addressed(nodes[0]) || NoServers(nodes)) {
      EndToEnd(nodes, nodes);
    }
  }

  // ---- which row wins an address, stale rows included

  /** How long a prefix the node's entry at the gateway has for d: its host address, or its subnet, or none. */
  function Strength(n: Node, d: IPv4): int {
    if d == n.address.ip then 32
    else if n.dockerSubnet.Some? && Contains(n.dockerSubnet.value, d) then n.dockerSubnet.value.ones
    else -1
  }

  /** Among the spokes of the snapshot, j has the longest prefix for d, and is the last to have it. */
  predicate Wins(snapshot: Table, j: nat, d: IPv4) {
    && j < |snapshot| && snapshot[j].role != Gateway && Strength(snapshot[j], d) >= 0
    && forall k :: 0 <= k < |snapshot| && k != j && snapshot[k].role != Gateway ==>
         Strength(snapshot[k], d) < Strength(snapshot[j], d)
         || (Strength(snapshot[k], d) == Strength(snapshot[j], d) && k < j)
  }

  lemma StrengthIsPrefix(n: Node, d: IPv4)
    requires n.role != Gateway && (n.dockerSubnet.Some? <==> n.role == Server)
    ensures BestPrefix(PeerFor(n).allowedIPs, d) == Strength(n, d)
  {
    ContainsHost(n.address.ip, d);
    hide Contains;
    var host := [HostNet(n)];
    assert host[..0] == [];
    assert BestPrefix(host, d) == if d == n.address.ip then 32 else -1;
    if n.role == Server {
      var nets := PeerFor(n).allowedIPs;
      assert nets[..1] == host && nets[1] == n.dockerSubnet.value;
    }
  }

  /** o is the entry of the winner j, or no row matches. */
  predicate Found(snapshot: Table, d: IPv4, j: nat, o: Option<Peer>)
    requires ServersHaveSubnets(snapshot)
  {
    match o
    case None => forall k :: 0 <= k < |snapshot| && snapshot[k].role != Gateway ==> Strength(snapshot[k], d) < 0
    case Some(p) => Wins(snapshot, j, d) && p == PeerFor(snapshot[j])
  }

  /** The later of two equal prefixes takes over. */
  predicate TakesOver(front: Table, last: Node, d: IPv4, j: nat, o: Option<Peer>) {
    && last.role != Gateway && Strength(last, d) >= 0
    && (o.Some? ==> j < |front| && Strength(front[j], d) <= Strength(last, d))
  }

  lemma FoundStep(snapshot: Table, d: IPv4, j: nat, o: Option<Peer>)
    requires ServersHaveSubnets(snapshot) && snapshot != []
    requires ServersHaveSubnets(snapshot[..|snapshot| - 1]) && Found(snapshot[..|snapshot| - 1], d, j, o)
    ensures var front, last := snapshot[..|snapshot| - 1], snapshot[|snapshot| - 1];
            if TakesOver(front, last, d, j, o) then Found(snapshot, d, |front|, Some(PeerFor(last))) else Found(snapshot, d, j, o)
  {
    hide Strength, PeerFor;
    var n := |snapshot| - 1;
    var front := snapshot[..n];
    assert forall k :: 0 <= k < n ==> front[k] == snapshot[k];
  }

  lemma LookupAppend(peers: seq<Peer>, last: Peer, ip: IPv4)
    ensures var rest, here := Lookup(peers, ip), BestPrefix(last.allowedIPs, ip);
            Lookup(peers + [last], ip) ==
              if here >= 0 && (rest.None? || BestPrefix(rest.value.allowedIPs, ip) <= here) then Some(last) else rest
  {
    assert (peers + [last])[..|peers|] == peers;
  }

  lemma PeersAppend(snapshot: Table)
    requires ServersHaveSubnets(snapshot) && snapshot != []
    ensures var front, last := snapshot[..|snapshot| - 1], snapshot[|snapshot| - 1];
            && ServersHaveSubnets(front)
            && GatewayPeers(snapshot) == if last.role == Gateway then GatewayPeers(front) else GatewayPeers(front) + [PeerFor(last)]
  {
  }

  lemma LookupStep(snapshot: Table, d: IPv4, j: nat)
    requires ServersHaveSubnets(snapshot) && snapshot != [] && forall i :: 0 <= i < |snapshot| ==> WellFormed(snapshot[i])
    requires ServersHaveSubnets(snapshot[..|snapshot| - 1])
    requires Found(snapshot[..|snapshot| - 1], d, j, Lookup(GatewayPeers(snapshot[..|snapshot| - 1]), d))
    ensures var front, last := snapshot[..|snapshot| - 1], snapshot[|snapshot| - 1];
            var before := Lookup(GatewayPeers(front), d);
            Lookup(GatewayPeers(snapshot), d) == if TakesOver(front, last, d, j, before) then Some(PeerFor(last)) else before
  {
    hide Lookup, GatewayPeers, Strength, BestPrefix, PeerFor, Contains;
    var n := |snapshot| - 1;
    var front, last := snapshot[..n], snapshot[n];
    PeersAppend(snapshot);
    if last.role != Gateway {
      assert WellFormed(last);
      StrengthIsPrefix(last, d);
      LookupAppend(GatewayPeers(front), PeerFor(last), d);
      if Lookup(GatewayPeers(front), d).Some? {
        assert WellFormed(snapshot[j]) && front[j] == snapshot[j];
        StrengthIsPrefix(front[j], d);
      }
    }
  }

  /** The gateway's look-up finds the winner, if any row matches at all. */
  lemma {:induction false} LookupFindsWinner(snapshot: Table, d: IPv4) returns (j: nat)
    requires ServersHaveSubnets(snapshot) && forall i :: 0 <= i < |snapshot| ==> WellFormed(snapshot[i])
    ensures Found(snapshot, d, j, Lookup(GatewayPeers(snapshot), d))
  {
    if snapshot == [] {
      j := 0;
    } else {
      var n := |snapshot| - 1;
      var front := snapshot[..n];
      j := LookupFindsWinner(front, d);
      hide Lookup, GatewayPeers, Found, TakesOver, WellFormed;
      LookupStep(snapshot, d, j);
      FoundStep(snapshot, d, j, Lookup(GatewayPeers(front), d));
      if TakesOver(front, snapshot[n], d, j, Lookup(GatewayPeers(front), d)) {
        j := n;
      }
    }
  }

  lemma WinnerUnique(snapshot: Table, j: nat, k: nat, d: IPv4)
    requires Wins(snapshot, j, d) && Wins(snapshot, k, d)
    ensures j == k
  {
    hide Strength;
  }

  /** The gateway sends an address to a spoke exactly when that spoke's row wins it. */
  lemma LookupExactly(snapshot: Table, j: nat, d: IPv4)
    requires Consistent(snapshot) && ServersHaveSubnets(snapshot) && j < |snapshot| && snapshot[j].role != Gateway
    ensures var p := Lookup(GatewayPeers(snapshot), d);
            (p.Some? && p.value.publicKey == snapshot[j].publicKey) <==> Wins(snapshot, j, d)
  {
    var w := LookupFindsWinner(snapshot, d);
    hide Lookup, GatewayPeers, Strength;
    if Lookup(GatewayPeers(snapshot), d).Some? {
      if Wins(snapshot, j, d) {
        WinnerUnique(snapshot, w, j, d);
      }
      if w != j {
        assert if w < j then Apart(snapshot[w], snapshot[j]) else Apart(snapshot[j], snapshot[w]);
      }
    }
  }

  /**
   * Exactly which packets get through, in every mesh: client c reaches the address d of server s and is
   * answered if and only if d is tunnelled and not the gateway's, the spokes have an endpoint to send to, and
   * among the rows the gateway was last refreshed with, removed servers included, s wins d and c its own address.
   */
  lemma RoundTripExactly(nodes: Table, snapshot: Table, c: nat, s: nat, jc: nat, js: nat, d: IPv4)
    requires Meshed(nodes, snapshot) && 1 <= c < |nodes| && 1 <= s < |nodes| && jc < |snapshot| && js < |snapshot|
    requires Core(nodes[c]) == Core(snapshot[jc]) && Core(nodes[s]) == Core(snapshot[js])
    requires nodes[c].role == Client && nodes[s].role == Server
    ensures RoundTrip(nodes[c], nodes[0], nodes[s], d) <==>
            && Tunnelled(d) && d != nodes[0].address.ip && Addressed(nodes[0])
            && Wins(snapshot, js, d) && Wins(snapshot, jc, nodes[c].address.ip)
  {
    var gw, src := nodes[0], nodes[c].address.ip;
    assert gw.role == Gateway && WellFormed(gw) && WellFormed(nodes[c]);
    assert nodes[c].peers == [SpokePeer(gw, Client)] && nodes[s].peers == [SpokePeer(gw, Server)];
    assert gw.peers == GatewayPeers(snapshot);
    assert Contains(SERVER_PEER_ALLOWED, src) by {
      Contains24(SERVER_PEER_ALLOWED.ip, src);
    }
    LookupExactly(snapshot, js, d);
    LookupExactly(snapshot, jc, src);
    hide Meshed, GatewayPeers, Wins, Contains, Tunnelled;
    SpokeLookup(gw, nodes[c], d);
    SpokeSends(gw, nodes[c], d);
    SpokeSends(gw, nodes[s], src);
    hide Lookup;
  }

  // ---- the condition as a test on prefixes

  /** Two networks share an address: the wider one contains the other's address. */
  predicate Overlap(a: IPNet, b: IPNet) {
    if a.ones <= b.ones then Contains(a, b.ip) else Contains(b, a.ip)
  }

  /** b lies inside a. */
  predicate Inside(a: IPNet, b: IPNet) {
    a.ones <= b.ones && Contains(a, b.ip)
  }

  /** No two subnets overlap, and no subnet holds the address of another row. */
  predicate SubnetsApart(a: Node, b: Node) {
    && (a.dockerSubnet.Some? && b.dockerSubnet.Some? ==> !Overlap(a.dockerSubnet.value, b.dockerSubnet.value))
    && (a.dockerSubnet.Some? ==> !Contains(a.dockerSubnet.value, b.address.ip))
    && (b.dockerSubnet.Some? ==> !Contains(b.dockerSubnet.value, a.address.ip))
  }

  predicate SubnetTunnelled(net: IPNet) {
    Inside(DOCKER_ALL_SUBNETS, net) || Inside(SERVER_PEER_ALLOWED, net)
  }

  /** What can be checked row against row before a subnet is accepted. */
  predicate PrefixesFit(nodes: Table) {
    && (forall i, j :: 0 <= i < j < |nodes| ==> SubnetsApart(nodes[i], nodes[j]))
    && (forall i :: 0 <= i < |nodes| && nodes[i].dockerSubnet.Some? ==> SubnetTunnelled(nodes[i].dockerSubnet.value))
  }

  /** Agreement on the bits of a longer prefix is agreement on the bits of a shorter one. */
  lemma ShorterPrefix(a: IPNet, b: IPNet, d: IPv4)
    requires a.ones <= b.ones && Contains(b, d)
    ensures Contains(a, d) <==> Contains(a, b.ip)
  {
    ShiftTwice(Number(b.ip), 32 - b.ones, b.ones - a.ones);
    ShiftTwice(Number(d), 32 - b.ones, b.ones - a.ones);
    hide ShiftRight, Number;
  }

  lemma ContainsOwn(net: IPNet)
    ensures Contains(net, net.ip)
  {
  }

  /** Two networks overlap if and only if some address lies in both. */
  lemma OverlapMeans(a: IPNet, b: IPNet)
    ensures Overlap(a, b) <==> exists d :: Contains(a, d) && Contains(b, d)
  {
    ContainsOwn(a);
    ContainsOwn(b);
    hide Contains;
    if d :| Contains(a, d) && Contains(b, d) {
      if a.ones <= b.ones {
        ShorterPrefix(a, b, d);
      } else {
        ShorterPrefix(b, a, d);
      }
    }
  }

  /** Two consistent rows have no address in common if and only if their prefixes are apart. */
  lemma RowsApart(a: Node, b: Node)
    requires a.address.ip != b.address.ip
    ensures SubnetsApart(a, b) <==> forall d :: Owns(a, d) ==> !Owns(b, d)
  {
    if a.dockerSubnet.Some? && b.dockerSubnet.Some? {
      OverlapMeans(a.dockerSubnet.value, b.dockerSubnet.value);
    }
    hide Contains, Overlap;
    if forall d :: Owns(a, d) ==> !Owns(b, d) {
      assert Owns(a, a.address.ip) && Owns(b, b.address.ip);
      forall d | a.dockerSubnet.Some? && Contains(a.dockerSubnet.value, d)
        ensures !(b.dockerSubnet.Some? && Contains(b.dockerSubnet.value, d))
      {
        assert Owns(a, d);
      }
    }
  }

  lemma ShiftOne(n: nat, k: nat)
    requires k > 0
    ensures ShiftRight(n, k) == ShiftRight(n / 2, k - 1)
  {
  }

  /** Two addresses that differ below the first k - 1 bits only are in the same networks of up to k - 1 bits. */
  lemma SameBelow(net: IPNet, d: IPv4, k: PrefixLength)
    requires net.ones < k
    requires ShiftRight(Number(net.ip), 32 - k) / 2 == ShiftRight(Number(d), 32 - k) / 2
    ensures Contains(net, d)
  {
    hide ShiftRight, Number;
    var m, n := ShiftRight(Number(net.ip), 32 - k), ShiftRight(Number(d), 32 - k);
    ShiftTwice(Number(net.ip), 32 - k, k - net.ones);
    ShiftTwice(Number(d), 32 - k, k - net.ones);
    ShiftOne(m, k - net.ones);
    ShiftOne(n, k - net.ones);
  }

  lemma InsideMeans(a: IPNet, b: IPNet, d: IPv4)
    requires Inside(a, b) && Contains(b, d)
    ensures Contains(a, d)
  {
    ShorterPrefix(a, b, d);
  }

  /** A network wider than /12 around an address of 172.16.0.0/12, or than /24 around one of 10.0.0.0/24, leaks. */
  lemma WideLeaks(net: IPNet) returns (d: IPv4)
    requires Tunnelled(net.ip) && !SubnetTunnelled(net)
    ensures Contains(net, d) && !Tunnelled(d)
  {
    TunnelledInBits(net.ip);
    Contains12(DOCKER_ALL_SUBNETS.ip, net.ip);
    Contains24(SERVER_PEER_ALLOWED.ip, net.ip);
    ShiftNumber(net.ip);
    hide ShiftRight, Number, Contains;
    if net.ip.o0 == 172 {
      d := IPv4(172, net.ip.o1 - 16, net.ip.o2, net.ip.o3);
      ShiftNumber(d);
      SameBelow(net, d, 12);
    } else {
      d := IPv4(10, 0, 1, net.ip.o3);
      ShiftNumber(d);
      assert ShiftRight(Number(net.ip), 8) == 10 * 65536 && ShiftRight(Number(d), 8) == 10 * 65536 + 1;
      SameBelow(net, d, 24);
    }
    TunnelledInBits(d);
  }

  /** All addresses of a network are tunnelled if and only if it lies inside one of the two tunnelled ranges. */
  lemma TunnelledMeans(net: IPNet)
    ensures SubnetTunnelled(net) <==> forall d :: Contains(net, d) ==> Tunnelled(d)
  {
    ContainsOwn(net);
    hide Contains;
    if SubnetTunnelled(net) {
      forall d | Contains(net, d)
        ensures Tunnelled(d)
      {
        if Inside(DOCKER_ALL_SUBNETS, net) {
          InsideMeans(DOCKER_ALL_SUBNETS, net, d);
        } else {
          InsideMeans(SERVER_PEER_ALLOWED, net, d);
        }
      }
    } else if Tunnelled(net.ip) {
      var d := WideLeaks(net);
    }
  }

  lemma AddressTunnelled(n: Node)
    requires WellFormed(n)
    ensures Tunnelled(n.address.ip)
  {
    Contains24(SERVER_PEER_ALLOWED.ip, n.address.ip);
  }

  lemma ExclusiveFits(nodes: Table)
    requires Consistent(nodes)
    ensures Exclusive(nodes) <==> forall i, j :: 0 <= i < j < |nodes| ==> SubnetsApart(nodes[i], nodes[j])
  {
    forall i, j | 0 <= i < j < |nodes|
      ensures SubnetsApart(nodes[i], nodes[j]) <==> forall d :: Owns(nodes[i], d) ==> !Owns(nodes[j], d)
    {
      assert Apart(nodes[i], nodes[j]);
      RowsApart(nodes[i], nodes[j]);
    }
    hide Consistent, SubnetsApart, Owns;
  }

  lemma CoveredFits(nodes: Table)
    requires Consistent(nodes)
    ensures Covered(nodes) <==>
            forall i :: 0 <= i < |nodes| && nodes[i].dockerSubnet.Some? ==> SubnetTunnelled(nodes[i].dockerSubnet.value)
  {
    forall i | 0 <= i < |nodes| && nodes[i].role == Server
      ensures nodes[i].dockerSubnet.Some?
      ensures SubnetTunnelled(nodes[i].dockerSubnet.value) <==> forall d :: Owns(nodes[i], d) ==> Tunnelled(d)
    {
      assert WellFormed(nodes[i]);
      AddressTunnelled(nodes[i]);
      TunnelledMeans(nodes[i].dockerSubnet.value);
      hide Contains, Tunnelled, SubnetTunnelled;
      if forall d :: Owns(nodes[i], d) ==> Tunnelled(d) {
        forall d | Contains(nodes[i].dockerSubnet.value, d)
          ensures Tunnelled(d)
        {
          assert Owns(nodes[i], d);
        }
      }
    }
    forall i | 0 <= i < |nodes| && nodes[i].dockerSubnet.Some?
      ensures nodes[i].role == Server
    {
      assert WellFormed(nodes[i]);
    }
    hide Consistent, SubnetTunnelled, Owns, Tunnelled;
  }

  /** Ownership is exclusive and tunnelled, over all addresses, if and only if the prefixes fit. */
  lemma FitExactly(nodes: Table)
    requires Consistent(nodes)
    ensures Exclusive(nodes) && Covered(nodes) <==> PrefixesFit(nodes)
  {
    ExclusiveFits(nodes);
    CoveredFits(nodes);
    hide Consistent, Exclusive, Covered, SubnetsApart, SubnetTunnelled;
  }

  lemma AutoOwner(n: Node, d: IPv4)
    requires WellFormed(n) && (n.dockerSubnet.Some? ==> AutoSubnet(n.dockerSubnet.value)) && Owns(n, d)
    ensures || (d == n.address.ip && d.o0 == 10 && d.o1 == 0 && d.o2 == 0)
            || (n.dockerSubnet.Some? && d.o0 == 172 && d.o1 == n.dockerSubnet.value.ip.o1
                && DOCKER_SUBNET_START <= d.o1 <= DOCKER_SUBNET_END)
  {
    if n.dockerSubnet.Some? {
      Contains16(n.dockerSubnet.value.ip, d);
    }
  }

  /** Automatic subnets always meet the condition. */
  lemma AutoIsRoutable(nodes: Table)
    requires Consistent(nodes) && AutoSubnets(nodes)
    ensures Exclusive(nodes) && Covered(nodes)
  {
    forall i, j, d | 0 <= i < j < |nodes| && Owns(nodes[i], d) && Owns(nodes[j], d)
      ensures false
    {
      assert Apart(nodes[i], nodes[j]) && WellFormed(nodes[i]) && WellFormed(nodes[j]);
      AutoOwner(nodes[i], d);
      AutoOwner(nodes[j], d);
    }
    forall i, d | 0 <= i < |nodes| && nodes[i].role == Server && Owns(nodes[i], d)
      ensures Tunnelled(d)
    {
      assert WellFormed(nodes[i]);
      AutoOwner(nodes[i], d);
      TunnelledInBits(d);
    }
  }
}
