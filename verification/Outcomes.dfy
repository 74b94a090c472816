/**
 * What commands answer and what they write, column by column: when a server or client is admitted and why it is
 * not, what an issued token holds, and what the rows of every run hold.
 */
module Outcomes {
  import opened Common
  import opened Addresses
  import opened Registry
  import opened Routing
  import opened Admission
  import opened Runs
  import opened Guarantees

  // ---- what the counters count

  /** The positions below n at which a list of flags is set. */
  function Positions(flags: seq<bool>): set<nat> {
    set i | 0 <= i < |flags| && flags[i]
  }

  lemma PositionsStep(flags: seq<bool>)
    requires flags != []
    ensures |Positions(flags)| == |Positions(flags[..|flags| - 1])| + if flags[|flags| - 1] then 1 else 0
  {
    var n := |flags| - 1;
    var front, all := Positions(flags[..n]), Positions(flags);
    assert all == front + if flags[n] then {n} else {};
    assert n !in front;
  }

  function RoleFlags(nodes: Table, roles: set<Role>): seq<bool> {
    seq(|nodes|, i requires 0 <= i < |nodes| => nodes[i].role in roles)
  }

  /** The count of rows with given roles is the number of positions that hold one. */
  lemma {:induction false} CountIsSize(nodes: Table, roles: set<Role>)
    ensures CountRoles(nodes, roles) == |Positions(RoleFlags(nodes, roles))|
  {
    hide Positions;
    if nodes != [] {
      var n, flags := |nodes| - 1, RoleFlags(nodes, roles);
      CountIsSize(nodes[..n], roles);
      assert flags[..n] == RoleFlags(nodes[..n], roles);
      PositionsStep(flags);
    } else {
      assert RoleFlags(nodes, roles) == [];
      NoPositions();
    }
  }

  lemma NoPositions()
    ensures Positions([]) == {}
  {
  }

  function ServerFlags(rs: seq<Request>): seq<bool> {
    seq(|rs|, i requires 0 <= i < |rs| => rs[i].role == Server)
  }

  lemma {:induction false} RequestsAreSize(rs: seq<Request>)
    ensures CountServerRequests(rs) == |Positions(ServerFlags(rs))|
  {
    hide Positions;
    if rs != [] {
      var n, flags := |rs| - 1, ServerFlags(rs);
      RequestsAreSize(rs[..n]);
      assert flags[..n] == ServerFlags(rs[..n]);
      PositionsStep(flags);
    } else {
      assert ServerFlags(rs) == [];
      NoPositions();
    }
  }

  // ---- admission

  /** Servers, gateway and pending server requests leave one of twelve subnets. */
  predicate SubnetRoom(db: Db) {
    CountRoles(db.nodes, {Server, Gateway}) + CountServerRequests(db.requests) < 12
  }

  /** Nodes and pending requests leave one of 254 addresses. */
  predicate AddressRoom(db: Db) {
    |db.nodes| + |db.requests| < 254
  }

  lemma GatesAreRoom(db: Db)
    ensures SubnetLeft(db) <==> SubnetRoom(db)
    ensures ClientLeft(db) <==> AddressRoom(db)
  {
    hide CountRoles, CountServerRequests;
  }

  /** No subnet is asked for, or one that parses and that no server holds. */
  predicate SubnetFits(db: Db, subnet: string) {
    subnet == "" || (ParseNet(subnet, true).Success? && !SubnetUsed(db.nodes, ParseNet(subnet, true).value))
  }

  /** A token as issued, column by column, and the certificate of the same name at the gateway. */
  predicate TokenIssued(before: Db, after: Db, o: Outcome, role: Role, subnet: Option<string>, f: Fresh) {
    && before.nodes != [] && before.nodes[0].wgPublicIP.Some?
    && after.nodes == before.nodes[0 := before.nodes[0].(certs := before.nodes[0].certs[f.id := f.cert])]
    && o.Issued?
    && o.token.id == f.id && o.token.role == role && o.token.dockerSubnet == subnet && o.token.clientCert == f.cert
    && o.token.secret == f.privateKey && o.token.gatewayHost == before.nodes[0].wgPublicIP.value
    && after.requests == before.requests + [o.token]
  }

  lemma IssueIs(db: Db, role: Role, subnet: Option<string>, f: Fresh)
    requires Consistent(db.nodes) && db.nodes != []
    ensures var (after, o) := IssueRequest(db, Some(db.nodes[0]), role, subnet, f);
            TokenIssued(db, after, o, role, subnet, f)
  {
    SaveGateway(db.nodes, AddClientCert(db.nodes[0], f));
    hide SaveNode;
  }

  /** The created node is the new last row; nothing else changes but one certificate and the refreshed configuration. */
  ghost predicate NodeCreated(before: Db, after: Db, o: Outcome, role: Role, f: Fresh) {
    && o.Created? && after.requests == before.requests
    && Grown(before.nodes, after.nodes, role, f) && o.node == after.nodes[|before.nodes|]
  }

  lemma AutomaticFits(db: Db)
    requires Consistent(db.nodes) && db.nodes != [] && SubnetRoom(db)
    ensures NextDockerSubnet(db.nodes).Some?
  {
    CountServersOnly(db.nodes);
    hide CountRoles, FreeSubnetFrom, CountServerRequests;
    forall k | 0 <= k < |db.nodes| && db.nodes[k].role == Gateway
      ensures db.nodes[k].dockerSubnet.None?
    {
      assert WellFormed(db.nodes[k]);
    }
    FreeSubnetExists(db.nodes);
  }

  lemma ForcedCreation(db: Db, subnet: string, f: Fresh)
    requires Consistent(db.nodes) && db.nodes != [] && Unused(db.nodes, f)
    requires SubnetRoom(db) && AddressRoom(db) && SubnetFits(db, subnet)
    ensures var forced := if subnet == "" then None else Some(subnet);
            var (after, o) := FromWritten(db, Registry.CreateServer(db.nodes, forced, f));
            && NodeCreated(db, after, o, Server, f)
            && (subnet != "" ==> ParseNet(subnet, true) == Success(o.node.dockerSubnet.value))
            && (subnet == "" ==> o.node.dockerSubnet == NextDockerSubnet(db.nodes))
  {
    hide Consistent, Unused, Registry.CreateServer, FreeIPFrom, FreeSubnetFrom, SubnetUsed, ParseNet, Grown, CountRoles, CountServerRequests;
    var forced := if subnet == "" then None else Some(subnet);
    CreateServerEffect(db.nodes, forced, f);
    FreeIPExists(db.nodes);
    AutomaticFits(db);
    GrownNewcomerSubnet(db.nodes, Registry.CreateServer(db.nodes, forced, f).nodes, f);
  }

  lemma GrownNewcomerSubnet(before: Table, after: Table, f: Fresh)
    ensures Grown(before, after, Server, f) ==> |after| == |before| + 1 && after[|before|].dockerSubnet.Some?
  {
    hide Consistent, Meshed, SameCores;
  }

  /** `server new`, branch by branch. */
  lemma ServerNewIs(db: Db, force: bool, subnet: string, f: Fresh)
    ensures var forced := if subnet == "" then None else Some(subnet);
            ServerNew(db, force, subnet, f) ==
              if !SubnetRoom(db) then (db, Refused(NoSubnetsLeft))
              else if !AddressRoom(db) then (db, Refused(NoClientsLeft))
              else if subnet != "" && ParseNet(subnet, true).Failure?
              then (db, Refused(NodeError(BadSubnet(ParseNet(subnet, true).error))))
              else if !SubnetFits(db, subnet) then (db, Refused(NodeError(SubnetInUse)))
              else if force then FromWritten(db, Registry.CreateServer(db.nodes, forced, f))
              else IssueRequest(db, FindGateway(db.nodes), Server, forced, f)
  {
    GatesAreRoom(db);
    hide SubnetLeft, ClientLeft, SubnetRoom, AddressRoom, ParseNet, SubnetUsed, Registry.CreateServer, IssueRequest, FindGateway;
  }

  /**
   * Exactly when `server new` admits a server, on every consistent table with a gateway: when the subnet pool, the
   * address pool and the requested subnet allow it. With force it creates the node, otherwise it issues a token;
   * a refusal changes nothing.
   */
  lemma AdmitsServerExactly(db: Db, force: bool, subnet: string, f: Fresh)
    requires Consistent(db.nodes) && db.nodes != [] && Unused(db.nodes, f)
    ensures var (after, o) := Perform(db, NewServer(force, subnet, f));
            if SubnetRoom(db) && AddressRoom(db) && SubnetFits(db, subnet) then
              if force then
                && NodeCreated(db, after, o, Server, f)
                && (subnet != "" ==> ParseNet(subnet, true) == Success(o.node.dockerSubnet.value))
                && (subnet == "" ==> o.node.dockerSubnet == NextDockerSubnet(db.nodes))
              else TokenIssued(db, after, o, Server, if subnet == "" then None else Some(subnet), f)
            else
              && after == db && o.Refused?
              && (o.reason == NoSubnetsLeft <==> !SubnetRoom(db))
              && (o.reason == NoClientsLeft <==> SubnetRoom(db) && !AddressRoom(db))
              && (SubnetRoom(db) && AddressRoom(db) ==>
                    o.reason == NodeError(match ParseNet(subnet, true)
                                          case Failure(e) => BadSubnet(e)
                                          case Success(_) => SubnetInUse))
  {
    hide SubnetRoom, AddressRoom, ParseNet, SubnetUsed, Consistent, Unused, Registry.CreateServer, IssueRequest, ServerNew,
         FindGateway, FindCurrent, NodeCreated, TokenIssued;
    ServerNewIs(db, force, subnet, f);
    CurrentIsGateway(db.nodes);
    if SubnetRoom(db) && AddressRoom(db) && SubnetFits(db, subnet) {
      ForcedCreation(db, subnet, f);
      IssueIs(db, Server, if subnet == "" then None else Some(subnet), f);
    }
  }

  /** Without a gateway nobody is admitted: creation is refused, and issuing crashes on the missing row. */
  lemma NoGatewayNoServer(force: bool, subnet: string, f: Fresh)
    requires subnet == "" || ParseNet(subnet, true).Success?
    ensures Perform(Db([], []), NewServer(force, subnet, f))
         == (Db([], []), if force then Refused(NodeError(GatewayNotFound)) else Crashed)
  {
    hide ParseNet;
    assert SubnetRoom(Db([], [])) && AddressRoom(Db([], []));
    ServerNewIs(Db([], []), force, subnet, f);
    hide ServerNew;
  }

  lemma DirectCreation(db: Db, f: Fresh)
    requires Consistent(db.nodes) && db.nodes != [] && Unused(db.nodes, f) && AddressRoom(db)
    ensures var (after, o) := FromWritten(db, Registry.CreateClient(db.nodes, f)); NodeCreated(db, after, o, Client, f)
  {
    hide Consistent, Unused, Registry.CreateClient, FreeIPFrom, Grown;
    CreateClientEffect(db.nodes, f);
    FreeIPExists(db.nodes);
  }

  /** Exactly when `client new` admits a client on the gateway, and what it does. */
  lemma AdmitsClientExactly(db: Db, joinRequest: bool, f: Fresh)
    requires Consistent(db.nodes) && db.nodes != [] && Unused(db.nodes, f)
    ensures var (after, o) := Perform(db, NewClient(joinRequest, f));
            if AddressRoom(db) then
              if joinRequest then TokenIssued(db, after, o, Client, None, f) else NodeCreated(db, after, o, Client, f)
            else after == db && o == Refused(NoClientsLeft)
  {
    hide Consistent, Unused, SubnetLeft, ClientLeft, AddressRoom, Registry.CreateClient, IssueRequest, FindGateway, FindCurrent,
         NodeCreated, TokenIssued;
    GatesAreRoom(db);
    CurrentIsGateway(db.nodes);
    if AddressRoom(db) {
      DirectCreation(db, f);
      IssueIs(db, Client, None, f);
    }
  }

  lemma NoGatewayNoClient(joinRequest: bool, f: Fresh)
    ensures Perform(Db([], []), NewClient(joinRequest, f)) == (Db([], []), Refused(NoCurrentNode))
  {
  }

  /** In runs: after any commands, a fresh `server new` is admitted exactly within the pools. */
  lemma {:induction false} AdmitsServerInRuns(cs: seq<Command>, force: bool, subnet: string, f: Fresh)
    requires FreshRun(EMPTY, cs) && NewlyDrawn(Exec(EMPTY, cs), NewServer(force, subnet, f))
    requires Exec(EMPTY, cs).db.nodes != []
    ensures var db := Exec(EMPTY, cs).db;
            var o := Perform(db, NewServer(force, subnet, f)).1;
            && (o.Created? || o.Issued? <==> SubnetRoom(db) && AddressRoom(db) && SubnetFits(db, subnet))
            && (o.Created? ==> force) && (o.Issued? ==> !force)
  {
    Reached(cs);
    var w := Exec(EMPTY, cs);
    hide Exec, FreshRun, Inv, Ledger, Consistent, Unused, Perform, SubnetRoom, AddressRoom, SubnetFits, ParseNet, Grown;
    InvParts(w);
    UnusedRows(w, f);
    AdmitsServerExactly(w.db, force, subnet, f);
  }

  // ---- labels and saved rows

  /** Setting labels changes the labels of the row with that identifier and nothing else; without one it is refused. */
  lemma LabelsSet(db: Db, id: string, labels: seq<string>)
    ensures var (after, o) := Perform(db, SettingLabels(id, labels));
            && after.requests == db.requests && |after.nodes| == |db.nodes|
            && (forall i :: 0 <= i < |db.nodes| ==>
                  && after.nodes[i].labels == (if db.nodes[i].id == id then labels else db.nodes[i].labels)
                  && after.nodes[i].(labels := []) == db.nodes[i].(labels := []))
            && (o == Done <==> exists i :: 0 <= i < |db.nodes| && db.nodes[i].id == id)
            && (o != Done ==> o == Refused(NodeError(RecordNotFound)) && after == db)
  {
    var after := UpdateLabels(db.nodes, id, labels);
    if !HasId(db.nodes, id) {
      assert after == db.nodes;
    }
  }

  /** A save replaces the row of that identifier in its place, or appends it. */
  lemma SaveMeans(nodes: Table, n: Node)
    requires UniqueIds(nodes)
    ensures (exists k :: 0 <= k < |nodes| && nodes[k].id == n.id && SaveNode(nodes, n) == nodes[k := n])
            || ((forall k :: 0 <= k < |nodes| ==> nodes[k].id != n.id) && SaveNode(nodes, n) == nodes + [n])
  {
    if k :| 0 <= k < |nodes| && nodes[k].id == n.id {
      assert SaveNode(nodes, n) == nodes[k := n];
    }
  }

  lemma {:induction false} NoGatewayFound(nodes: Table)
    requires forall i :: 0 <= i < |nodes| ==> nodes[i].role != Gateway
    ensures FindGateway(nodes).None?
  {
    if nodes != [] {
      NoGatewayFound(nodes[1..]);
    }
  }

  /** Exactly when a refresh fails, and why, on tables whose gateway, if any, comes first. */
  lemma RefreshRefusedExactly(nodes: Table)
    ensures (forall i :: 0 <= i < |nodes| ==> nodes[i].role != Gateway) ==> Refresh(nodes) == Failure(GatewayNotFound)
    ensures nodes != [] && nodes[0].role == Gateway ==>
              var lost := exists i :: 0 <= i < |nodes| && nodes[i].role == Server && nodes[i].dockerSubnet.None?;
              if nodes[0].wgPublicIP.None? || nodes[0].wgPublicPort.None? then Refresh(nodes) == Failure(PublicEndpointMissing)
              else if lost then Refresh(nodes) == Failure(NilDockerSubnet)
              else Refresh(nodes).Success?
  {
    if forall i :: 0 <= i < |nodes| ==> nodes[i].role != Gateway {
      NoGatewayFound(nodes);
    }
  }

  // ---- the gateway's row

  /** The first start in a run, which is the one that creates the gateway. */
  function FirstStart(cs: seq<Command>): Option<(Site, Fresh)>
    decreases |cs|
  {
    if cs == [] then None
    else if cs[0].StartingGateway? then Some((cs[0].site, cs[0].f))
    else FirstStart(cs[1..])
  }

  /** The gateway row, column by column, as far as it never changes. */
  predicate GatewayOf(g: Node, site: Site, f: Fresh) {
    && g.id == f.id && g.role == Gateway && g.isCurrentNode
    && g.privateKey == f.privateKey && g.publicKey == f.publicKey
    && g.address == IPNet(IPv4(10, 0, 0, 1), 24)
    && g.wgPublicIP == Some(site.wgPublicIP) && g.wgPublicPort == Some(site.wgPublicPort)
    && g.gatewayPublicIP == site.publicIP && g.gatewayPublicPort == site.publicPort
    && g.clientCert.None? && g.dockerSubnet.None?
  }

  lemma StartCreates(w: World, site: Site, f: Fresh)
    requires w.db.nodes == []
    ensures var nodes := Step(w, StartingGateway(site, f)).db.nodes;
            && |nodes| == 1 && GatewayOf(nodes[0], site, f) && nodes[0].certs == map[] && nodes[0].labels == []
    ensures var (db, o) := Perform(w.db, StartingGateway(site, f));
            o.Created? && |db.nodes| == 1 && o.node == db.nodes[0] && db.requests == w.db.requests
    ensures EnsureGateway(w.db.nodes, site, f) == Registry.CreateGateway(w.db.nodes, site, f)
  {
    FirstGateway(site, f);
    hide Refresh, Consistent, Meshed;
  }

  lemma GatewayOfCore(a: Node, b: Node, site: Site, f: Fresh)
    requires Core(a) == Core(b) && GatewayOf(a, site, f)
    ensures GatewayOf(b, site, f)
  {
  }

  lemma {:induction false} GatewayFrom(w: World, cs: seq<Command>)
    requires Inv(w) && w.db.nodes == [] && FreshRun(w, cs)
    ensures match FirstStart(cs)
            case None => Exec(w, cs).db.nodes == []
            case Some(s) => Exec(w, cs).db.nodes != [] && GatewayOf(Exec(w, cs).db.nodes[0], s.0, s.1)
    decreases |cs|
  {
    hide Inv, Step, NewlyDrawn, GatewayOf;
    if cs != [] {
      var v := Step(w, cs[0]);
      StepKeepsInv(w, cs[0]);
      if cs[0].StartingGateway? {
        StartCreates(w, cs[0].site, cs[0].f);
        RunPersists(v, cs[1..]);
        hide Core;
        GatewayOfCore(v.db.nodes[0], Exec(v, cs[1..]).db.nodes[0], cs[0].site, cs[0].f);
      } else {
        StaysEmpty(w, cs[0]);
        GatewayFrom(v, cs[1..]);
      }
    }
  }

  lemma StaysEmpty(w: World, c: Command)
    requires Inv(w) && NewlyDrawn(w, c) && w.db.nodes == [] && !c.StartingGateway?
    ensures Step(w, c).db.nodes == []
  {
    EmptyStays(w, c);
    hide Perform, Inv, NewlyDrawn;
  }

  /** After any run the gateway's row is the one its first start asked for. */
  lemma {:induction false} GatewayOfRun(cs: seq<Command>)
    requires FreshRun(EMPTY, cs)
    ensures var nodes := Exec(EMPTY, cs).db.nodes;
            match FirstStart(cs)
            case None => nodes == []
            case Some(s) => nodes != [] && GatewayOf(nodes[0], s.0, s.1)
  {
    EmptyInv();
    GatewayFrom(EMPTY, cs);
  }

  // ---- the spokes' rows

  /**
   * After any run, whatever a server or client is told about the gateway comes from the gateway's start: its one
   * peer has the gateway's key and the WireGuard endpoint of the site, and its DNS servers are fixed.
   */
  lemma {:induction false} SpokeConfiguration(cs: seq<Command>, i: nat)
    requires FreshRun(EMPTY, cs) && 1 <= i < |Exec(EMPTY, cs).db.nodes|
    ensures FirstStart(cs).Some?
    ensures var n, (site, f) := Exec(EMPTY, cs).db.nodes[i], FirstStart(cs).value;
            var allowed := if n.role == Server then [IPNet(IPv4(10, 0, 0, 0), 24)]
                           else [IPNet(IPv4(172, 16, 0, 0), 12), IPNet(IPv4(10, 0, 0, 1), 24)];
            && n.role in {Server, Client}
            && n.peers == [Peer(f.publicKey, Some(Endpoint(ParseIPv4(site.wgPublicIP), site.wgPublicPort)), allowed, Some(15))]
            && n.dns == [IPNet(IPv4(10, 0, 0, 1), 32)] + if n.role == Server then [IPNet(IPv4(127, 0, 0, 11), 32)] else []
  {
    Reached(cs);
    GatewayOfRun(cs);
    var w := Exec(EMPTY, cs);
    hide Exec, FreshRun, FirstStart, Pending, Reserved, Ledger, Live, ParseIPv4;
    assert Meshed(w.db.nodes, w.snapshot);
    SpokeTold(w.db.nodes, w.snapshot, i);
    hide Inv, Meshed;
  }

  lemma SpokeTold(nodes: Table, snapshot: Table, i: nat)
    requires Meshed(nodes, snapshot) && 1 <= i < |nodes|
    ensures nodes[0].wgPublicIP.Some? && nodes[0].wgPublicPort.Some? && nodes[i].role != Gateway
    ensures nodes[i].peers == [SpokePeer(nodes[0], nodes[i].role)] && nodes[i].dns == SpokeDNS(nodes[0], nodes[i].role)
  {
  }

  /** The gateway's resolvers: Docker's own, then the servers of the last refresh, in order. */
  lemma {:induction false} GatewayResolvers(cs: seq<Command>)
    requires FreshRun(EMPTY, cs) && Exec(EMPTY, cs).db.nodes != []
    ensures var dns, servers := Exec(EMPTY, cs).db.nodes[0].dns, FilterRoles(Exec(EMPTY, cs).snapshot, {Server});
            && |dns| == |servers| + 1 && dns[0] == IPNet(IPv4(127, 0, 0, 11), 32)
            && forall k :: 0 <= k < |servers| ==> dns[k + 1] == IPNet(servers[k].address.ip, 32)
  {
    hide Exec, FreshRun, Inv;
    Reached(cs);
    ResolversOf(Exec(EMPTY, cs));
    ServersInOrder(Exec(EMPTY, cs).snapshot);
  }

  lemma ResolversOf(w: World)
    requires Inv(w) && w.db.nodes != []
    ensures w.db.nodes[0].dns == [IPNet(IPv4(127, 0, 0, 11), 32)] + ServerAddresses(w.snapshot)
  {
    hide Pending, Reserved, Ledger, Live;
    assert Meshed(w.db.nodes, w.snapshot);
    assert w.db.nodes[0].dns == GatewayDNS(w.snapshot);
    hide Inv, Meshed;
  }

  lemma {:induction false} ServersInOrder(nodes: Table)
    ensures var servers := FilterRoles(nodes, {Server});
            && |ServerAddresses(nodes)| == |servers|
            && forall i :: 0 <= i < |servers| ==> ServerAddresses(nodes)[i] == IPNet(servers[i].address.ip, 32)
  {
    if nodes != [] {
      ServersInOrder(nodes[..|nodes| - 1]);
    }
  }

  /** The columns of a server or client that are drawn for it or copied from the gateway. */
  predicate SpokeOf(n: Node, g: Node, f: Fresh) {
    && n.id == f.id && n.privateKey == f.privateKey && n.publicKey == f.publicKey && n.clientCert == Some(f.cert)
    && n.gatewayPublicIP == g.gatewayPublicIP && n.gatewayPublicPort == g.gatewayPublicPort
    && n.wgPublicIP.None? && n.wgPublicPort.None? && !n.isCurrentNode
  }

  ghost predicate SpokeDrawn(n: Node, g: Node, cs: seq<Command>) {
    exists k :: 0 <= k < |cs| && Draws(cs[k]).Some? && SpokeOf(n, g, Draws(cs[k]).value)
  }

  lemma GrownSpoke(before: Table, after: Table, role: Role, f: Fresh)
    requires Grown(before, after, role, f)
    ensures before != [] && |after| == |before| + 1 && SpokeOf(after[|before|], before[0], f)
  {
    hide Consistent, Meshed, SameCores, IPUsed, SubnetUsed;
  }

  lemma JoinedSpoke(w: World, r: Request, f: Fresh)
    requires Inv(w) && NewlyDrawn(w, Joining(r, f)) && w.db.nodes != []
    ensures var after := Perform(w.db, Joining(r, f)).0.nodes;
            |after| == |w.db.nodes| + 1 ==> SpokeOf(after[|w.db.nodes|], w.db.nodes[0], f)
  {
    JoinEffect(w, r, f);
    hide Perform;
    if Perform(w.db, Joining(r, f)).1.Joined? {
      JoinConserves(w, r, f);
      hide Inv, SameCores, Consumed, NewlyDrawn;
    }
  }

  /** A row that a command adds to a table with a gateway is drawn by that command. */
  lemma NewRowDrawn(w: World, c: Command)
    requires Inv(w) && NewlyDrawn(w, c) && w.db.nodes != []
    requires |Perform(w.db, c).0.nodes| == |w.db.nodes| + 1
    ensures Draws(c).Some? && SpokeOf(Perform(w.db, c).0.nodes[|w.db.nodes|], w.db.nodes[0], Draws(c).value)
  {
    hide Inv, Consistent, Ledger, Unused, SpokeOf, Registry.CreateServer, Registry.CreateClient, IssueRequest, ServerNew, ClientNew,
         JoinAttempt, UpdateLabels, DeleteServer, StartGateway, SubnetRoom, AddressRoom, SubnetFits, ParseNet, Grown;
    InvParts(w);
    match c
    case NewServer(force, subnet, f) =>
      UnusedRows(w, f);
      AdmitsServerExactly(w.db, force, subnet, f);
      if Perform(w.db, c).1.Created? {
        GrownSpoke(w.db.nodes, Perform(w.db, c).0.nodes, Server, f);
      }
    case NewClient(joinRequest, f) =>
      UnusedRows(w, f);
      AdmitsClientExactly(w.db, joinRequest, f);
      if Perform(w.db, c).1.Created? {
        GrownSpoke(w.db.nodes, Perform(w.db, c).0.nodes, Client, f);
      }
    case Joining(r, f) => JoinedSpoke(w, r, f);
    case StartingGateway(site, f) => StartIdle(w.db, site, f);
    case RemovingServer(id) => RemovalShrinks(w.db.nodes, id);
    case SettingLabels(id, labels) => LabelsSet(w.db, id, labels);
  }

  lemma StartIdle(db: Db, site: Site, f: Fresh)
    requires Consistent(db.nodes) && db.nodes != []
    ensures StartGateway(db, site, f) == (db, Done)
    ensures EnsureGateway(db.nodes, site, f) == Written(db.nodes, Success(db.nodes[0]))
    ensures Registry.CreateGateway(db.nodes, site, f) == Written(db.nodes, Failure(GatewayExists))
  {
    CurrentIsGateway(db.nodes);
    hide Consistent, FindGateway, FindCurrent;
  }

  lemma {:induction false} RemovalShrinks(nodes: Table, id: string)
    ensures |DeleteServer(nodes, id)| <= |nodes|
  {
    if nodes != [] {
      RemovalShrinks(nodes[..|nodes| - 1], id);
    }
  }

  ghost predicate AllDrawn(nodes: Table, cs: seq<Command>) {
    forall i :: 1 <= i < |nodes| ==> SpokeDrawn(nodes[i], nodes[0], cs)
  }

  lemma SpokeOfCores(n: Node, n': Node, g: Node, g': Node, f: Fresh)
    requires SpokeOf(n, g, f) && Core(n) == Core(n') && Core(g) == Core(g')
    ensures SpokeOf(n', g', f)
  {
  }

  lemma DrawnStays(n: Node, n': Node, g: Node, g': Node, cs: seq<Command>, c: Command)
    requires SpokeDrawn(n, g, cs) && Core(n) == Core(n') && Core(g) == Core(g')
    ensures SpokeDrawn(n', g', cs + [c])
  {
    hide SpokeOf, Core;
    var k :| 0 <= k < |cs| && Draws(cs[k]).Some? && SpokeOf(n, g, Draws(cs[k]).value);
    SpokeOfCores(n, n', g, g', Draws(cs[k]).value);
    assert (cs + [c])[k] == cs[k];
  }

  lemma ContinuesDrawn(a: Table, b: Table, cs: seq<Command>, c: Command)
    requires a != [] && Continues(a, b) && AllDrawn(a, cs)
    requires |b| == |a| + 1 ==> Draws(c).Some? && SpokeOf(b[|a|], a[0], Draws(c).value)
    ensures AllDrawn(b, cs + [c])
  {
    hide SpokeOf, SpokeDrawn, Core;
    assert Core(a[0]) == Core(b[..|a|][0]);
    forall i | 1 <= i < |b|
      ensures SpokeDrawn(b[i], b[0], cs + [c])
    {
      if i < |a| {
        assert Core(a[i]) == Core(b[..|a|][i]);
        DrawnStays(a[i], b[i], a[0], b[0], cs, c);
      } else {
        SpokeOfCores(b[i], b[i], a[0], b[0], Draws(c).value);
        DrawnHere(b[i], b[0], cs, c);
      }
    }
  }

  lemma DrawnHere(n: Node, g: Node, cs: seq<Command>, c: Command)
    requires Draws(c).Some? && SpokeOf(n, g, Draws(c).value)
    ensures SpokeDrawn(n, g, cs + [c])
  {
    hide SpokeOf;
    assert (cs + [c])[|cs|] == c;
  }

  lemma RemovedDrawn(a: Table, k: nat, cs: seq<Command>, c: Command)
    requires 1 <= k < |a| && AllDrawn(a, cs)
    ensures AllDrawn(a[..k] + a[k + 1..], cs + [c])
  {
    hide SpokeDrawn, Core;
    var b := a[..k] + a[k + 1..];
    forall i | 1 <= i < |b|
      ensures SpokeDrawn(b[i], b[0], cs + [c])
    {
      var j := if i < k then i else i + 1;
      assert b[i] == a[j] && b[0] == a[0];
      DrawnStays(a[j], a[j], a[0], a[0], cs, c);
    }
  }

  lemma StepDrawn(w: World, cs: seq<Command>, c: Command)
    requires Inv(w) && NewlyDrawn(w, c) && AllDrawn(w.db.nodes, cs)
    ensures AllDrawn(Step(w, c).db.nodes, cs + [c])
  {
    hide Inv, AllDrawn, NewlyDrawn, Perform, IsServer;
    if w.db.nodes == [] {
      if c.StartingGateway? {
        StartCreates(w, c.site, c.f);
      } else {
        StaysEmpty(w, c);
      }
      FewDrawn(Step(w, c).db.nodes, cs + [c]);
    } else if c.RemovingServer? && IsServer(w.db.nodes, c.id) {
      var k := RemovalRows(w, c.id);
      NotTheHub(w, c.id, k);
      RemovedDrawn(w.db.nodes, k, cs, c);
    } else {
      StepContinues(w, c);
      hide SpokeOf, Continues;
      assert Step(w, c).db == Perform(w.db, c).0;
      if |Step(w, c).db.nodes| == |w.db.nodes| + 1 {
        NewRowDrawn(w, c);
      }
      ContinuesDrawn(w.db.nodes, Step(w, c).db.nodes, cs, c);
    }
  }

  lemma FewDrawn(nodes: Table, cs: seq<Command>)
    requires |nodes| <= 1
    ensures AllDrawn(nodes, cs)
  {
  }

  lemma NotTheHub(w: World, id: string, k: nat)
    requires Inv(w) && k < |w.db.nodes|
    requires Step(w, RemovingServer(id)).db == w.db.(nodes := w.db.nodes[..k] + w.db.nodes[k + 1..])
    ensures k != 0
  {
    StepKeepsInv(w, RemovingServer(id));
    hide Step, Pending, Reserved, Ledger, Live, Meshed;
  }

  /**
   * After any run every server and client holds the identifier, both keys and the certificate that one command
   * drew, never those of another, and the control address of the gateway.
   */
  lemma {:induction false} RowsAreDrawn(cs: seq<Command>, i: nat)
    requires FreshRun(EMPTY, cs) && 1 <= i < |Exec(EMPTY, cs).db.nodes|
    ensures SpokeDrawn(Exec(EMPTY, cs).db.nodes[i], Exec(EMPTY, cs).db.nodes[0], cs)
  {
    RunDrawn(cs, |cs|);
    assert cs[..|cs|] == cs;
    hide Exec, FreshRun, SpokeDrawn;
  }

  lemma {:induction false} PrefixFresh(w: World, cs: seq<Command>, k: nat)
    requires FreshRun(w, cs) && k <= |cs|
    ensures FreshRun(w, cs[..k])
    decreases k
  {
    hide Step, NewlyDrawn;
    if k > 0 {
      PrefixFresh(Step(w, cs[0]), cs[1..], k - 1);
      assert cs[..k][1..] == cs[1..][..k - 1];
    }
  }

  lemma {:induction false} RunDrawn(cs: seq<Command>, k: nat)
    requires FreshRun(EMPTY, cs) && k <= |cs|
    ensures AllDrawn(Exec(EMPTY, cs[..k]).db.nodes, cs[..k])
    decreases k
  {
    hide FreshRun, Inv, Step, NewlyDrawn, AllDrawn;
    if k == 0 {
      FewDrawn([], []);
      assert cs[..0] == [];
    } else {
      hide Exec;
      RunDrawn(cs, k - 1);
      PrefixFresh(EMPTY, cs, k);
      PrefixFresh(EMPTY, cs, k - 1);
      assert cs[..k] == cs[..k - 1] + [cs[k - 1]];
      ExecAppend(EMPTY, cs[..k - 1], cs[k - 1]);
      Reached(cs[..k - 1]);
      StepDrawn(Exec(EMPTY, cs[..k - 1]), cs[..k - 1], cs[k - 1]);
    }
  }
}
