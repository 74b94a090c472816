/**
 * Runs of non-overlapping, failure-free commands on the gateway, from an empty database, and what
 * holds after each of them.
 */
module Runs {
  import opened Common
  import opened Addresses
  import opened Registry
  import opened Routing
  import opened Admission

  /**
   * The database with history: the table at the last refresh, the servers removed since then and
   * ever, the requests consumed by a join, and every identifier and public key drawn so far.
   */
  datatype World = World(
    db: Db,
    snapshot: Table,
    removed: set<string>,
    gone: set<string>,
    consumed: set<string>,
    ids: set<string>,
    keys: set<string>)

  const EMPTY := World(Db([], []), [], {}, {}, {}, {}, {})

  function Draws(c: Command): Option<Fresh> {
    match c
    case StartingGateway(_, f) => Some(f)
    case NewServer(_, _, f) => Some(f)
    case NewClient(_, f) => Some(f)
    case Joining(_, f) => Some(f)
    case _ => None
  }

  predicate IsServer(nodes: Table, id: string) {
    exists i :: 0 <= i < |nodes| && nodes[i].id == id && nodes[i].role == Server
  }

  /** Only commands that create a node refresh the peers. */
  function Step(w: World, c: Command): World {
    var (db, o) := Perform(w.db, c);
    var refreshed := o.Created? || o.Joined?;
    var victim := if c.RemovingServer? && IsServer(w.db.nodes, c.id) then {c.id} else {};
    World(
      db,
      if refreshed then db.nodes else w.snapshot,
      if refreshed then {} else w.removed + victim,
      w.gone + victim,
      if o.Joined? then w.consumed + {c.token.id} else w.consumed,
      if Draws(c).Some? then w.ids + {Draws(c).value.id} else w.ids,
      if Draws(c).Some? then w.keys + {Draws(c).value.publicKey} else w.keys)
  }

  function Exec(w: World, cs: seq<Command>): World
    decreases |cs|
  {
    if cs == [] then w else Exec(Step(w, cs[0]), cs[1..])
  }

  /** UUIDs and keys are never drawn twice. */
  predicate NewlyDrawn(w: World, c: Command) {
    Draws(c).Some? ==> Draws(c).value.id !in w.ids && Draws(c).value.publicKey !in w.keys
  }

  predicate FreshRun(w: World, cs: seq<Command>)
    decreases |cs|
  {
    cs == [] || (NewlyDrawn(w, cs[0]) && FreshRun(Step(w, cs[0]), cs[1..]))
  }

  // ---- the invariant

  ghost function SpokeIds(nodes: Table): set<string> {
    set i | 1 <= i < |nodes| :: nodes[i].id
  }

  ghost function RequestIds(requests: seq<Request>): set<string> {
    set i | 0 <= i < |requests| :: requests[i].id
  }

  ghost predicate Pending(w: World) {
    var rs := w.db.requests;
    && (rs != [] ==> w.db.nodes != [])
    && (forall i :: 0 <= i < |rs| ==> rs[i].role != Gateway)
    && (forall i, j :: 0 <= i < j < |rs| ==> rs[i].id != rs[j].id)
    && (forall i :: 0 <= i < |rs| && rs[i].dockerSubnet.Some? ==> ParseNet(rs[i].dockerSubnet.value, true).Success?)
  }

  /** Nodes and pending requests fit the address pool; servers, gateway and server requests fit the subnet pool. */
  predicate Reserved(db: Db) {
    && |db.nodes| + |db.requests| <= 254
    && CountRoles(db.nodes, DOCKER_ROLES) + CountServerRequests(db.requests) <= 12
  }

  predicate RowsKnown(nodes: Table, ids: set<string>, keys: set<string>) {
    forall i :: 0 <= i < |nodes| ==> nodes[i].id in ids && nodes[i].publicKey in keys
  }

  predicate Separate(a: set<string>, b: set<string>, c: set<string>, d: set<string>) {
    a !! b && a !! c && a !! d && b !! c && b !! d && c !! d
  }

  lemma SeparateMoves(a: set<string>, b: set<string>, c: set<string>, d: set<string>, x: string)
    requires Separate(a, b, c, d)
    ensures x !in b && x !in c && x !in d ==> Separate(a + {x}, b, c, d)
    ensures x !in a && x !in c && x !in d ==> Separate(a, b + {x}, c, d)
    ensures x in b ==> Separate(a, b - {x}, c, d + {x})
    ensures x in a ==> Separate(a - {x}, b, c + {x}, d)
  {
  }

  /**
   * The gateway's certificates are those of live spokes, pending requests and removed servers, and of
   * nobody else; in particular a consumed request has none.
   */
  ghost predicate Ledger(w: World) {
    var nodes, rs := w.db.nodes, w.db.requests;
    && (nodes != [] ==> nodes[0].certs.Keys == SpokeIds(nodes) + RequestIds(rs) + w.gone)
    && Separate(SpokeIds(nodes), RequestIds(rs), w.gone, w.consumed)
    && w.gone <= w.ids && w.consumed <= w.ids && RequestIds(rs) <= w.ids
    && RowsKnown(nodes, w.ids, w.keys)
    && (nodes == [] ==> w.gone == {})
  }

  function Without(nodes: Table, ids: set<string>): Table {
    if nodes == [] then []
    else Without(nodes[..|nodes| - 1], ids) + if nodes[|nodes| - 1].id in ids then [] else [nodes[|nodes| - 1]]
  }

  /** The live rows are those of the last refresh without the servers removed since, in the same order. */
  ghost predicate Live(w: World) {
    && SameCores(w.db.nodes, Without(w.snapshot, w.removed))
    && w.removed <= w.gone
    && forall id :: id in w.removed ==> IsServer(w.snapshot, id)
  }

  ghost predicate Inv(w: World) {
    && Consistent(w.db.nodes)
    && Pending(w)
    && Reserved(w.db)
    && Ledger(w)
    && Live(w)
    && (w.db.nodes != [] ==> Meshed(w.db.nodes, w.snapshot))
    && (w.db.nodes == [] ==> w.snapshot == [])
  }

  // ---- counting

  lemma {:induction false} FilterSplit(a: Table, b: Table, roles: set<Role>)
    ensures FilterRoles(a + b, roles) == FilterRoles(a, roles) + FilterRoles(b, roles)
  {
    if b == [] {
      assert a + b == a;
    } else {
      var n := |b| - 1;
      FilterSplit(a, b[..n], roles);
      assert (a + b)[..|a + b| - 1] == a + b[..n];
    }
  }

  lemma FilterOne(n: Node, roles: set<Role>)
    ensures FilterRoles([n], roles) == if n.role in roles then [n] else []
  {
    assert [n][..0] == [];
  }

  lemma {:induction false} CountSameCores(a: Table, b: Table, roles: set<Role>)
    requires SameCores(a, b)
    ensures CountRoles(a, roles) == CountRoles(b, roles)
  {
    if a != [] {
      var n := |a| - 1;
      CountSameCores(a[..n], b[..n], roles);
      assert Core(a[n]) == Core(b[n]);
    }
  }

  lemma CountAppend(a: Table, n: Node)
    ensures CountRoles(a + [n], DOCKER_ROLES) == CountRoles(a, DOCKER_ROLES) + if n.role == Client then 0 else 1
  {
    FilterSplit(a, [n], DOCKER_ROLES);
    FilterOne(n, DOCKER_ROLES);
  }

  lemma {:induction false} CountServersOnly(nodes: Table)
    requires Consistent(nodes) && nodes != []
    ensures CountRoles(nodes, DOCKER_ROLES) == 1 + CountRoles(nodes, {Server})
  {
    var n := |nodes| - 1;
    if n == 0 {
      assert nodes == [nodes[0]];
      FilterOne(nodes[0], DOCKER_ROLES);
      FilterOne(nodes[0], {Server});
    } else {
      assert nodes[..n][0] == nodes[0];
      CountServersOnly(nodes[..n]);
    }
  }

  lemma {:induction false} RequestSplit(a: seq<Request>, b: seq<Request>)
    ensures CountServerRequests(a + b) == CountServerRequests(a) + CountServerRequests(b)
  {
    if b == [] {
      assert a + b == a;
    } else {
      var n := |b| - 1;
      RequestSplit(a, b[..n]);
      assert (a + b)[..|a + b| - 1] == a + b[..n];
    }
  }

  lemma RequestOne(r: Request)
    ensures CountServerRequests([r]) == if r.role == Server then 1 else 0
  {
    assert [r][..0] == [];
  }

  // ---- rows and requests by identifier

  lemma {:induction false} GetByIDAt(nodes: Table, k: nat)
    requires k < |nodes| && UniqueIds(nodes)
    ensures GetByID(nodes, nodes[k].id) == Success(nodes[k])
  {
    if k > 0 {
      assert nodes[0].id != nodes[k].id;
      assert nodes[1..][k - 1] == nodes[k];
      GetByIDAt(nodes[1..], k - 1);
    }
  }

  lemma {:induction false} GetRequestFinds(rs: seq<Request>, id: string)
    ensures match GetRequest(rs, id)
            case None => forall i :: 0 <= i < |rs| ==> rs[i].id != id
            case Some(r) => r in rs && r.id == id
  {
    if rs != [] && rs[0].id != id {
      GetRequestFinds(rs[1..], id);
    }
  }

  lemma {:induction false} DeleteNothing(nodes: Table, id: string)
    requires !IsServer(nodes, id)
    ensures DeleteServer(nodes, id) == nodes
  {
    if nodes != [] {
      var n := |nodes| - 1;
      forall i | 0 <= i < n
        ensures !(nodes[..n][i].id == id && nodes[..n][i].role == Server)
      {
        assert nodes[..n][i] == nodes[i];
      }
      DeleteNothing(nodes[..n], id);
      assert nodes == nodes[..n] + [nodes[n]];
    }
  }

  lemma {:induction false} DeleteServerAt(nodes: Table, k: nat)
    requires UniqueIds(nodes)
    requires k < |nodes| && nodes[k].role == Server
    ensures DeleteServer(nodes, nodes[k].id) == nodes[..k] + nodes[k + 1..]
  {
    var n, id := |nodes| - 1, nodes[k].id;
    if k == n {
      forall i | 0 <= i < n
        ensures nodes[..n][i].id != id
      {
        assert nodes[i].id != nodes[n].id;
      }
      DeleteNothing(nodes[..n], id);
      assert nodes[n + 1..] == [];
    } else {
      DeleteServerAt(nodes[..n], k);
      assert nodes[n].id != id;
      assert nodes[..n][..k] == nodes[..k] && nodes[..n][k + 1..] + [nodes[n]] == nodes[k + 1..];
      assert DeleteServer(nodes, id) == (nodes[..n][..k] + nodes[..n][k + 1..]) + [nodes[n]];
    }
  }

  lemma {:induction false} DeleteRequestAt(rs: seq<Request>, r: Request) returns (k: nat)
    requires forall i, j :: 0 <= i < j < |rs| ==> rs[i].id != rs[j].id
    requires r in rs
    ensures k < |rs| && rs[k] == r && DeleteRequest(rs, r.id) == rs[..k] + rs[k + 1..]
  {
    var n := |rs| - 1;
    if rs[n] == r {
      k := n;
      DeleteRequestNone(rs[..n], r.id);
      assert rs[n + 1..] == [];
    } else {
      assert r in rs[..n];
      k := DeleteRequestAt(rs[..n], r);
      assert rs[n].id != r.id;
      assert rs[..n][..k] == rs[..k] && rs[..n][k + 1..] + [rs[n]] == rs[k + 1..];
      assert DeleteRequest(rs, r.id) == (rs[..n][..k] + rs[..n][k + 1..]) + [rs[n]];
    }
  }

  lemma {:induction false} DeleteRequestNone(rs: seq<Request>, id: string)
    requires forall i :: 0 <= i < |rs| ==> rs[i].id != id
    ensures DeleteRequest(rs, id) == rs
  {
    if rs != [] {
      var n := |rs| - 1;
      DeleteRequestNone(rs[..n], id);
      assert rs == rs[..n] + [rs[n]];
    }
  }

  // ---- Without

  lemma {:induction false} WithoutNone(nodes: Table)
    ensures Without(nodes, {}) == nodes
  {
    if nodes != [] {
      WithoutNone(nodes[..|nodes| - 1]);
      assert nodes == nodes[..|nodes| - 1] + [nodes[|nodes| - 1]];
    }
  }

  lemma {:induction false} WithoutSplit(a: Table, b: Table, ids: set<string>)
    ensures Without(a + b, ids) == Without(a, ids) + Without(b, ids)
  {
    if b == [] {
      assert a + b == a;
    } else {
      var n := |b| - 1;
      WithoutSplit(a, b[..n], ids);
      assert (a + b)[..|a + b| - 1] == a + b[..n];
    }
  }

  lemma {:induction false} WithoutTwice(nodes: Table, r: set<string>, s: set<string>)
    ensures Without(Without(nodes, r), s) == Without(nodes, r + s)
  {
    if nodes != [] {
      var n := |nodes| - 1;
      var last := if nodes[n].id in r then [] else [nodes[n]];
      WithoutTwice(nodes[..n], r, s);
      WithoutSplit(Without(nodes[..n], r), last, s);
      if last != [] {
        assert last[..0] == [];
      }
    }
  }

  lemma SameCoresAppend(a: Table, b: Table, x: Table, y: Table)
    requires SameCores(a, b) && SameCores(x, y)
    ensures SameCores(a + x, b + y)
  {
    hide Core;
    forall i | 0 <= i < |a + x|
      ensures Core((a + x)[i]) == Core((b + y)[i])
    {
      assert i >= |a| ==> Core(x[i - |a|]) == Core(y[i - |a|]);
    }
  }

  lemma {:induction false} WithoutSameCores(a: Table, b: Table, ids: set<string>)
    requires SameCores(a, b)
    ensures SameCores(Without(a, ids), Without(b, ids))
  {
    if a != [] {
      var n := |a| - 1;
      WithoutSameCores(a[..n], b[..n], ids);
      assert Core(a[n]) == Core(b[n]);
      var x, y := if a[n].id in ids then [] else [a[n]], if b[n].id in ids then [] else [b[n]];
      assert SameCores(x, y);
      hide SameCores;
      SameCoresAppend(Without(a[..n], ids), Without(b[..n], ids), x, y);
    }
  }

  lemma {:induction false} DeleteIsWithout(nodes: Table, id: string)
    requires UniqueIds(nodes)
    requires forall i :: 0 <= i < |nodes| && nodes[i].id == id ==> nodes[i].role == Server
    ensures DeleteServer(nodes, id) == Without(nodes, {id})
  {
    if nodes != [] {
      DeleteIsWithout(nodes[..|nodes| - 1], id);
    }
  }

  lemma SameCoresTrans(a: Table, b: Table, c: Table)
    requires SameCores(a, b) && SameCores(b, c)
    ensures SameCores(a, c)
  {
  }

  // ---- meshes

  /** Rewriting labels and certificates leaves a mesh a mesh. */
  lemma MeshedSameConfig(a: Table, b: Table, snapshot: Table)
    requires Meshed(a, snapshot) && SameCores(a, b)
    requires forall i :: 0 <= i < |a| ==> a[i].peers == b[i].peers && a[i].dns == b[i].dns
    ensures Meshed(b, snapshot)
  {
    ConsistentSameCores(a, b);
    assert Core(a[0]) == Core(b[0]);
    forall i | 1 <= i < |b|
      ensures b[i].peers == [SpokePeer(b[0], b[i].role)] && b[i].dns == SpokeDNS(b[0], b[i].role)
      ensures exists j :: 1 <= j < |snapshot| && Core(b[i]) == Core(snapshot[j])
    {
      assert Core(a[i]) == Core(b[i]) && a[i].peers == b[i].peers && a[i].dns == b[i].dns;
    }
  }

  lemma MeshedSameSnapshot(nodes: Table, a: Table, b: Table)
    requires Meshed(nodes, a) && SameCores(a, b)
    ensures Meshed(nodes, b)
  {
    ConsistentSameCores(a, b);
    ConfigSameCores(a, b);
    assert Core(a[0]) == Core(b[0]);
    forall i | 1 <= i < |nodes|
      ensures exists j :: 1 <= j < |b| && Core(nodes[i]) == Core(b[j])
    {
      var j :| 1 <= j < |a| && Core(nodes[i]) == Core(a[j]);
      assert Core(a[j]) == Core(b[j]);
    }
  }

  lemma ConsistentRemove(nodes: Table, k: nat)
    requires Consistent(nodes) && 1 <= k < |nodes|
    ensures Consistent(nodes[..k] + nodes[k + 1..])
  {
    var rest := nodes[..k] + nodes[k + 1..];
    forall i, j | 0 <= i < j < |rest|
      ensures Apart(rest[i], rest[j])
    {
      assert Apart(nodes[if i < k then i else i + 1], nodes[if j < k then j else j + 1]);
    }
  }

  lemma MeshedRemove(nodes: Table, snapshot: Table, k: nat)
    requires Meshed(nodes, snapshot) && 1 <= k < |nodes|
    ensures Meshed(nodes[..k] + nodes[k + 1..], snapshot)
  {
    ConsistentRemove(nodes, k);
    var rest := nodes[..k] + nodes[k + 1..];
    assert rest[0] == nodes[0];
    forall i | 1 <= i < |rest|
      ensures rest[i].peers == [SpokePeer(rest[0], rest[i].role)] && rest[i].dns == SpokeDNS(rest[0], rest[i].role)
      ensures exists j :: 1 <= j < |snapshot| && Core(rest[i]) == Core(snapshot[j])
    {
      assert rest[i] == nodes[if i < k then i else i + 1];
    }
  }

  // ---- what a creation does

  /**
   * A successful creation: one row is appended with the lowest free address and a free subnet, its
   * certificate is registered, the other rows keep their identity, and the mesh is fresh.
   */
  ghost predicate Grown(before: Table, after: Table, role: Role, f: Fresh) {
    && before != [] && |after| == |before| + 1
    && Consistent(after) && Meshed(after, after)
    && SameCores(before, after[..|before|])
    && after[0].certs == before[0].certs[f.id := f.cert]
    && Newcomer(before, after[|before|], role, f)
  }

  predicate Newcomer(before: Table, n: Node, role: Role, f: Fresh) {
    && before != [] && FreshSpoke(n, before[0], role, f)
    && !IPUsed(before, n.address.ip)
    && (forall k :: WG_PRIVATE_IP_START <= k < n.address.ip.o3 ==> IPUsed(before, WGPrivateIP(k)))
    && (role == Server ==> n.dockerSubnet.Some? && !SubnetUsed(before, n.dockerSubnet.value))
  }

  lemma ReloadGrown(before: Table, t: Table, role: Role, f: Fresh)
    requires Inserted(before, t, role, f) && Consistent(t)
    ensures var w := RefreshAndReload(t, f.id);
            && w.result.Success? && Grown(before, w.nodes, role, f)
            && w.result.value == w.nodes[|before|]
            && w.nodes[|before|].dockerSubnet == t[|before|].dockerSubnet
  {
    var after, k := Refresh(t).value, |before|;
    assert Consistent(after) && SameCores(t, after) && Meshed(after, after) by {
      RefreshMeshes(t);
      RefreshWellDefined(t);
      MeshedSameSnapshot(after, t, after);
    }
    assert GetByID(after, f.id) == Success(after[k]) by {
      DistinctIds(after);
      RefreshFrame(t);
      assert Identity(t[k]) == Identity(after[k]);
      GetByIDAt(after, k);
    }
    assert SameCores(before, after[..k]) by {
      InsertedCores(before, t, after, role, f);
    }
    RefreshedNewcomer(before, t, role, f);
    hide Meshed, Consistent, SameCores, RefreshNode, Inserted, Newcomer;
  }

  lemma RefreshedNewcomer(before: Table, t: Table, role: Role, f: Fresh)
    requires Inserted(before, t, role, f) && Refresh(t).Success?
    ensures var after := Refresh(t).value;
            && |after| == |t| && Newcomer(before, after[|before|], role, f)
            && after[0].certs == before[0].certs[f.id := f.cert]
            && after[|before|].dockerSubnet == t[|before|].dockerSubnet
  {
    RefreshFrame(t);
    hide Refresh;
    var after, k := Refresh(t).value, |before|;
    assert Identity(t[k]) == Identity(after[k]) && Identity(t[0]) == Identity(after[0]);
    assert t[0] == t[..k][0];
    hide IPUsed, SubnetUsed;
  }

  lemma InsertedCores(before: Table, t: Table, after: Table, role: Role, f: Fresh)
    requires Inserted(before, t, role, f) && SameCores(t, after)
    ensures SameCores(before, after[..|before|])
  {
    forall i | 0 <= i < |before|
      ensures Core(before[i]) == Core(after[i])
    {
      assert Core(t[i]) == Core(after[i]);
      assert t[i] == t[..|before|][i];
    }
  }

  /** When a server is created, and with what effect. */
  lemma CreateServerEffect(nodes: Table, forced: Option<string>, f: Fresh)
    requires Consistent(nodes) && Unused(nodes, f)
    ensures var w := CreateServer(nodes, forced, f);
            && (w.result.Success? <==> nodes != [] && NextWGPrivateIP(nodes).Some? && ChooseSubnet(nodes, forced).Success?)
            && (w.result.Failure? ==> w.nodes == nodes)
            && (w.result.Success? ==> Grown(nodes, w.nodes, Server, f) && w.result.value == w.nodes[|nodes|])
            && (w.result.Success? ==> w.result.value.dockerSubnet == Some(ChooseSubnet(nodes, forced).value))
  {
    hide Meshed;
    if InsertServer(nodes, forced, f).Success? {
      InsertServerEffect(nodes, forced, f);
      var t := InsertServer(nodes, forced, f).value;
      assert t[|nodes|].dockerSubnet == Some(ChooseSubnet(nodes, forced).value);
      ReloadGrown(nodes, t, Server, f);
      hide Inserted, Consistent, Grown, Unused, ChooseSubnet, RefreshAndReload, NextWGPrivateIP;
    }
  }

  lemma CreateClientEffect(nodes: Table, f: Fresh)
    requires Consistent(nodes) && Unused(nodes, f)
    ensures var w := CreateClient(nodes, f);
            && (w.result.Success? <==> nodes != [] && NextWGPrivateIP(nodes).Some?)
            && (w.result.Failure? ==> w.nodes == nodes)
            && (w.result.Success? ==> Grown(nodes, w.nodes, Client, f) && w.result.value == w.nodes[|nodes|])
  {
    if InsertClient(nodes, f).Success? {
      InsertClientEffect(nodes, f);
      ReloadGrown(nodes, InsertClient(nodes, f).value, Client, f);
    }
  }

  /** Why a server is not created, in the order of the checks. */
  lemma ServerRefusals(nodes: Table, forced: Option<string>, f: Fresh)
    requires Consistent(nodes) && CreateServer(nodes, forced, f).result.Failure? && Unused(nodes, f)
    ensures var e := CreateServer(nodes, forced, f).result.error;
            if nodes == [] then e == GatewayNotFound
            else if |nodes| >= 254 then e == NoWGPrivateIPs
            else if forced.None? then e == NoDockerSubnets
            else match ParseNet(forced.value, true)
                 case Failure(reason) => e == BadSubnet(reason)
                 case Success(net) => e == SubnetInUse && SubnetUsed(nodes, net)
  {
    CreateServerEffect(nodes, forced, f);
    CurrentIsGateway(nodes);
    FreeIPExactly(nodes);
    hide FreeIPFrom, FreeSubnetFrom, ParseNet, SubnetUsed, RefreshAndReload, SaveNode, FindGateway, FindCurrent, Grown, Unused;
    hide Consistent;
  }

  lemma ClientRefusals(nodes: Table, f: Fresh)
    requires Consistent(nodes) && CreateClient(nodes, f).result.Failure? && Unused(nodes, f)
    ensures CreateClient(nodes, f).result.error == if nodes == [] then GatewayNotFound else NoWGPrivateIPs
    ensures nodes == [] || |nodes| >= 254
  {
    CreateClientEffect(nodes, f);
    CurrentIsGateway(nodes);
    FreeIPExactly(nodes);
    if nodes == [] {
      assert NextWGPrivateIP([]) == Some(WGPrivateIP(1));
    }
    hide FreeIPFrom, SaveNode, FindGateway, FindCurrent, Grown, Unused;
    hide Consistent, RefreshAndReload;
  }

  lemma GrownCounts(before: Table, after: Table, role: Role, f: Fresh)
    requires Grown(before, after, role, f)
    ensures CountRoles(after, DOCKER_ROLES) == CountRoles(before, DOCKER_ROLES) + if role == Client then 0 else 1
  {
    hide Consistent, Meshed;
    var front, n := after[..|before|], after[|before|];
    assert after == front + [n];
    CountAppend(front, n);
    CountSameCores(before, front, DOCKER_ROLES);
  }

  lemma GrownRows(before: Table, after: Table, role: Role, f: Fresh)
    requires Grown(before, after, role, f)
    ensures |after| == |before| + 1 && before != []
    ensures forall i :: 0 <= i < |before| ==> after[i].id == before[i].id && after[i].publicKey == before[i].publicKey
    ensures after[|before|].id == f.id && after[|before|].publicKey == f.publicKey
  {
    hide Consistent, Meshed;
    forall i | 0 <= i < |before|
      ensures after[i].id == before[i].id && after[i].publicKey == before[i].publicKey
    {
      assert Core(before[i]) == Core(after[..|before|][i]);
    }
  }

  lemma SpokesAppend(before: Table, after: Table, id: string)
    requires |after| == |before| + 1 && before != [] && after[|before|].id == id
    requires forall i :: 0 <= i < |before| ==> after[i].id == before[i].id
    ensures SpokeIds(after) == SpokeIds(before) + {id}
  {
    forall x | x in SpokeIds(before)
      ensures x in SpokeIds(after)
    {
      var i :| 1 <= i < |before| && before[i].id == x;
      assert after[i].id == x;
    }
  }

  lemma KnownAppend(before: Table, after: Table, id: string, key: string, ids: set<string>, keys: set<string>)
    requires |after| == |before| + 1 && after[|before|].id == id && after[|before|].publicKey == key
    requires forall i :: 0 <= i < |before| ==> after[i].id == before[i].id && after[i].publicKey == before[i].publicKey
    requires RowsKnown(before, ids, keys)
    ensures RowsKnown(after, ids + {id}, keys + {key})
  {
  }

  // ---- preservation

  lemma UnusedRows(w: World, f: Fresh)
    requires Ledger(w) && f.id !in w.ids && f.publicKey !in w.keys
    ensures Unused(w.db.nodes, f)
    ensures f.id !in SpokeIds(w.db.nodes) && f.id !in RequestIds(w.db.requests) && f.id !in w.gone && f.id !in w.consumed
  {
  }

  lemma LiveFresh(w: World)
    requires w.snapshot == w.db.nodes && w.removed == {}
    ensures Live(w)
  {
    WithoutNone(w.snapshot);
  }

  /** A command that changes nothing keeps the invariant; more names may have been drawn. */
  lemma IdleStep(w: World, c: Command)
    requires Inv(w) && !c.RemovingServer?
    requires var (db, o) := Perform(w.db, c); db == w.db && !o.Created? && !o.Joined?
    ensures Inv(Step(w, c))
  {
    hide Perform, Consistent, Meshed, Live, Reserved;
    var w' := Step(w, c);
    assert w' == w.(ids := w'.ids, keys := w'.keys);
    LiveSame(w, w');
  }

  lemma LiveSame(v: World, w: World)
    requires Live(v) && SameCores(v.db.nodes, w.db.nodes)
    requires w.snapshot == v.snapshot && w.removed == v.removed && w.gone == v.gone
    ensures Live(w)
  {
    SameCoresBack(v.db.nodes, w.db.nodes);
    SameCoresTrans(w.db.nodes, v.db.nodes, Without(v.snapshot, v.removed));
  }

  lemma SameCoresBack(a: Table, b: Table)
    requires SameCores(a, b)
    ensures SameCores(b, a)
  {
  }

  lemma FirstGateway(site: Site, f: Fresh)
    ensures var t := [GatewayRow(site, WGPrivateIP(1), f)];
            && Consistent(t) && Refresh(t).Success?
            && var after := Refresh(t).value;
               && |after| == 1 && Consistent(after) && Meshed(after, after)
               && Identity(after[0]) == Identity(t[0])
               && CreateGateway([], site, f) == Written(after, Success(after[0]))
  {
    var row := GatewayRow(site, WGPrivateIP(1), f);
    var t := [row];
    assert NextWGPrivateIP([]) == Some(WGPrivateIP(1));
    assert [] + [row] == t;
    RefreshMeshes(t);
    RefreshWellDefined(t);
    RefreshFrame(t);
    var after := Refresh(t).value;
    assert Identity(after[0]) == Identity(t[0]);
    MeshedSameSnapshot(after, t, after);
    DistinctIds(after);
    GetByIDAt(after, 0);
  }

  /** The world right after the gateway was created. */
  lemma BootWorld(w: World, after: Table)
    requires |after| == 1 && Consistent(after) && Meshed(after, after) && after[0].role == Gateway && after[0].certs == map[]
    requires w.db == Db(after, []) && w.snapshot == after && w.removed == {} && w.gone == {}
    requires w.consumed <= w.ids && RowsKnown(after, w.ids, w.keys)
    ensures Inv(w)
  {
    hide Consistent, Meshed, RowsKnown;
    assert after == [after[0]];
    FilterOne(after[0], DOCKER_ROLES);
    LiveFresh(w);
    hide Live, CountRoles;
    assert SpokeIds(after) == {};
    assert RequestIds([]) == {};
    assert Ledger(w);
    hide Ledger;
  }

  lemma BootStep(w: World, site: Site, f: Fresh)
    requires Inv(w) && NewlyDrawn(w, StartingGateway(site, f))
    ensures Inv(Step(w, StartingGateway(site, f)))
  {
    var c := StartingGateway(site, f);
    if w.db.nodes == [] {
      hide Consistent, Meshed, Live, Reserved, Refresh;
      FirstGateway(site, f);
      var w' := Step(w, c);
      assert w'.db.requests == [] && w'.snapshot == w'.db.nodes && w'.removed == {};
      hide Perform;
      BootWorld(w', w'.db.nodes);
      hide Inv;
    } else {
      hide Live, Ledger, Reserved, Meshed;
      assert w.db.nodes[0].role == Gateway;
      IdleStep(w, c);
      hide Inv;
    }
  }

  lemma GrownSpokes(before: Table, after: Table, role: Role, f: Fresh)
    requires Grown(before, after, role, f)
    ensures SpokeIds(after) == SpokeIds(before) + {f.id}
  {
    GrownRows(before, after, role, f);
    hide Grown;
    SpokesAppend(before, after, f.id);
  }

  lemma GrownKnown(before: Table, after: Table, role: Role, f: Fresh, ids: set<string>, keys: set<string>)
    requires Grown(before, after, role, f) && RowsKnown(before, ids, keys)
    ensures RowsKnown(after, ids + {f.id}, keys + {f.publicKey})
  {
    GrownRows(before, after, role, f);
    hide Grown;
    KnownAppend(before, after, f.id, f.publicKey, ids, keys);
  }

  lemma DrawnSeparate(w: World, f: Fresh)
    requires Ledger(w) && f.id !in w.ids && f.publicKey !in w.keys
    ensures Separate(SpokeIds(w.db.nodes) + {f.id}, RequestIds(w.db.requests), w.gone, w.consumed)
    ensures Separate(SpokeIds(w.db.nodes), RequestIds(w.db.requests) + {f.id}, w.gone, w.consumed)
  {
    UnusedRows(w, f);
    hide SpokeIds, RequestIds;
    SeparateMoves(SpokeIds(w.db.nodes), RequestIds(w.db.requests), w.gone, w.consumed, f.id);
  }

  lemma GrownLedger(w: World, w': World, role: Role, f: Fresh)
    requires Ledger(w) && f.id !in w.ids && f.publicKey !in w.keys
    requires Grown(w.db.nodes, w'.db.nodes, role, f)
    requires w'.db.requests == w.db.requests && w'.gone == w.gone && w'.consumed == w.consumed
    requires w'.ids == w.ids + {f.id} && w'.keys == w.keys + {f.publicKey}
    ensures Ledger(w')
  {
    hide Grown, RowsKnown, Separate, SpokeIds, RequestIds;
    GrownSpokes(w.db.nodes, w'.db.nodes, role, f);
    GrownKnown(w.db.nodes, w'.db.nodes, role, f, w.ids, w.keys);
    DrawnSeparate(w, f);
    GrownCerts(w.db.nodes, w'.db.nodes, role, f);
  }

  lemma GrownCerts(before: Table, after: Table, role: Role, f: Fresh)
    requires Grown(before, after, role, f)
    ensures before != [] && after != []
    ensures after[0].certs.Keys == before[0].certs.Keys + {f.id}
  {
    hide Consistent, Meshed, SameCores;
  }

  /** A direct creation keeps the invariant when the gates left room for it. */
  lemma GrowStep(w: World, c: Command, role: Role, f: Fresh)
    requires Inv(w) && NewlyDrawn(w, c) && Draws(c) == Some(f) && role != Gateway && !c.RemovingServer?
    requires var (db, o) := Perform(w.db, c);
             o.Created? && db.requests == w.db.requests && Grown(w.db.nodes, db.nodes, role, f)
    requires |w.db.nodes| + |w.db.requests| < 254
    requires role == Server ==> CountRoles(w.db.nodes, DOCKER_ROLES) + CountServerRequests(w.db.requests) < 12
    ensures Inv(Step(w, c))
  {
    hide Perform, Consistent, Meshed, SameCores, Newcomer;
    var w' := Step(w, c);
    GrownCounts(w.db.nodes, w'.db.nodes, role, f);
    LiveFresh(w');
    assert Ledger(w') by {
      hide Live, Pending, Reserved;
      GrownLedger(w, w', role, f);
    }
    hide Live, Ledger;
  }

  lemma RequestIdsAppend(rs: seq<Request>, r: Request)
    ensures RequestIds(rs + [r]) == RequestIds(rs) + {r.id}
  {
    assert (rs + [r])[|rs|] == r;
    forall i | 0 <= i < |rs|
      ensures (rs + [r])[i].id in RequestIds(rs)
    {
      assert (rs + [r])[i] == rs[i];
    }
    forall id | id in RequestIds(rs)
      ensures id in RequestIds(rs + [r])
    {
      var i :| 0 <= i < |rs| && rs[i].id == id;
      assert (rs + [r])[i] == rs[i];
    }
  }

  lemma KnownSame(a: Table, b: Table, ids: set<string>, keys: set<string>)
    requires SameCores(a, b) && RowsKnown(a, ids, keys)
    ensures RowsKnown(b, ids, keys)
  {
    forall i | 0 <= i < |b|
      ensures b[i].id in ids && b[i].publicKey in keys
    {
      assert Core(a[i]) == Core(b[i]);
    }
  }

  lemma KnownMore(nodes: Table, ids: set<string>, keys: set<string>, f: Fresh)
    requires RowsKnown(nodes, ids, keys)
    ensures RowsKnown(nodes, ids + {f.id}, keys + {f.publicKey})
  {
  }

  lemma SpokeIdsSame(a: Table, b: Table)
    requires SameCores(a, b)
    ensures SpokeIds(a) == SpokeIds(b)
  {
    forall i | 0 <= i < |a|
      ensures a[i].id == b[i].id
    {
      assert Core(a[i]) == Core(b[i]);
    }
    forall id | id in SpokeIds(a)
      ensures id in SpokeIds(b)
    {
      var i :| 1 <= i < |a| && a[i].id == id;
      assert b[i].id == id;
    }
    forall id | id in SpokeIds(b)
      ensures id in SpokeIds(a)
    {
      var i :| 1 <= i < |b| && b[i].id == id;
      assert a[i].id == id;
    }
  }

  lemma IssueLedger(w: World, w': World, r: Request, f: Fresh)
    requires Ledger(w) && w.db.nodes != [] && f.id !in w.ids && f.publicKey !in w.keys && r.id == f.id
    requires w'.db == Db(w.db.nodes[0 := AddClientCert(w.db.nodes[0], f)], w.db.requests + [r])
    requires w'.gone == w.gone && w'.consumed == w.consumed
    requires w'.ids == w.ids + {f.id} && w'.keys == w.keys + {f.publicKey}
    ensures Ledger(w')
  {
    hide RowsKnown, Separate, SpokeIds, RequestIds;
    SpokeIdsSame(w.db.nodes, w'.db.nodes);
    RequestIdsAppend(w.db.requests, r);
    DrawnSeparate(w, f);
    KnownSame(w.db.nodes, w'.db.nodes, w.ids, w.keys);
    KnownMore(w'.db.nodes, w.ids, w.keys, f);
  }

  lemma PendingMore(w: World, w': World, r: Request)
    requires Pending(w) && w.db.nodes != [] && w'.db.nodes != []
    requires w'.db.requests == w.db.requests + [r]
    requires r.id !in RequestIds(w.db.requests) && r.role != Gateway
    requires r.dockerSubnet.Some? ==> ParseNet(r.dockerSubnet.value, true).Success?
    ensures Pending(w')
  {
    hide ParseNet;
    var rs := w.db.requests;
    forall i | 0 <= i < |rs|
      ensures rs[i].id != r.id
    {
      assert rs[i].id in RequestIds(rs);
    }
  }

  /** What issuing a request does to the world. */
  lemma IssueWorld(w: World, c: Command, role: Role, subnet: Option<string>, f: Fresh)
    requires Consistent(w.db.nodes) && w.db.nodes != [] && Draws(c) == Some(f) && !c.RemovingServer?
    requires Perform(w.db, c) == IssueRequest(w.db, Some(w.db.nodes[0]), role, subnet, f)
    ensures w.db.nodes[0].wgPublicIP.Some? && Perform(w.db, c).1.Issued?
    ensures var nodes := w.db.nodes;
            var r := Request(f.id, role, subnet, f.cert, f.privateKey, nodes[0].wgPublicIP.value);
            Step(w, c) == w.(
              db := Db(nodes[0 := AddClientCert(nodes[0], f)], w.db.requests + [r]),
              ids := w.ids + {f.id}, keys := w.keys + {f.publicKey})
  {
    var nodes := w.db.nodes;
    SaveGateway(nodes, AddClientCert(nodes[0], f));
    hide Perform, SaveNode;
    assert nodes[0].wgPublicIP.Some?;
    hide Consistent;
  }

  lemma IssueStep(w: World, c: Command, role: Role, subnet: Option<string>, f: Fresh)
    requires Inv(w) && NewlyDrawn(w, c) && Draws(c) == Some(f) && role != Gateway && !c.RemovingServer?
    requires w.db.nodes != [] && Perform(w.db, c) == IssueRequest(w.db, Some(w.db.nodes[0]), role, subnet, f)
    requires subnet.Some? ==> ParseNet(subnet.value, true).Success?
    requires |w.db.nodes| + |w.db.requests| < 254
    requires role == Server ==> CountRoles(w.db.nodes, DOCKER_ROLES) + CountServerRequests(w.db.requests) < 12
    ensures Perform(w.db, c).1.Issued?
    ensures Inv(Step(w, c))
  {
    hide Step, ParseNet, Live, Perform;
    var nodes, rs := w.db.nodes, w.db.requests;
    IssueWorld(w, c, role, subnet, f);
    var after := nodes[0 := AddClientCert(nodes[0], f)];
    CertsKeepMesh(nodes, w.snapshot, nodes[0].certs[f.id := f.cert]);
    hide Meshed, Consistent;
    var r := Request(f.id, role, subnet, f.cert, f.privateKey, nodes[0].wgPublicIP.value);
    var w' := Step(w, c);
    CountSameCores(nodes, after, DOCKER_ROLES);
    RequestSplit(rs, [r]);
    RequestOne(r);
    LiveSame(w, w');
    hide SameCores, CountRoles, CountServerRequests;
    UnusedRows(w, f);
    IssueLedger(w, w', r, f);
    PendingMore(w, w', r);
    hide Ledger, Pending;
  }

  lemma CurrentIsGateway(nodes: Table)
    requires Consistent(nodes)
    ensures nodes == [] ==> FindGateway(nodes).None? && FindCurrent(nodes).None?
    ensures nodes != [] ==> FindGateway(nodes) == FindCurrent(nodes) == Some(nodes[0]) && nodes[0].role == Gateway
  {
  }

  /** The three ways `server new` can end: no change, a direct creation, or a request. */
  lemma ServerNewCases(db: Db, force: bool, subnet: string, f: Fresh)
    ensures var forced := if subnet == "" then None else Some(subnet);
            var r := ServerNew(db, force, subnet, f);
            || (r.0 == db && r.1.Refused?)
            || (SubnetLeft(db) && ClientLeft(db) && force
                && r == FromWritten(db, Registry.CreateServer(db.nodes, forced, f)))
            || (SubnetLeft(db) && ClientLeft(db) && !force
                && (forced.Some? ==> ParseNet(subnet, true).Success?)
                && r == IssueRequest(db, FindGateway(db.nodes), Server, forced, f))
  {
    hide Registry.CreateServer, IssueRequest, FindGateway, SubnetLeft, ClientLeft, ParseNet, SubnetUsed;
  }

  lemma NewServerStep(w: World, force: bool, subnet: string, f: Fresh)
    requires Inv(w) && NewlyDrawn(w, NewServer(force, subnet, f))
    ensures Inv(Step(w, NewServer(force, subnet, f)))
  {
    var c := NewServer(force, subnet, f);
    var (db, o) := Perform(w.db, c);
    var forced := if subnet == "" then None else Some(subnet);
    UnusedRows(w, f);
    ServerNewCases(w.db, force, subnet, f);
    CurrentIsGateway(w.db.nodes);
    hide Step, ServerNew, ParseNet, SaveNode, FindCurrent, FindGateway, Ledger, Live, Meshed;
    if o.Created? {
      CreateServerEffect(w.db.nodes, forced, f);
      hide Registry.CreateServer, Grown, Consistent, NextWGPrivateIP, ChooseSubnet, Unused;
      GrowStep(w, c, Server, f);
    } else if o.Issued? {
      hide Registry.CreateServer, Consistent, Unused;
      IssueStep(w, c, Server, forced, f);
    } else {
      CreateServerEffect(w.db.nodes, forced, f);
      hide Registry.CreateServer, Grown, Consistent, NextWGPrivateIP, ChooseSubnet, Unused;
      IdleStep(w, c);
    }
  }

  lemma NewClientStep(w: World, joinRequest: bool, f: Fresh)
    requires Inv(w) && NewlyDrawn(w, NewClient(joinRequest, f))
    ensures Inv(Step(w, NewClient(joinRequest, f)))
  {
    var c := NewClient(joinRequest, f);
    var (db, o) := Perform(w.db, c);
    UnusedRows(w, f);
    CreateClientEffect(w.db.nodes, f);
    CurrentIsGateway(w.db.nodes);
    hide CreateClient, Consistent, Meshed, Live, Ledger, Pending, Grown, NextWGPrivateIP, SaveNode, Step;
    if o.Created? {
      GrowStep(w, c, Client, f);
    } else if joinRequest && w.db.nodes != [] && ClientLeft(w.db) {
      IssueStep(w, c, Client, None, f);
    } else {
      IdleStep(w, c);
    }
  }

  // ---- joining

  lemma PendingRequest(w: World, r: Request) returns (i: nat)
    requires Pending(w) && r in w.db.requests
    ensures i < |w.db.requests| && w.db.requests[i] == r && r.role != Gateway && w.db.nodes != []
    ensures GetRequest(w.db.requests, r.id) == Some(r)
    ensures r.dockerSubnet.Some? ==> ParseNet(r.dockerSubnet.value, true).Success?
  {
    hide ParseNet;
    var rs := w.db.requests;
    i :| 0 <= i < |rs| && rs[i] == r;
    GetRequestFinds(rs, r.id);
    var stored := GetRequest(rs, r.id).value;
    var j :| 0 <= j < |rs| && rs[j] == stored;
  }

  /** Pigeonhole: whatever is pending still has an address and, if a server, an automatic subnet. */
  lemma RoomForPending(w: World, r: Request)
    requires Consistent(w.db.nodes) && Pending(w) && Reserved(w.db) && r in w.db.requests
    ensures NextWGPrivateIP(w.db.nodes).Some?
    ensures r.role == Server ==> NextDockerSubnet(w.db.nodes).Some?
  {
    var nodes, rs := w.db.nodes, w.db.requests;
    var i := PendingRequest(w, r);
    FreeIPExists(nodes);
    if r.role == Server {
      RequestRemoved(rs, i);
      CountServersOnly(nodes);
      forall k | 0 <= k < |nodes| && nodes[k].role == Gateway
        ensures nodes[k].dockerSubnet.None?
      {
        assert WellFormed(nodes[k]);
      }
      FreeSubnetExists(nodes);
    }
  }

  /** The subnet a request forces, if any, is still free. */
  predicate ForcedSubnetFree(nodes: Table, r: Request) {
    r.role == Server && r.dockerSubnet.Some? ==>
      var net := ParseNet(r.dockerSubnet.value, true);
      net.Success? && !SubnetUsed(nodes, net.value)
  }

  ghost predicate Consumed(db: Db, after: Db, r: Request, f: Fresh, node: Node) {
    exists t ::
      && Grown(db.nodes, t, r.role, f)
      && after == Db(t[0 := DropCert(t[0], r.id)], DeleteRequest(db.requests, r.id))
      && node == t[|db.nodes|]
  }

  lemma SubnetChosen(w: World, r: Request)
    requires Consistent(w.db.nodes) && Pending(w) && Reserved(w.db) && r in w.db.requests && r.role == Server
    ensures ChooseSubnet(w.db.nodes, r.dockerSubnet).Success? <==> ForcedSubnetFree(w.db.nodes, r)
  {
    RoomForPending(w, r);
    var i := PendingRequest(w, r);
    hide ParseNet, NextDockerSubnet, SubnetUsed;
  }

  lemma ForcedOnlyForServers(nodes: Table, r: Request)
    requires r.role == Client
    ensures ForcedSubnetFree(nodes, r)
  {
  }

  lemma CreateForEffect(w: World, r: Request, f: Fresh)
    requires Consistent(w.db.nodes) && Pending(w) && Reserved(w.db) && r in w.db.requests && Unused(w.db.nodes, f)
    ensures var t := CreateFor(w.db.nodes, r, f, None);
            && (t.result.Success? <==> ForcedSubnetFree(w.db.nodes, r))
            && (t.result.Failure? ==> t.nodes == w.db.nodes)
            && (t.result.Success? ==> Grown(w.db.nodes, t.nodes, r.role, f) && t.result.value == t.nodes[|w.db.nodes|])
  {
    hide Consistent, Reserved, Grown, ForcedSubnetFree, ChooseSubnet, CreateFor, CreateServer, CreateClient, NextWGPrivateIP, Unused, NextDockerSubnet, ParseNet;
    var nodes := w.db.nodes;
    var i := PendingRequest(w, r);
    RoomForPending(w, r);
    CreateForIs(nodes, r, f);
    if r.role == Server {
      CreateServerEffect(nodes, r.dockerSubnet, f);
      SubnetChosen(w, r);
    } else {
      CreateClientEffect(nodes, f);
      assert ForcedSubnetFree(nodes, r) by {
        ForcedOnlyForServers(nodes, r);
      }
    }
    hide Pending;
  }

  /** When a failure-free join succeeds, and what it does: one node of the request's role for one request. */
  lemma JoinEffect(w: World, r: Request, f: Fresh)
    requires Inv(w) && NewlyDrawn(w, Joining(r, f))
    ensures var (db, o) := Perform(w.db, Joining(r, f));
            && (o.Joined? <==> r in w.db.requests && ForcedSubnetFree(w.db.nodes, r))
            && (!o.Joined? ==> db == w.db && o.Refused?)
            && (o.Joined? ==> Consumed(w.db, db, r, f, o.node))
  {
    hide Inv, NewlyDrawn, ForcedSubnetFree, Consumed, CreateFor, FinishJoin;
    if r in w.db.requests {
      JoinOfPending(w, r, f);
      hide Perform;
    } else {
      GetRequestFinds(w.db.requests, r.id);
      hide GetRequest;
    }
  }

  lemma FinishEffect(db: Db, r: Request, f: Fresh, t: Table, node: Node)
    requires Grown(db.nodes, t, r.role, f) && node == t[|db.nodes|]
    ensures var (after, o) := FinishJoin(Db(t, db.requests), r, node, None);
            o == Joined(node) && Consumed(db, after, r, f, node)
  {
    hide Meshed;
    assert Consistent(t) && t != [];
    hide Grown;
    CurrentIsGateway(t);
    SaveGateway(t, DropCert(t[0], r.id));
    hide Consistent, SaveNode, FindGateway, FindCurrent, DeleteRequest;
    var after := FinishJoin(Db(t, db.requests), r, node, None).0;
    assert after == Db(t[0 := DropCert(t[0], r.id)], DeleteRequest(db.requests, r.id));
  }

  lemma JoinOfPending(w: World, r: Request, f: Fresh)
    requires Inv(w) && NewlyDrawn(w, Joining(r, f)) && r in w.db.requests
    ensures var (db, o) := Perform(w.db, Joining(r, f));
            && (o.Joined? <==> ForcedSubnetFree(w.db.nodes, r))
            && (!o.Joined? ==> db == w.db && o.Refused?)
            && (o.Joined? ==> Consumed(w.db, db, r, f, o.node))
  {
    hide ForcedSubnetFree, CreateFor, Unused, Consumed, Perform, JoinAttempt, GetRequest, Grown, Reserved, Live, Meshed, Consistent;
    UnusedRows(w, f);
    var i := PendingRequest(w, r);
    CreateForEffect(w, r, f);
    hide Inv, NewlyDrawn;
    JoinUnfolds(w.db, r, f);
    PerformsJoin(w.db, r, f);
    var t := CreateFor(w.db.nodes, r, f, None);
    if t.result.Success? {
      FinishEffect(w.db, r, f, t.nodes, t.result.value);
    }
    hide FinishJoin;
  }

  lemma RemoveRequestIds(rs: seq<Request>, k: nat)
    requires k < |rs| && forall i, j :: 0 <= i < j < |rs| ==> rs[i].id != rs[j].id
    ensures RequestIds(rs[..k] + rs[k + 1..]) == RequestIds(rs) - {rs[k].id}
  {
    var rest := rs[..k] + rs[k + 1..];
    forall i | 0 <= i < |rest|
      ensures rest[i].id in RequestIds(rs) - {rs[k].id}
    {
      assert rest[i] == rs[if i < k then i else i + 1];
    }
    forall i | 0 <= i < |rs| && i != k
      ensures rs[i].id in RequestIds(rest)
    {
      assert rest[if i < k then i else i - 1] == rs[i];
    }
  }

  lemma PendingRest(w: World, w': World, k: nat)
    requires Pending(w) && k < |w.db.requests| && w'.db.nodes != []
    requires w'.db.requests == w.db.requests[..k] + w.db.requests[k + 1..]
    ensures Pending(w')
  {
    hide ParseNet;
    var rs, rest := w.db.requests, w'.db.requests;
    forall i | 0 <= i < |rest|
      ensures rest[i] == rs[if i < k then i else i + 1]
    {
    }
  }

  lemma ConsumedSeparate(w: World, r: Request, spokes: set<string>)
    requires Separate(spokes, RequestIds(w.db.requests), w.gone, w.consumed) && r.id in RequestIds(w.db.requests)
    ensures Separate(spokes, RequestIds(w.db.requests) - {r.id}, w.gone, w.consumed + {r.id})
    ensures r.id !in spokes && r.id !in w.gone
  {
    SeparateMoves(spokes, RequestIds(w.db.requests), w.gone, w.consumed, r.id);
  }

  lemma RequestIdsWithout(w: World, k: nat)
    requires Pending(w) && k < |w.db.requests|
    ensures var rs := w.db.requests;
            rs[k].id in RequestIds(rs) && RequestIds(rs[..k] + rs[k + 1..]) == RequestIds(rs) - {rs[k].id}
  {
    hide ParseNet;
    RemoveRequestIds(w.db.requests, k);
  }

  lemma ConsumeLedger(w: World, w': World, r: Request, f: Fresh, t: Table, k: nat)
    requires Ledger(w) && Pending(w) && f.id !in w.ids && f.publicKey !in w.keys
    requires k < |w.db.requests| && w.db.requests[k] == r
    requires Grown(w.db.nodes, t, r.role, f)
    requires w'.db == Db(t[0 := DropCert(t[0], r.id)], w.db.requests[..k] + w.db.requests[k + 1..])
    requires w'.gone == w.gone && w'.consumed == w.consumed + {r.id}
    requires w'.ids == w.ids + {f.id} && w'.keys == w.keys + {f.publicKey}
    ensures Ledger(w')
  {
    hide ParseNet, Ledger, Pending, RequestIds;
    RequestIdsWithout(w, k);
    GrownNonempty(w.db.nodes, t, r.role, f);
    hide Grown;
    var v := w'.(db := Db(t, w.db.requests), consumed := w.consumed);
    GrownLedger(w, v, r.role, f);
    DropLedger(v, w', r);
  }

  lemma DropLedger(v: World, w': World, r: Request)
    requires Ledger(v) && v.db.nodes != [] && r.id in RequestIds(v.db.requests)
    requires w'.db.nodes == v.db.nodes[0 := DropCert(v.db.nodes[0], r.id)]
    requires RequestIds(w'.db.requests) == RequestIds(v.db.requests) - {r.id}
    requires w' == v.(db := w'.db, consumed := v.consumed + {r.id})
    ensures Ledger(w')
  {
    hide RowsKnown, Separate, SpokeIds, RequestIds;
    SpokeIdsSame(v.db.nodes, w'.db.nodes);
    KnownSame(v.db.nodes, w'.db.nodes, v.ids, v.keys);
    ConsumedSeparate(v, r, SpokeIds(v.db.nodes));
  }

  lemma GrownNonempty(before: Table, after: Table, role: Role, f: Fresh)
    requires Grown(before, after, role, f)
    ensures before != [] && after != [] && |after| == |before| + 1
  {
  }

  lemma RequestRemoved(rs: seq<Request>, k: nat)
    requires k < |rs|
    ensures CountServerRequests(rs) == CountServerRequests(rs[..k] + rs[k + 1..]) + if rs[k].role == Server then 1 else 0
  {
    hide CountServerRequests;
    assert rs == rs[..k] + ([rs[k]] + rs[k + 1..]);
    RequestSplit(rs[..k], [rs[k]] + rs[k + 1..]);
    RequestSplit([rs[k]], rs[k + 1..]);
    RequestSplit(rs[..k], rs[k + 1..]);
    RequestOne(rs[k]);
  }

  /** A join trades one pending request for one node of the same role. */
  lemma ConsumeReserved(db: Db, r: Request, f: Fresh, t: Table, k: nat)
    requires Reserved(db) && Grown(db.nodes, t, r.role, f) && r.role != Gateway
    requires k < |db.requests| && db.requests[k] == r
    ensures Reserved(Db(t[0 := DropCert(t[0], r.id)], db.requests[..k] + db.requests[k + 1..]))
  {
    hide CountRoles, CountServerRequests, Consistent, Meshed;
    var rs, after := db.requests, t[0 := DropCert(t[0], r.id)];
    GrownCounts(db.nodes, t, r.role, f);
    CountSameCores(t, after, DOCKER_ROLES);
    RequestRemoved(rs, k);
    hide SameCores;
  }

  /** Changing only the gateway's certificates leaves a mesh a mesh. */
  lemma CertsKeepMesh(t: Table, snapshot: Table, certs: map<string, string>)
    requires Meshed(t, snapshot)
    ensures var after := t[0 := t[0].(certs := certs)];
            SameCores(t, after) && Consistent(after) && Meshed(after, snapshot)
  {
    var after := t[0 := t[0].(certs := certs)];
    assert SameCores(t, after);
    ConsistentSameCores(t, after);
    assert forall i :: 0 <= i < |t| ==> t[i].peers == after[i].peers && t[i].dns == after[i].dns;
    hide SameCores, Consistent;
    MeshedSameConfig(t, after, snapshot);
  }

  lemma DropCertKeepsMesh(t: Table, id: string)
    requires t != [] && Meshed(t, t)
    ensures var after := t[0 := DropCert(t[0], id)];
            SameCores(t, after) && Consistent(after) && Meshed(after, after)
  {
    CertsKeepMesh(t, t, t[0].certs - {id});
    hide Meshed, SameCores, Consistent;
    MeshedSameSnapshot(t[0 := DropCert(t[0], id)], t, t[0 := DropCert(t[0], id)]);
  }

  lemma ConsumeStep(w: World, r: Request, f: Fresh)
    requires Inv(w) && NewlyDrawn(w, Joining(r, f)) && r in w.db.requests
    requires var (db, o) := Perform(w.db, Joining(r, f)); o.Joined? && Consumed(w.db, db, r, f, o.node)
    ensures Inv(Step(w, Joining(r, f)))
  {
    hide Perform, Live, Ledger, Reserved, ParseNet, Consistent, Meshed;
    var rs, w' := w.db.requests, Step(w, Joining(r, f));
    var t :| Grown(w.db.nodes, t, r.role, f)
             && w'.db == Db(t[0 := DropCert(t[0], r.id)], DeleteRequest(rs, r.id));
    DropCertKeepsMesh(t, r.id);
    hide Grown, SameCores;
    var k := DeleteRequestAt(rs, r);
    hide DeleteRequest;
    assert w'.snapshot == w'.db.nodes && w'.db.requests == rs[..k] + rs[k + 1..];
    ConsumeLedger(w, w', r, f, t, k);
    ConsumeReserved(w.db, r, f, t, k);
    PendingRest(w, w', k);
    LiveFresh(w');
    hide Pending;
  }

  lemma JoinStepKeeps(w: World, token: Request, f: Fresh)
    requires Inv(w) && NewlyDrawn(w, Joining(token, f))
    ensures Inv(Step(w, Joining(token, f)))
  {
    var c := Joining(token, f);
    JoinEffect(w, token, f);
    hide Inv, Perform, Consumed, Step;
    if Perform(w.db, c).1.Joined? {
      ConsumeStep(w, token, f);
    } else {
      IdleStep(w, c);
    }
  }

  // ---- removal and labels

  lemma DistinctIds(nodes: Table)
    requires Consistent(nodes)
    ensures UniqueIds(nodes)
  {
    forall i, j | 0 <= i < j < |nodes|
      ensures nodes[i].id != nodes[j].id
    {
      assert Apart(nodes[i], nodes[j]);
    }
  }

  lemma {:induction false} WithoutRows(nodes: Table, ids: set<string>)
    ensures forall i :: 0 <= i < |Without(nodes, ids)| ==> Without(nodes, ids)[i] in nodes
  {
    if nodes != [] {
      WithoutRows(nodes[..|nodes| - 1], ids);
    }
  }

  /** A live server is a server of the last refresh. */
  lemma LiveServerListed(w: World, k: nat)
    requires Live(w) && k < |w.db.nodes| && w.db.nodes[k].role == Server
    ensures IsServer(w.snapshot, w.db.nodes[k].id)
  {
    var alive := Without(w.snapshot, w.removed);
    WithoutRows(w.snapshot, w.removed);
    assert Core(w.db.nodes[k]) == Core(alive[k]);
    var j :| 0 <= j < |w.snapshot| && w.snapshot[j] == alive[k];
  }

  lemma LiveAfterRemoval(w: World, w': World, k: nat)
    requires Live(w) && Consistent(w.db.nodes) && 1 <= k < |w.db.nodes| && w.db.nodes[k].role == Server
    requires w'.db.nodes == DeleteServer(w.db.nodes, w.db.nodes[k].id) && w'.snapshot == w.snapshot
    requires w'.removed == w.removed + {w.db.nodes[k].id} && w'.gone == w.gone + {w.db.nodes[k].id}
    ensures Live(w')
  {
    var nodes, alive, id := w.db.nodes, Without(w.snapshot, w.removed), w.db.nodes[k].id;
    DistinctIds(nodes);
    hide Consistent;
    LiveServerListed(w, k);
    DeleteIsWithout(nodes, id);
    hide DeleteServer, Without, SameCores, IsServer, Core;
    WithoutSameCores(nodes, alive, {id});
    WithoutTwice(w.snapshot, w.removed, {id});
  }

  lemma RemoveSpokeIds(nodes: Table, k: nat)
    requires Consistent(nodes) && 1 <= k < |nodes|
    ensures SpokeIds(nodes[..k] + nodes[k + 1..]) == SpokeIds(nodes) - {nodes[k].id}
  {
    DistinctIds(nodes);
    hide Consistent;
    var rest := nodes[..k] + nodes[k + 1..];
    forall i | 1 <= i < |rest|
      ensures rest[i].id in SpokeIds(nodes) - {nodes[k].id}
    {
      assert rest[i] == nodes[if i < k then i else i + 1];
    }
    forall i | 1 <= i < |nodes| && i != k
      ensures nodes[i].id in SpokeIds(rest)
    {
      assert rest[if i < k then i else i - 1] == nodes[i];
    }
  }

  lemma RemoveLedger(w: World, w': World, k: nat)
    requires Ledger(w) && Consistent(w.db.nodes) && 1 <= k < |w.db.nodes|
    requires w'.db == w.db.(nodes := w.db.nodes[..k] + w.db.nodes[k + 1..])
    requires w' == w.(db := w'.db, removed := w'.removed, gone := w.gone + {w.db.nodes[k].id})
    ensures Ledger(w')
  {
    var nodes, rest := w.db.nodes, w'.db.nodes;
    RemoveSpokeIds(nodes, k);
    hide Consistent;
    assert nodes[k].id in SpokeIds(nodes);
    SeparateMoves(SpokeIds(nodes), RequestIds(w.db.requests), w.gone, w.consumed, nodes[k].id);
    assert rest[0] == nodes[0];
    forall i | 0 <= i < |rest|
      ensures rest[i].id in w.ids && rest[i].publicKey in w.keys
    {
      assert rest[i] == nodes[if i < k then i else i + 1];
    }
  }

  lemma RemoveCount(nodes: Table, k: nat)
    requires k < |nodes|
    ensures CountRoles(nodes[..k] + nodes[k + 1..], DOCKER_ROLES) <= CountRoles(nodes, DOCKER_ROLES)
  {
    assert nodes == nodes[..k] + ([nodes[k]] + nodes[k + 1..]);
    FilterSplit(nodes[..k], [nodes[k]] + nodes[k + 1..], DOCKER_ROLES);
    FilterSplit([nodes[k]], nodes[k + 1..], DOCKER_ROLES);
    FilterSplit(nodes[..k], nodes[k + 1..], DOCKER_ROLES);
  }

  lemma ServerIsNotHub(nodes: Table, k: nat)
    requires Consistent(nodes) && k < |nodes| && nodes[k].role == Server
    ensures k >= 1
  {
  }

  lemma RemoveServerStep(w: World, id: string)
    requires Inv(w) && IsServer(w.db.nodes, id)
    ensures Inv(Step(w, RemovingServer(id)))
  {
    hide Step, Pending, Reserved, Ledger, Live, Meshed;
    var k :| 0 <= k < |w.db.nodes| && w.db.nodes[k].id == id && w.db.nodes[k].role == Server;
    ServerIsNotHub(w.db.nodes, k);
    hide Inv, IsServer;
    RemoveStepAt(w, k);
  }

  lemma RemoveNothingStep(w: World, id: string)
    requires Inv(w) && !IsServer(w.db.nodes, id)
    ensures Inv(Step(w, RemovingServer(id)))
  {
    hide Inv;
    DeleteNothing(w.db.nodes, id);
    hide DeleteServer, IsServer;
    assert Step(w, RemovingServer(id)) == w;
  }

  lemma RemoveStep(w: World, id: string)
    requires Inv(w)
    ensures Inv(Step(w, RemovingServer(id)))
  {
    hide Inv, Step;
    if IsServer(w.db.nodes, id) {
      RemoveServerStep(w, id);
    } else {
      RemoveNothingStep(w, id);
    }
  }

  lemma RemoveStepAt(w: World, k: nat)
    requires Inv(w) && 1 <= k < |w.db.nodes| && w.db.nodes[k].role == Server
    ensures Inv(Step(w, RemovingServer(w.db.nodes[k].id)))
  {
    hide Ledger, Live, ParseNet, Meshed;
    var nodes, w' := w.db.nodes, Step(w, RemovingServer(w.db.nodes[k].id));
    DistinctIds(nodes);
    DeleteServerAt(nodes, k);
    hide DeleteServer, Consistent;
    assert w'.db.nodes == nodes[..k] + nodes[k + 1..];
    ConsistentRemove(nodes, k);
    MeshedRemove(nodes, w.snapshot, k);
    RemoveCount(nodes, k);
    LiveAfterRemoval(w, w', k);
    RemoveLedger(w, w', k);
    hide CountRoles;
  }

  lemma LabelledRows(nodes: Table, id: string, labels: seq<string>)
    ensures var after := UpdateLabels(nodes, id, labels);
            && SameCores(nodes, after)
            && (nodes != [] ==> after != [] && after[0].certs == nodes[0].certs)
            && forall i :: 0 <= i < |nodes| ==> nodes[i].peers == after[i].peers && nodes[i].dns == after[i].dns
  {
  }

  lemma LabelWorld(w: World, id: string, labels: seq<string>)
    ensures Step(w, SettingLabels(id, labels)) == w.(db := w.db.(nodes := UpdateLabels(w.db.nodes, id, labels)))
  {
    hide UpdateLabels;
  }

  lemma LabelStep(w: World, id: string, labels: seq<string>)
    requires Inv(w)
    ensures Inv(Step(w, SettingLabels(id, labels)))
  {
    hide Live, ParseNet, Ledger, UpdateLabels, Step;
    var nodes, w' := w.db.nodes, Step(w, SettingLabels(id, labels));
    var after := UpdateLabels(nodes, id, labels);
    LabelWorld(w, id, labels);
    LabelledRows(nodes, id, labels);
    LabelsKeepMesh(nodes, w.snapshot, after);
    hide Consistent, Meshed;
    CountSameCores(nodes, after, DOCKER_ROLES);
    LiveSame(w, w');
    assert nodes == [] ==> after == [];
    hide SameCores, CountRoles;
    LabelLedger(w, w');
  }

  lemma LabelLedger(w: World, w': World)
    requires Ledger(w) && w' == w.(db := w'.db) && w'.db.requests == w.db.requests
    requires SameCores(w.db.nodes, w'.db.nodes)
    requires w.db.nodes != [] ==> w'.db.nodes[0].certs == w.db.nodes[0].certs
    ensures Ledger(w')
  {
    hide RowsKnown, Separate, SpokeIds, RequestIds;
    SpokeIdsSame(w.db.nodes, w'.db.nodes);
    KnownSame(w.db.nodes, w'.db.nodes, w.ids, w.keys);
  }

  lemma LabelsKeepMesh(nodes: Table, snapshot: Table, after: Table)
    requires Consistent(nodes) && SameCores(nodes, after)
    requires forall i :: 0 <= i < |nodes| ==> nodes[i].peers == after[i].peers && nodes[i].dns == after[i].dns
    ensures Consistent(after)
    ensures nodes != [] && Meshed(nodes, snapshot) ==> Meshed(after, snapshot)
  {
    ConsistentSameCores(nodes, after);
    hide Meshed, Consistent;
    if nodes != [] && Meshed(nodes, snapshot) {
      MeshedSameConfig(nodes, after, snapshot);
    }
  }

  /** Every command of a run keeps the invariant. */
  lemma StepKeepsInv(w: World, c: Command)
    requires Inv(w) && NewlyDrawn(w, c)
    ensures Inv(Step(w, c))
  {
    hide Inv, Step;
    match c
    case StartingGateway(site, f) => BootStep(w, site, f);
    case NewServer(force, subnet, f) => NewServerStep(w, force, subnet, f);
    case NewClient(joinRequest, f) => NewClientStep(w, joinRequest, f);
    case Joining(token, f) => JoinStepKeeps(w, token, f);
    case RemovingServer(id) => RemoveStep(w, id);
    case SettingLabels(id, labels) => LabelStep(w, id, labels);
  }

  /** So does every run of freshly drawn commands. */
  lemma {:induction false} RunKeepsInv(w: World, cs: seq<Command>)
    requires Inv(w) && FreshRun(w, cs)
    ensures Inv(Exec(w, cs))
    decreases |cs|
  {
    hide Inv, Step, NewlyDrawn;
    if cs != [] {
      StepKeepsInv(w, cs[0]);
      RunKeepsInv(Step(w, cs[0]), cs[1..]);
    }
  }
}
