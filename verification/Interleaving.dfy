/**
 * Concurrent handlers at the granularity of database transactions. Creating a server or a client is one
 * transaction that takes the writer lock first; creating the gateway is two reads, the check and the pick of its
 * address, and only then a transaction; a handler may save a gateway row it loaded earlier.
 */
module Interleaving {
  import opened Common
  import opened Addresses
  import opened Registry
  import opened Runs

  /**
   * Committed rows, the gateway creations that have passed their check, the addresses picked by those that
   * have not committed yet, the gateway rows handlers hold in memory, and the names drawn so far.
   */
  datatype Shared = Shared(
    nodes: Table,
    checked: set<nat>,
    picks: map<nat, IPv4>,
    copies: map<nat, Node>,
    ids: set<string>,
    keys: set<string>)

  const IDLE := Shared([], {}, map[], map[], {}, {})

  datatype Action =
    | CheckGateway(t: nat)
    | PickAddress(t: nat)
    | CommitGateway(t: nat, site: Site, f: Fresh)
    | AbandonGateway(t: nat)
    | CommitServer(forced: Option<string>, f: Fresh)
    | CommitClient(f: Fresh)
    | CommitRefresh
    | CommitRemoval(id: string)
    | CommitLabels(id: string, labels: seq<string>)
    | LoadGatewayRow(t: nat)
    | SaveGatewayCopy(t: nat, certs: map<string, string>)

  function Drawn(a: Action): Option<Fresh> {
    match a
    case CommitGateway(_, _, f) => Some(f)
    case CommitServer(_, f) => Some(f)
    case CommitClient(f) => Some(f)
    case _ => None
  }

  /** The committed rows after a transaction; one that fails rolls back. */
  function Rows(s: Shared, a: Action): Table {
    match a
    case CommitGateway(t, site, f) => if t in s.picks then s.nodes + [GatewayRow(site, s.picks[t], f)] else s.nodes
    case CommitServer(forced, f) =>
      (match InsertServer(s.nodes, forced, f) case Success(n) => n case Failure(_) => s.nodes)
    case CommitClient(f) =>
      (match InsertClient(s.nodes, f) case Success(n) => n case Failure(_) => s.nodes)
    case CommitRefresh =>
      (match Refresh(s.nodes) case Success(n) => n case Failure(_) => s.nodes)
    case CommitRemoval(id) => DeleteServer(s.nodes, id)
    case CommitLabels(id, labels) => UpdateLabels(s.nodes, id, labels)
    case SaveGatewayCopy(t, certs) => if t in s.copies then SaveNode(s.nodes, s.copies[t].(certs := certs)) else s.nodes
    case _ => s.nodes
  }

  function Apply(s: Shared, a: Action): Shared {
    Shared(
      Rows(s, a),
      match a
      case CheckGateway(t) => if FindGateway(s.nodes).None? then s.checked + {t} else s.checked
      case PickAddress(t) => s.checked - {t}
      case AbandonGateway(t) => s.checked - {t}
      case _ => s.checked,
      match a
      case PickAddress(t) =>
        if t in s.checked && NextWGPrivateIP(s.nodes).Some?
        then s.picks[t := NextWGPrivateIP(s.nodes).value] else s.picks
      case CommitGateway(t, _, _) => s.picks - {t}
      case AbandonGateway(t) => s.picks - {t}
      case _ => s.picks,
      match a
      case LoadGatewayRow(t) => if FindGateway(s.nodes).Some? then s.copies[t := FindGateway(s.nodes).value] else s.copies
      case _ => s.copies,
      if Drawn(a).Some? then s.ids + {Drawn(a).value.id} else s.ids,
      if Drawn(a).Some? then s.keys + {Drawn(a).value.publicKey} else s.keys)
  }

  function Interleave(s: Shared, acts: seq<Action>): Shared
    decreases |acts|
  {
    if acts == [] then s else Interleave(Apply(s, acts[0]), acts[1..])
  }

  /** UUIDs and keys are never drawn twice; nothing else restricts what runs when. */
  predicate Named(s: Shared, a: Action) {
    Drawn(a).Some? ==> Drawn(a).value.id !in s.ids && Drawn(a).value.publicKey !in s.keys
  }

  predicate NamedRun(s: Shared, acts: seq<Action>)
    decreases |acts|
  {
    acts == [] || (Named(s, acts[0]) && NamedRun(Apply(s, acts[0]), acts[1..]))
  }

  /**
   * A gateway creation that commits finds the table as empty as when it checked: the guard the source has
   * outside its transaction.
   */
  predicate Timely(s: Shared, a: Action) {
    a.CommitGateway? && a.t in s.picks ==> s.nodes == []
  }

  predicate TimelyRun(s: Shared, acts: seq<Action>)
    decreases |acts|
  {
    acts == [] || (Timely(s, acts[0]) && TimelyRun(Apply(s, acts[0]), acts[1..]))
  }

  ghost predicate Copies(s: Shared) {
    forall t :: t in s.copies ==> s.nodes != [] && Core(s.copies[t]) == Core(s.nodes[0])
  }

  /** What was picked on an empty table is 10.0.0.1; later picks must not be committed. */
  ghost predicate Picks(s: Shared) {
    s.nodes == [] ==> forall t :: t in s.picks ==> s.picks[t] == WGPrivateIP(WG_PRIVATE_IP_START)
  }

  ghost predicate Safe(s: Shared) {
    Consistent(s.nodes) && Copies(s) && Picks(s) && RowsKnown(s.nodes, s.ids, s.keys)
  }

  lemma KnownUnused(s: Shared, f: Fresh)
    requires RowsKnown(s.nodes, s.ids, s.keys) && f.id !in s.ids && f.publicKey !in s.keys
    ensures Unused(s.nodes, f)
  {
  }

  /** What any transaction may do to the rows without breaking safety. */
  predicate Extended(before: Table, after: Table, f: Fresh) {
    && before != [] && |after| == |before| + 1 && SameCores(before, after[..|before|])
    && after[|before|].id == f.id && after[|before|].publicKey == f.publicKey
  }

  lemma ExtendedSafe(s: Shared, s': Shared, f: Fresh)
    requires Safe(s) && Consistent(s'.nodes) && Extended(s.nodes, s'.nodes, f)
    requires s' == s.(nodes := s'.nodes, ids := s.ids + {f.id}, keys := s.keys + {f.publicKey})
    ensures Safe(s')
  {
    hide Consistent;
    var n := |s.nodes|;
    assert Core(s'.nodes[..n][0]) == Core(s.nodes[0]);
    KnownSame(s.nodes, s'.nodes[..n], s.ids, s.keys);
    assert forall i :: 0 <= i < n ==> s'.nodes[i] == s'.nodes[..n][i];
  }

  lemma SameCoresSafe(s: Shared, s': Shared)
    requires Safe(s) && SameCores(s.nodes, s'.nodes) && s' == s.(nodes := s'.nodes)
    ensures Safe(s')
  {
    ConsistentSameCores(s.nodes, s'.nodes);
    KnownSame(s.nodes, s'.nodes, s.ids, s.keys);
    hide Consistent, RowsKnown;
    if s.nodes != [] {
      assert Core(s.nodes[0]) == Core(s'.nodes[0]);
    }
  }

  lemma InsertedExtends(before: Table, after: Table, role: Role, f: Fresh)
    requires Inserted(before, after, role, f)
    ensures Extended(before, after, f)
  {
    hide IPUsed, SubnetUsed;
    forall i | 0 <= i < |before|
      ensures Core(before[i]) == Core(after[i])
    {
      assert after[i] == after[..|before|][i];
    }
  }

  /** The rows a transaction leaves when it does not take effect. */
  lemma UnchangedSafe(s: Shared, a: Action)
    requires Safe(s) && Rows(s, a) == s.nodes && !a.CheckGateway? && !a.PickAddress? && !a.CommitGateway? && !a.AbandonGateway? && !a.LoadGatewayRow?
    ensures Safe(Apply(s, a))
  {
    hide Consistent, Rows;
  }

  lemma ServerCommit(s: Shared, forced: Option<string>, f: Fresh)
    requires Safe(s) && Named(s, CommitServer(forced, f))
    ensures Safe(Apply(s, CommitServer(forced, f)))
  {
    var a := CommitServer(forced, f);
    KnownUnused(s, f);
    if InsertServer(s.nodes, forced, f).Success? {
      InsertServerEffect(s.nodes, forced, f);
      hide Consistent, Unused, Inserted, Copies, Picks;
      InsertedExtends(s.nodes, InsertServer(s.nodes, forced, f).value, Server, f);
      hide InsertServer;
      ExtendedSafe(s, Apply(s, a), f);
    } else {
      hide Consistent, Unused, InsertServer, Copies, Picks, Safe;
      UnchangedSafe(s, a);
    }
  }

  lemma ClientCommit(s: Shared, f: Fresh)
    requires Safe(s) && Named(s, CommitClient(f))
    ensures Safe(Apply(s, CommitClient(f)))
  {
    var a := CommitClient(f);
    KnownUnused(s, f);
    if InsertClient(s.nodes, f).Success? {
      InsertClientEffect(s.nodes, f);
      hide Consistent, Unused, Inserted, Copies, Picks;
      InsertedExtends(s.nodes, InsertClient(s.nodes, f).value, Client, f);
      hide InsertClient;
      ExtendedSafe(s, Apply(s, a), f);
    } else {
      hide Consistent, Unused, InsertClient, Copies, Picks, Safe;
      UnchangedSafe(s, a);
    }
  }

  lemma GatewayCommit(s: Shared, t: nat, site: Site, f: Fresh)
    requires Safe(s) && Named(s, CommitGateway(t, site, f)) && Timely(s, CommitGateway(t, site, f))
    ensures Safe(Apply(s, CommitGateway(t, site, f)))
  {
    if t in s.picks {
      assert s.nodes == [];
      FirstGateway(site, f);
      assert [] + [GatewayRow(site, s.picks[t], f)] == [GatewayRow(site, WGPrivateIP(1), f)];
      hide Consistent;
    } else {
      hide Consistent;
    }
  }

  lemma RemovalCommit(s: Shared, id: string)
    requires Safe(s)
    ensures Safe(Apply(s, CommitRemoval(id)))
  {
    hide Apply;
    assert Apply(s, CommitRemoval(id)) == s.(nodes := DeleteServer(s.nodes, id)) by {
      RemovalApplies(s, id);
    }
    if IsServer(s.nodes, id) {
      var k :| 0 <= k < |s.nodes| && s.nodes[k].id == id && s.nodes[k].role == Server;
      ServerIsNotHub(s.nodes, k);
      DistinctIds(s.nodes);
      DeleteServerAt(s.nodes, k);
      ConsistentRemove(s.nodes, k);
      hide Consistent, DeleteServer, IsServer;
      RemovedRowsKnown(s, k);
    } else {
      DeleteNothing(s.nodes, id);
      hide Consistent, DeleteServer, IsServer;
    }
  }

  lemma RemovalApplies(s: Shared, id: string)
    ensures Apply(s, CommitRemoval(id)) == s.(nodes := DeleteServer(s.nodes, id))
  {
    hide DeleteServer;
  }

  lemma RemovedRowsKnown(s: Shared, k: nat)
    requires RowsKnown(s.nodes, s.ids, s.keys) && 1 <= k < |s.nodes|
    ensures var rest := s.nodes[..k] + s.nodes[k + 1..];
            RowsKnown(rest, s.ids, s.keys) && rest != [] && rest[0] == s.nodes[0]
  {
    var rest := s.nodes[..k] + s.nodes[k + 1..];
    forall i | 0 <= i < |rest|
      ensures rest[i].id in s.ids && rest[i].publicKey in s.keys
    {
      assert rest[i] == s.nodes[if i < k then i else i + 1];
    }
  }

  lemma CopyCommit(s: Shared, t: nat, certs: map<string, string>)
    requires Safe(s)
    ensures Safe(Apply(s, SaveGatewayCopy(t, certs)))
  {
    if t in s.copies {
      var row := s.copies[t].(certs := certs);
      assert Core(row) == Core(s.copies[t]) == Core(s.nodes[0]);
      SaveGateway(s.nodes, row);
      hide Consistent, SaveNode;
      var after := s.nodes[0 := row];
      assert SameCores(s.nodes, after);
      assert Apply(s, SaveGatewayCopy(t, certs)) == s.(nodes := after);
      hide Apply, Safe;
      SameCoresSafe(s, s.(nodes := after));
    } else {
      hide Consistent;
      UnchangedSafe(s, SaveGatewayCopy(t, certs));
    }
  }

  lemma RefreshCommit(s: Shared)
    requires Safe(s)
    ensures Safe(Apply(s, CommitRefresh))
  {
    if s.nodes == [] {
      UnchangedSafe(s, CommitRefresh);
    } else {
      RefreshWellDefined(s.nodes);
      hide Consistent, Refresh;
      assert Apply(s, CommitRefresh) == s.(nodes := Refresh(s.nodes).value);
      hide Apply;
      SameCoresSafe(s, s.(nodes := Refresh(s.nodes).value));
      hide Safe;
    }
  }

  lemma CreationAndCopySafe(s: Shared, a: Action)
    requires Safe(s)
    requires a.CheckGateway? || a.PickAddress? || a.AbandonGateway? || a.LoadGatewayRow?
    ensures Safe(Apply(s, a))
  {
    CurrentIsGateway(s.nodes);
    if s.nodes == [] {
      assert NextWGPrivateIP([]) == Some(WGPrivateIP(1));
    }
    hide Consistent, FindGateway, NextWGPrivateIP;
  }

  lemma LabelCommit(s: Shared, id: string, labels: seq<string>)
    requires Safe(s)
    ensures Safe(Apply(s, CommitLabels(id, labels)))
  {
    var after := UpdateLabels(s.nodes, id, labels);
    assert SameCores(s.nodes, after);
    assert Apply(s, CommitLabels(id, labels)) == s.(nodes := after);
    hide Apply, Consistent, UpdateLabels;
    SameCoresSafe(s, s.(nodes := after));
    hide Safe;
  }

  lemma ActionKeepsSafe(s: Shared, a: Action)
    requires Safe(s) && Named(s, a) && Timely(s, a)
    ensures Safe(Apply(s, a))
  {
    hide Safe, Apply;
    match a
    case CommitGateway(t, site, f) => GatewayCommit(s, t, site, f);
    case CommitServer(forced, f) => ServerCommit(s, forced, f);
    case CommitClient(f) => ClientCommit(s, f);
    case CommitRefresh => RefreshCommit(s);
    case CommitRemoval(id) => RemovalCommit(s, id);
    case CommitLabels(id, labels) => LabelCommit(s, id, labels);
    case SaveGatewayCopy(t, certs) => CopyCommit(s, t, certs);
    case _ => CreationAndCopySafe(s, a);
  }

  /** Every interleaving in which gateway creations commit timely keeps the table consistent. */
  lemma {:induction false} InterleavingKeepsSafe(s: Shared, acts: seq<Action>)
    requires Safe(s) && NamedRun(s, acts) && TimelyRun(s, acts)
    ensures Safe(Interleave(s, acts))
    decreases |acts|
  {
    hide Safe, Apply, Named, Timely;
    if acts != [] {
      ActionKeepsSafe(s, acts[0]);
      InterleavingKeepsSafe(Apply(s, acts[0]), acts[1..]);
    }
  }

  /**
   * No two nodes print the same address, no two servers the same docker subnet, and the only gateway is the
   * first row, at 10.0.0.1.
   */
  ghost predicate WellAllocated(nodes: Table) {
    && (forall i, j :: 0 <= i < j < |nodes| ==> PrintIPv4(nodes[i].address.ip) != PrintIPv4(nodes[j].address.ip))
    && (forall i, j :: 0 <= i < j < |nodes| && nodes[i].dockerSubnet.Some? && nodes[j].dockerSubnet.Some?
          ==> PrintNet(nodes[i].dockerSubnet.value) != PrintNet(nodes[j].dockerSubnet.value))
    && (nodes != [] ==> nodes[0].role == Gateway && nodes[0].address.ip == IPv4(10, 0, 0, 1))
    && (forall i :: 1 <= i < |nodes| ==> nodes[i].role != Gateway)
  }

  lemma ConsistentAllocates(nodes: Table)
    requires Consistent(nodes)
    ensures WellAllocated(nodes)
  {
    forall i, j | 0 <= i < j < |nodes|
      ensures PrintIPv4(nodes[i].address.ip) != PrintIPv4(nodes[j].address.ip)
      ensures nodes[i].dockerSubnet.Some? && nodes[j].dockerSubnet.Some? ==>
                PrintNet(nodes[i].dockerSubnet.value) != PrintNet(nodes[j].dockerSubnet.value)
    {
      assert Apart(nodes[i], nodes[j]);
      PrintIPv4Injective(nodes[i].address.ip, nodes[j].address.ip);
      if nodes[i].dockerSubnet.Some? && nodes[j].dockerSubnet.Some? {
        PrintNetInjective(nodes[i].dockerSubnet.value, nodes[j].dockerSubnet.value);
      }
    }
    hide PrintIPv4, PrintNet;
  }

  // ---- a late commit is never repaired

  /** Two gateways. */
  ghost predicate Clash(nodes: Table) {
    exists i, j :: 0 <= i < |nodes| && 0 <= j < |nodes| && nodes[i].role == nodes[j].role == Gateway && nodes[i].id != nodes[j].id
  }

  /** The row is in the table, up to configuration, labels and certificates. */
  predicate Present(nodes: Table, n: Node) {
    exists k :: 0 <= k < |nodes| && Core(nodes[k]) == Core(n)
  }

  ghost predicate CopiesPresent(s: Shared) {
    forall t :: t in s.copies ==> s.copies[t].role == Gateway && Present(s.nodes, s.copies[t])
  }

  /** What stays true of a table that has lost its consistency. */
  ghost predicate Orderly(s: Shared) {
    UniqueIds(s.nodes) && CopiesPresent(s) && RowsKnown(s.nodes, s.ids, s.keys)
  }

  /** No transaction removes a gateway or changes its core. */
  ghost predicate HubsStay(before: Table, after: Table) {
    forall i :: 0 <= i < |before| && before[i].role == Gateway ==> Present(after, before[i])
  }

  lemma HubStays(before: Table, after: Table, i: nat) returns (k: nat)
    requires HubsStay(before, after) && i < |before| && before[i].role == Gateway
    ensures k < |after| && after[k].role == Gateway && after[k].id == before[i].id
  {
    assert Present(after, before[i]);
    k :| 0 <= k < |after| && Core(after[k]) == Core(before[i]);
  }

  lemma ClashStays(before: Table, after: Table)
    requires HubsStay(before, after) && Clash(before)
    ensures Clash(after)
  {
    hide HubsStay;
    var i, j :| 0 <= i < |before| && 0 <= j < |before| && before[i].role == before[j].role == Gateway && before[i].id != before[j].id;
    var k := HubStays(before, after, i);
    var l := HubStays(before, after, j);
  }

  lemma PresentStays(before: Table, after: Table, n: Node)
    requires HubsStay(before, after) && Present(before, n) && n.role == Gateway
    ensures Present(after, n)
  {
    var k :| 0 <= k < |before| && Core(before[k]) == Core(n);
    assert before[k].role == Gateway;
    assert Present(after, before[k]);
    var l :| 0 <= l < |after| && Core(after[l]) == Core(before[k]);
  }

  lemma SameCoresStay(before: Table, after: Table, ids: set<string>, keys: set<string>)
    requires SameCores(before, after) && UniqueIds(before) && RowsKnown(before, ids, keys)
    ensures HubsStay(before, after) && UniqueIds(after) && RowsKnown(after, ids, keys)
  {
    KnownSame(before, after, ids, keys);
    hide RowsKnown;
    forall i | 0 <= i < |before|
      ensures Present(after, before[i]) && after[i].id == before[i].id
    {
      assert Core(before[i]) == Core(after[i]);
    }
  }

  lemma AppendStays(before: Table, n: Node, f: Fresh, ids: set<string>, keys: set<string>)
    requires UniqueIds(before) && RowsKnown(before, ids, keys) && f.id !in ids && n.id == f.id && n.publicKey == f.publicKey
    ensures HubsStay(before, before + [n]) && UniqueIds(before + [n]) && RowsKnown(before + [n], ids + {f.id}, keys + {f.publicKey})
  {
    var after := before + [n];
    forall i | 0 <= i < |before|
      ensures Present(after, before[i])
    {
      assert Core(after[i]) == Core(before[i]);
    }
  }

  lemma HubsStayTrans(a: Table, b: Table, c: Table)
    requires HubsStay(a, b) && HubsStay(b, c)
    ensures HubsStay(a, c)
  {
    forall i | 0 <= i < |a| && a[i].role == Gateway
      ensures Present(c, a[i])
    {
      assert Present(b, a[i]);
      PresentStays(b, c, a[i]);
    }
  }

  /** Saving a row whose core is in the table changes no core. */
  lemma SavePresent(nodes: Table, n: Node)
    requires UniqueIds(nodes) && Present(nodes, n)
    ensures SameCores(nodes, SaveNode(nodes, n))
  {
    var k :| 0 <= k < |nodes| && Core(nodes[k]) == Core(n);
    var after := SaveNode(nodes, n);
    forall i | 0 <= i < |nodes|
      ensures Core(nodes[i]) == Core(after[i])
    {
      assert nodes[i].id == n.id ==> i == k;
    }
  }

  lemma {:induction false} FoundPresent(nodes: Table)
    requires FindGateway(nodes).Some?
    ensures FindGateway(nodes).value.role == Gateway && Present(nodes, FindGateway(nodes).value)
  {
    if nodes[0].role != Gateway {
      FoundPresent(nodes[1..]);
      var gw := FindGateway(nodes).value;
      var k :| 0 <= k < |nodes[1..]| && Core(nodes[1..][k]) == Core(gw);
      assert Core(nodes[k + 1]) == Core(gw);
    } else {
      assert Core(nodes[0]) == Core(nodes[0]);
    }
  }

  /** What an insertion of a spoke is on any table: the gateway row saved with one more certificate, and a new row. */
  lemma InsertionShape(nodes: Table, a: Action)
    requires a.CommitServer? || a.CommitClient?
    ensures var r := if a.CommitServer? then InsertServer(nodes, a.forced, a.f) else InsertClient(nodes, a.f);
            r.Success? ==>
              && FindGateway(nodes).Some?
              && exists n {:trigger SaveNode(nodes, AddClientCert(FindGateway(nodes).value, a.f)) + [n]} ::
                   && r.value == SaveNode(nodes, AddClientCert(FindGateway(nodes).value, a.f)) + [n]
                   && n.id == a.f.id && n.publicKey == a.f.publicKey
  {
    hide NextWGPrivateIP, ChooseSubnet, SaveNode, FindGateway;
  }

  /** The rows a transaction leaves keep every gateway, in every state with unique identifiers. */
  ghost predicate RowsStay(s: Shared, a: Action) {
    var s' := Apply(s, a);
    HubsStay(s.nodes, s'.nodes) && UniqueIds(s'.nodes) && RowsKnown(s'.nodes, s'.ids, s'.keys)
  }

  lemma SpokeStays(s: Shared, a: Action)
    requires Orderly(s) && Named(s, a) && (a.CommitServer? || a.CommitClient?)
    ensures RowsStay(s, a)
  {
    var after, f := Apply(s, a).nodes, a.f;
    InsertionShape(s.nodes, a);
    hide InsertServer, InsertClient, SaveNode;
    if after == s.nodes {
      assert SameCores(s.nodes, after);
      SameCoresStay(s.nodes, after, s.ids, s.keys);
      KnownMore(after, s.ids, s.keys, f);
    } else {
      var saved := SaveNode(s.nodes, AddClientCert(FindGateway(s.nodes).value, f));
      FoundPresent(s.nodes);
      hide FindGateway;
      CertPresent(s.nodes, FindGateway(s.nodes).value, f);
      SavePresent(s.nodes, AddClientCert(FindGateway(s.nodes).value, f));
      SameCoresStay(s.nodes, saved, s.ids, s.keys);
      var n :| after == saved + [n] && n.id == f.id && n.publicKey == f.publicKey;
      hide RowsKnown, SameCores;
      AppendStays(saved, n, f, s.ids, s.keys);
      HubsStayTrans(s.nodes, saved, after);
    }
  }

  lemma CertPresent(nodes: Table, gw: Node, f: Fresh)
    requires Present(nodes, gw)
    ensures Present(nodes, AddClientCert(gw, f))
  {
    assert Core(AddClientCert(gw, f)) == Core(gw);
  }

  lemma {:induction false} DeleteKeepsHubs(nodes: Table, id: string)
    ensures HubsStay(nodes, DeleteServer(nodes, id))
    ensures forall i :: 0 <= i < |DeleteServer(nodes, id)| ==> DeleteServer(nodes, id)[i] in nodes
    ensures UniqueIds(nodes) ==> UniqueIds(DeleteServer(nodes, id))
  {
    if nodes != [] {
      var n, front := |nodes| - 1, nodes[..|nodes| - 1];
      DeleteKeepsHubs(front, id);
      var rest, after := DeleteServer(front, id), DeleteServer(nodes, id);
      forall i | 0 <= i < |nodes| && nodes[i].role == Gateway
        ensures Present(after, nodes[i])
      {
        if i < n {
          assert Present(rest, front[i]);
          var k :| 0 <= k < |rest| && Core(rest[k]) == Core(front[i]);
          assert Core(after[k]) == Core(nodes[i]);
        } else {
          assert Core(after[|rest|]) == Core(nodes[i]);
        }
      }
      if UniqueIds(nodes) {
        forall k | 0 <= k < |rest|
          ensures rest[k].id != nodes[n].id
        {
          assert rest[k] in front;
        }
      }
    }
  }

  lemma RemovalStays(s: Shared, id: string)
    requires Orderly(s)
    ensures RowsStay(s, CommitRemoval(id))
  {
    RemovalApplies(s, id);
    DeleteKeepsHubs(s.nodes, id);
    hide Apply, DeleteServer;
    var after := DeleteServer(s.nodes, id);
    forall i | 0 <= i < |after|
      ensures after[i].id in s.ids && after[i].publicKey in s.keys
    {
      assert after[i] in s.nodes;
    }
  }

  lemma RefreshedCores(nodes: Table)
    requires Refresh(nodes).Success?
    ensures SameCores(nodes, Refresh(nodes).value)
  {
    RefreshFrame(nodes);
    hide Refresh;
    var after := Refresh(nodes).value;
    forall i | 0 <= i < |nodes|
      ensures Core(nodes[i]) == Core(after[i])
    {
      assert Identity(after[i]) == Identity(nodes[i]);
    }
  }

  lemma RefreshStays(s: Shared)
    requires Orderly(s)
    ensures RowsStay(s, CommitRefresh)
  {
    hide Refresh, RowsKnown, UniqueIds, Core, HubsStay;
    var after := Rows(s, CommitRefresh);
    if Refresh(s.nodes).Success? {
      RefreshedCores(s.nodes);
    } else {
      assert SameCores(s.nodes, s.nodes);
    }
    SameCoresStay(s.nodes, after, s.ids, s.keys);
  }

  lemma SameCoresSelf(nodes: Table)
    ensures SameCores(nodes, nodes)
  {
  }

  lemma CopyStays(s: Shared, t: nat, certs: map<string, string>)
    requires Orderly(s)
    ensures RowsStay(s, SaveGatewayCopy(t, certs))
  {
    hide SaveNode, RowsKnown, SameCores, UniqueIds, HubsStay;
    assert SameCores(s.nodes, s.nodes) by {
      SameCoresSelf(s.nodes);
    }
    SameCoresStay(s.nodes, s.nodes, s.ids, s.keys);
    if t in s.copies {
      var row := s.copies[t].(certs := certs);
      assert Core(row) == Core(s.copies[t]);
      assert Present(s.nodes, s.copies[t]);
      assert Present(s.nodes, row);
      hide Core, Present;
      SavePresent(s.nodes, row);
      SameCoresStay(s.nodes, SaveNode(s.nodes, row), s.ids, s.keys);
    }
  }

  lemma OtherStays(s: Shared, a: Action)
    requires Orderly(s) && Named(s, a)
    requires a.CommitGateway? || a.CommitLabels? || a.CheckGateway? || a.PickAddress? || a.AbandonGateway? || a.LoadGatewayRow?
    ensures RowsStay(s, a)
  {
    if a.CommitGateway? {
      if a.t in s.picks {
        AppendStays(s.nodes, GatewayRow(a.site, s.picks[a.t], a.f), a.f, s.ids, s.keys);
      } else {
        SameCoresStay(s.nodes, s.nodes, s.ids, s.keys);
        KnownMore(s.nodes, s.ids, s.keys, a.f);
      }
    } else {
      var after := Rows(s, a);
      assert SameCores(s.nodes, after);
      SameCoresStay(s.nodes, after, s.ids, s.keys);
    }
    hide RowsKnown, SameCores, FindGateway, NextWGPrivateIP, UpdateLabels;
  }

  /** Every action keeps identifiers unique, every copy backed by a row, and every gateway. */
  lemma ActionKeepsOrder(s: Shared, a: Action)
    requires Orderly(s) && Named(s, a)
    ensures Orderly(Apply(s, a)) && HubsStay(s.nodes, Apply(s, a).nodes)
  {
    hide Orderly, Apply, RowsStay;
    match a {
      case CommitServer(_, _) => SpokeStays(s, a);
      case CommitClient(_) => SpokeStays(s, a);
      case CommitRemoval(id) => RemovalStays(s, id);
      case CommitRefresh => RefreshStays(s);
      case SaveGatewayCopy(t, certs) => CopyStays(s, t, certs);
      case _ => OtherStays(s, a);
    }
    CopiesStay(s, a);
  }

  lemma CopiesStay(s: Shared, a: Action)
    requires Orderly(s) && RowsStay(s, a)
    ensures Orderly(Apply(s, a)) && HubsStay(s.nodes, Apply(s, a).nodes)
  {
    var s' := Apply(s, a);
    hide Rows, UniqueIds, RowsKnown, Present, HubsStay;
    if a.LoadGatewayRow? && FindGateway(s.nodes).Some? {
      FoundPresent(s.nodes);
    }
    hide FindGateway;
    forall t | t in s'.copies
      ensures s'.copies[t].role == Gateway && Present(s'.nodes, s'.copies[t])
    {
      PresentStays(s.nodes, s'.nodes, s'.copies[t]);
    }
  }

  lemma {:induction false} ClashForever(s: Shared, acts: seq<Action>)
    requires Orderly(s) && Clash(s.nodes) && NamedRun(s, acts)
    ensures Clash(Interleave(s, acts).nodes)
    decreases |acts|
  {
    hide Orderly, Clash, Apply, Named;
    if acts != [] {
      ActionKeepsOrder(s, acts[0]);
      ClashStays(s.nodes, Apply(s, acts[0]).nodes);
      ClashForever(Apply(s, acts[0]), acts[1..]);
    }
  }

  lemma SafeIsOrderly(s: Shared)
    requires Safe(s)
    ensures Orderly(s)
  {
    DistinctIds(s.nodes);
    hide RowsKnown;
    forall t | t in s.copies
      ensures s.copies[t].role == Gateway && Present(s.nodes, s.copies[t])
    {
      assert Core(s.copies[t]) == Core(s.nodes[0]);
    }
  }

  /** A gateway that commits on a table with rows joins the gateway that is already there. */
  lemma LateCommitClashes(s: Shared, a: Action)
    requires Safe(s) && Named(s, a) && !Timely(s, a)
    ensures Clash(Apply(s, a).nodes)
  {
    var after, n := Apply(s, a).nodes, |s.nodes|;
    assert after == s.nodes + [GatewayRow(a.site, s.picks[a.t], a.f)];
    assert after[0].role == after[n].role == Gateway && after[0].id != after[n].id;
  }

  lemma {:induction false} LateRunClashes(s: Shared, acts: seq<Action>)
    requires Safe(s) && NamedRun(s, acts) && !TimelyRun(s, acts)
    ensures Clash(Interleave(s, acts).nodes)
    decreases |acts|
  {
    hide Safe, Clash, Apply, Named, Timely, Orderly;
    var s' := Apply(s, acts[0]);
    if Timely(s, acts[0]) {
      ActionKeepsSafe(s, acts[0]);
      LateRunClashes(s', acts[1..]);
    } else {
      LateCommitClashes(s, acts[0]);
      SafeIsOrderly(s);
      ActionKeepsOrder(s, acts[0]);
      ClashForever(s', acts[1..]);
    }
  }

  lemma ClashIsBad(nodes: Table)
    requires Clash(nodes)
    ensures !WellAllocated(nodes)
  {
    var i, j :| 0 <= i < |nodes| && 0 <= j < |nodes| && nodes[i].role == nodes[j].role == Gateway && nodes[i].id != nodes[j].id;
    assert i >= 1 || j >= 1;
  }

  /**
   * Allocation safety, exactly: in every interleaving from an empty table no two nodes share an address, no
   * two servers a subnet, and there is one gateway, at 10.0.0.1, if and only if every gateway creation that
   * committed found the table still empty. Nothing later repairs a late one.
   */
  lemma {:induction false} AllocationSafe(acts: seq<Action>)
    requires NamedRun(IDLE, acts)
    ensures WellAllocated(Interleave(IDLE, acts).nodes) <==> TimelyRun(IDLE, acts)
  {
    hide Interleave, NamedRun, TimelyRun, WellAllocated, Clash;
    if TimelyRun(IDLE, acts) {
      InterleavingKeepsSafe(IDLE, acts);
      hide Copies, Picks, RowsKnown, Consistent;
      ConsistentAllocates(Interleave(IDLE, acts).nodes);
    } else {
      LateRunClashes(IDLE, acts);
      ClashIsBad(Interleave(IDLE, acts).nodes);
    }
  }

  /** The steps of one gateway creation, up to its commit. */
  function Starting(t: nat, site: Site, f: Fresh): seq<Action> {
    [CheckGateway(t), PickAddress(t)] + [CommitGateway(t, site, f), AbandonGateway(t)]
  }

  /**
   * A creation that nothing interrupts does what `CreateGateway` as a whole does: nothing where a gateway
   * exists, and otherwise it commits the row that is then refreshed.
   */
  lemma StartIsRun(s: Shared, t: nat, site: Site, f: Fresh)
    requires Safe(s) && t !in s.checked && t !in s.picks
    ensures var after := Interleave(s, Starting(t, site, f)).nodes;
            if s.nodes == [] then after != [] && Registry.CreateGateway([], site, f) == RefreshAndReload(after, f.id)
            else after == s.nodes && Registry.CreateGateway(s.nodes, site, f) == Written(s.nodes, Failure(GatewayExists))
  {
    hide Interleave, Refresh, FreeIPFrom;
    CurrentIsGateway(s.nodes);
    hide Consistent, RefreshAndReload;
    var mid := Interleave(s, [CheckGateway(t), PickAddress(t)]);
    InterleaveTwo(s, CheckGateway(t), PickAddress(t));
    InterleaveSplit(s, [CheckGateway(t), PickAddress(t)], [CommitGateway(t, site, f), AbandonGateway(t)]);
    InterleaveTwo(mid, CommitGateway(t, site, f), AbandonGateway(t));
    if s.nodes == [] {
      assert NextWGPrivateIP([]) == Some(WGPrivateIP(1)) by {
        FreeIPIsLowest([], 1);
        FreeIPExists([]);
      }
    }
  }

  /** Gateway creation by t and by u, both checked and picked on the empty table before either commits. */
  function BothPicked(t: nat, u: nat): seq<Action> {
    [CheckGateway(t), CheckGateway(u), PickAddress(t), PickAddress(u)]
  }

  lemma InterleaveTwo(s: Shared, a: Action, b: Action)
    ensures Interleave(s, [a, b]) == Apply(Apply(s, a), b)
  {
    hide Apply;
    assert [a, b][1..] == [b] && [b][1..] == [];
    assert Interleave(Apply(s, a), [b]) == Interleave(Apply(Apply(s, a), b), []);
  }

  lemma {:induction false} InterleaveSplit(s: Shared, a: seq<Action>, b: seq<Action>)
    ensures Interleave(s, a + b) == Interleave(Interleave(s, a), b)
    decreases |a|
  {
    hide Apply;
    if a == [] {
      assert a + b == b;
    } else {
      InterleaveSplit(Apply(s, a[0]), a[1..], b);
      assert (a + b)[1..] == a[1..] + b;
    }
  }

  /**
   * Two runs that meet the failing case. When both creations pick on the empty table, two gateways own
   * 10.0.0.1; when u picks only after t has committed, the second gateway owns 10.0.0.2.
   */
  lemma TwoStartsClash(t: nat, u: nat, site: Site, f: Fresh, g: Fresh)
    requires t != u
    ensures var s := Interleave(IDLE, BothPicked(t, u) + [CommitGateway(t, site, f), CommitGateway(u, site, g)]);
            && |s.nodes| == 2 && s.nodes[0].role == s.nodes[1].role == Gateway
            && s.nodes[0].address.ip == s.nodes[1].address.ip == IPv4(10, 0, 0, 1)
    ensures var s := Interleave(IDLE, [CheckGateway(t), CheckGateway(u)] + [PickAddress(t), CommitGateway(t, site, f)]
                                      + [PickAddress(u), CommitGateway(u, site, g)]);
            && |s.nodes| == 2 && s.nodes[0].role == s.nodes[1].role == Gateway
            && s.nodes[0].address.ip == IPv4(10, 0, 0, 1) && s.nodes[1].address.ip == IPv4(10, 0, 0, 2)
  {
    hide Interleave;
    var ip, next := WGPrivateIP(1), WGPrivateIP(2);
    var row := GatewayRow(site, ip, f);
    assert NextWGPrivateIP([]) == Some(ip) && NextWGPrivateIP([row]) == Some(next) by {
      assert !IPUsed([], ip) && IPUsed([row], ip) by {
        assert [row][0].address.ip == ip;
      }
      assert !IPUsed([row], next);
      assert FreeIPFrom([row], 1) == FreeIPFrom([row], 2);
    }
    hide FreeIPFrom;
    var open := Interleave(IDLE, [CheckGateway(t), CheckGateway(u)]);
    InterleaveTwo(IDLE, CheckGateway(t), CheckGateway(u));
    assert open.nodes == [] && open.checked == {t, u} && open.picks == map[];

    var both := Interleave(open, [PickAddress(t), PickAddress(u)]);
    InterleaveTwo(open, PickAddress(t), PickAddress(u));
    assert both.nodes == [] && both.picks == map[t := ip, u := ip];
    InterleaveSplit(IDLE, [CheckGateway(t), CheckGateway(u)], [PickAddress(t), PickAddress(u)]);
    assert [CheckGateway(t), CheckGateway(u)] + [PickAddress(t), PickAddress(u)] == BothPicked(t, u);
    InterleaveSplit(IDLE, BothPicked(t, u), [CommitGateway(t, site, f), CommitGateway(u, site, g)]);
    InterleaveTwo(both, CommitGateway(t, site, f), CommitGateway(u, site, g));

    var first := Interleave(open, [PickAddress(t), CommitGateway(t, site, f)]);
    InterleaveTwo(open, PickAddress(t), CommitGateway(t, site, f));
    assert first.nodes == [row] && u in first.checked;
    InterleaveSplit(IDLE, [CheckGateway(t), CheckGateway(u)], [PickAddress(t), CommitGateway(t, site, f)]);
    InterleaveSplit(IDLE, [CheckGateway(t), CheckGateway(u)] + [PickAddress(t), CommitGateway(t, site, f)],
                    [PickAddress(u), CommitGateway(u, site, g)]);
    InterleaveTwo(first, PickAddress(u), CommitGateway(u, site, g));
  }
}
