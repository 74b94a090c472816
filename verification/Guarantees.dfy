/** What every run of failure-free, non-overlapping commands from an empty database guarantees. */
module Guarantees {
  import opened Common
  import opened Text
  import opened Addresses
  import opened Registry
  import opened Routing
  import opened Admission
  import opened Runs

  lemma EmptyInv()
    ensures Inv(EMPTY)
  {
  }

  lemma Reached(cs: seq<Command>)
    requires FreshRun(EMPTY, cs)
    ensures Inv(Exec(EMPTY, cs))
  {
    EmptyInv();
    RunKeepsInv(EMPTY, cs);
  }

  // ---- reservations

  /** Pending requests never overdraw the pools, and each automatic one can join right now. */
  lemma ReservationSound(cs: seq<Command>, r: Request, f: Fresh)
    requires FreshRun(EMPTY, cs)
    ensures var db := Exec(EMPTY, cs).db;
            && |db.nodes| + |db.requests| <= 254
            && CountRoles(db.nodes, DOCKER_ROLES) + CountServerRequests(db.requests) <= 12
    ensures var w := Exec(EMPTY, cs);
            r in w.db.requests && r.dockerSubnet.None? && NewlyDrawn(w, Joining(r, f))
            ==> Perform(w.db, Joining(r, f)).1.Joined?
  {
    Reached(cs);
    var w := Exec(EMPTY, cs);
    if r in w.db.requests && r.dockerSubnet.None? && NewlyDrawn(w, Joining(r, f)) {
      JoinEffect(w, r, f);
    }
  }

  /** A request with a forced subnet joins exactly when no server holds that subnet at that moment. */
  lemma ForcedJoinExactly(cs: seq<Command>, r: Request, f: Fresh)
    requires FreshRun(EMPTY, cs) && r in Exec(EMPTY, cs).db.requests && NewlyDrawn(Exec(EMPTY, cs), Joining(r, f))
    requires r.role == Server && r.dockerSubnet.Some?
    ensures var db := Exec(EMPTY, cs).db;
            && ParseNet(r.dockerSubnet.value, true).Success?
            && (Perform(db, Joining(r, f)).1.Joined? <==>
                !SubnetUsed(db.nodes, ParseNet(r.dockerSubnet.value, true).value))
  {
    Reached(cs);
    var w := Exec(EMPTY, cs);
    JoinEffect(w, r, f);
    var i := PendingRequest(w, r);
  }

  /** The subnet a joining server gets: the forced one, or the lowest free one. */
  lemma JoinedServerSubnet(w: World, r: Request, f: Fresh)
    requires Inv(w) && NewlyDrawn(w, Joining(r, f)) && r in w.db.requests && r.role == Server
    requires Perform(w.db, Joining(r, f)).1.Joined?
    ensures var nodes := Perform(w.db, Joining(r, f)).0.nodes;
            && |nodes| == |w.db.nodes| + 1 && nodes[|w.db.nodes|].role == Server
            && ChooseSubnet(w.db.nodes, r.dockerSubnet).Success?
            && nodes[|w.db.nodes|].dockerSubnet == Some(ChooseSubnet(w.db.nodes, r.dockerSubnet).value)
  {
    hide Unused, ForcedSubnetFree, CreateFor, Perform, JoinAttempt, Registry.CreateServer, ChooseSubnet, NextWGPrivateIP, GetRequest, FinishJoin, Live, Meshed, Reserved, Consistent, ParseNet, SameCores;
    UnusedRows(w, f);
    CreateForEffect(w, r, f);
    var i := PendingRequest(w, r);
    CreateServerEffect(w.db.nodes, r.dockerSubnet, f);
    hide Inv, NewlyDrawn;
    JoinUnfolds(w.db, r, f);
    PerformsJoin(w.db, r, f);
    CreateForIs(w.db.nodes, r, f);
    var t := CreateFor(w.db.nodes, r, f, None);
    FinishEffect(w.db, r, f, t.nodes, t.result.value);
    GrownNonempty(w.db.nodes, t.nodes, r.role, f);
    GrownNewcomer(w.db.nodes, t.nodes, r.role, f);
    assert t.nodes[0 := DropCert(t.nodes[0], r.id)][|w.db.nodes|] == t.nodes[|w.db.nodes|];
  }

  lemma GrownNewcomer(before: Table, after: Table, role: Role, f: Fresh)
    requires Grown(before, after, role, f)
    ensures |after| == |before| + 1 && after[|before|].role == role && before != []
  {
  }

  /**
   * A reservation does not hold a forced subnet. If the subnet a pending request forces is the next
   * automatic one, that request could join now; but once an automatic request joins first it is refused.
   */
  lemma AutomaticTakesForced(w: World, r: Request, q: Request, f: Fresh, g: Fresh)
    requires Inv(w) && r in w.db.requests && q in w.db.requests && r.id != q.id && r.role == Server && q.role == Server
    requires q.dockerSubnet.None? && r.dockerSubnet.Some?
    requires NextDockerSubnet(w.db.nodes).Some?
    requires ParseNet(r.dockerSubnet.value, true) == Success(NextDockerSubnet(w.db.nodes).value)
    requires NewlyDrawn(w, Joining(q, f)) && NewlyDrawn(w, Joining(r, f)) && NewlyDrawn(Step(w, Joining(q, f)), Joining(r, g))
    ensures Perform(w.db, Joining(r, f)).1.Joined?
    ensures var w' := Step(w, Joining(q, f));
            r in w'.db.requests && Perform(w'.db, Joining(r, g)).1.Refused?
  {
    hide Inv, Perform, NextDockerSubnet, SubnetUsed, Step, ParseNet;
    ForcedCouldJoin(w, r, f);
    AutomaticJoins(w, q, f);
    SubnetGoes(w, q, f);
    JoinRefusedWhenTaken(Step(w, Joining(q, f)), r, g, NextDockerSubnet(w.db.nodes).value);
  }

  /** An automatic server request takes the lowest free subnet. */
  lemma SubnetGoes(w: World, q: Request, f: Fresh)
    requires Inv(w) && NewlyDrawn(w, Joining(q, f)) && q in w.db.requests && q.role == Server && q.dockerSubnet.None?
    requires NextDockerSubnet(w.db.nodes).Some?
    ensures SubnetUsed(Step(w, Joining(q, f)).db.nodes, NextDockerSubnet(w.db.nodes).value)
  {
    hide Inv, Perform, NextDockerSubnet;
    JoinSucceeds(w, q, f);
    JoinedServerSubnet(w, q, f);
    var k, nodes := |w.db.nodes|, Step(w, Joining(q, f)).db.nodes;
    assert nodes[k].dockerSubnet == Some(NextDockerSubnet(w.db.nodes).value) && nodes[k].role == Server;
  }

  lemma ForcedCouldJoin(w: World, r: Request, f: Fresh)
    requires Inv(w) && NewlyDrawn(w, Joining(r, f)) && r in w.db.requests
    requires r.dockerSubnet.Some? && NextDockerSubnet(w.db.nodes).Some?
    requires ParseNet(r.dockerSubnet.value, true) == Success(NextDockerSubnet(w.db.nodes).value)
    ensures Perform(w.db, Joining(r, f)).1.Joined?
  {
    FreeSubnetIsLowest(w.db.nodes, DOCKER_SUBNET_START);
    JoinEffect(w, r, f);
    hide Inv, Perform, Consumed, NextDockerSubnet, SubnetUsed, ParseNet;
  }

  lemma JoinSucceeds(w: World, r: Request, f: Fresh)
    requires Inv(w) && NewlyDrawn(w, Joining(r, f)) && r in w.db.requests && r.dockerSubnet.None?
    ensures Perform(w.db, Joining(r, f)).1.Joined?
  {
    JoinEffect(w, r, f);
    hide Inv, Perform, Consumed;
  }

  lemma JoinRefusedWhenTaken(w: World, r: Request, g: Fresh, net: IPNet)
    requires Inv(w) && g.id !in w.ids && g.publicKey !in w.keys && r.role == Server && r.dockerSubnet.Some?
    requires ParseNet(r.dockerSubnet.value, true) == Success(net) && SubnetUsed(w.db.nodes, net)
    ensures Perform(w.db, Joining(r, g)).1.Refused?
  {
    hide Inv, Perform, Consumed, ParseNet, SubnetUsed;
    JoinEffect(w, r, g);
  }

  predicate LoneGateway(nodes: Table) {
    && |nodes| == 1 && nodes[0].role == Gateway && nodes[0].dockerSubnet.None?
    && nodes[0].wgPublicIP.Some? && nodes[0].wgPublicPort.Some?
  }

  lemma LoneGatewayIssues(db: Db, subnet: string, f: Fresh)
    requires LoneGateway(db.nodes) && |db.requests| <= 1
    requires subnet != "" ==> ParseNet(subnet, true).Success?
    ensures var (after, o) := ServerNew(db, false, subnet, f);
            && LoneGateway(after.nodes) && |after.requests| == |db.requests| + 1 && after.requests[..|db.requests|] == db.requests
            && var r := after.requests[|db.requests|];
               r.id == f.id && r.role == Server && r.dockerSubnet == if subnet == "" then None else Some(subnet)
  {
    hide ParseNet;
    assert db.nodes == [db.nodes[0]];
    FilterOne(db.nodes[0], DOCKER_ROLES);
    if |db.requests| == 1 {
      RequestOne(db.requests[0]);
      assert db.requests == [db.requests[0]];
    }
    assert SubnetLeft(db) && ClientLeft(db);
    hide CountRoles, CountServerRequests, SubnetLeft, ClientLeft;
    assert SaveNode(db.nodes, AddClientCert(db.nodes[0], f)) == [AddClientCert(db.nodes[0], f)];
  }

  /** A world that still has its gateway alone, with the identifiers and keys drawn so far. */
  predicate LoneWorld(w: World, pending: nat, ids: set<string>, keys: set<string>) {
    LoneGateway(w.db.nodes) && |w.db.requests| == pending && w.ids == ids && w.keys == keys
  }

  lemma LoneStart(site: Site, f: Fresh)
    ensures NewlyDrawn(EMPTY, StartingGateway(site, f))
    ensures LoneWorld(Step(EMPTY, StartingGateway(site, f)), 0, {f.id}, {f.publicKey})
  {
    FirstGateway(site, f);
    hide Refresh, Consistent, Meshed;
  }

  lemma LoneRequest(w: World, pending: nat, subnet: string, f: Fresh)
    requires LoneWorld(w, pending, w.ids, w.keys) && pending <= 1 && f.id !in w.ids && f.publicKey !in w.keys
    requires subnet != "" ==> ParseNet(subnet, true).Success?
    ensures NewlyDrawn(w, NewServer(false, subnet, f))
    ensures var w' := Step(w, NewServer(false, subnet, f));
            && LoneWorld(w', pending + 1, w.ids + {f.id}, w.keys + {f.publicKey})
            && w'.db.requests[..pending] == w.db.requests
            && var r := w'.db.requests[pending];
               r.id == f.id && r.role == Server && r.dockerSubnet == if subnet == "" then None else Some(subnet)
  {
    LoneGatewayIssues(w.db, subnet, f);
    hide LoneGateway, ParseNet, ServerNew;
  }

  lemma FirstSubnetText()
    ensures ParseNet("172.20.0.0/16", true) == Success(DockerSubnet(20))
  {
    hide ParseNet;
    assert PrintNat(172) == "172" && PrintNat(20) == "20" && PrintNat(0) == "0" && PrintNat(16) == "16";
    assert "172.20.0.0/16" == PrintNet(DockerSubnet(20));
    NetRoundTrip(DockerSubnet(20), true);
  }

  /** Such a state arises: start a gateway, request a server with 172.20.0.0/16, then one without a subnet. */
  lemma ForcedAndAutomaticPending(site: Site, f0: Fresh, f1: Fresh, f2: Fresh)
    requires f0.id != f1.id && f0.id != f2.id && f1.id != f2.id
    requires f0.publicKey != f1.publicKey && f0.publicKey != f2.publicKey && f1.publicKey != f2.publicKey
    ensures var cs := [StartingGateway(site, f0), NewServer(false, "172.20.0.0/16", f1), NewServer(false, "", f2)];
            && FreshRun(EMPTY, cs)
            && var db := Exec(EMPTY, cs).db;
               && |db.requests| == 2 && db.requests[0].role == Server && db.requests[1].role == Server
               && db.requests[0].dockerSubnet == Some("172.20.0.0/16") && db.requests[1].dockerSubnet.None?
               && db.requests[0].id == f1.id && db.requests[1].id == f2.id
               && NextDockerSubnet(db.nodes) == Some(DockerSubnet(20))
               && ParseNet("172.20.0.0/16", true) == Success(DockerSubnet(20))
  {
    var net := "172.20.0.0/16";
    FirstSubnetText();
    var c0, c1, c2 := StartingGateway(site, f0), NewServer(false, net, f1), NewServer(false, "", f2);
    ThreeSteps(EMPTY, c0, c1, c2);
    hide ParseNet, Step, NewlyDrawn, LoneGateway, NextDockerSubnet, Exec, FreshRun;
    LoneStart(site, f0);
    var w1 := Step(EMPTY, c0);
    LoneRequest(w1, 0, net, f1);
    var w2 := Step(w1, c1);
    LoneRequest(w2, 1, "", f2);
    var w3 := Step(w2, c2);
    LoneNext(w3.db.nodes);
    assert w3.db.requests[..1][0] == w2.db.requests[0];
  }

  lemma LoneNext(nodes: Table)
    requires LoneGateway(nodes)
    ensures NextDockerSubnet(nodes) == Some(DockerSubnet(20))
  {
  }

  lemma ThreeSteps(w: World, a: Command, b: Command, c: Command)
    ensures Exec(w, [a, b, c]) == Step(Step(Step(w, a), b), c)
    ensures FreshRun(w, [a, b, c]) <==> NewlyDrawn(w, a) && NewlyDrawn(Step(w, a), b) && NewlyDrawn(Step(Step(w, a), b), c)
  {
    hide Step, NewlyDrawn;
    assert [a, b, c][1..] == [b, c] && [b, c][1..] == [c] && [c][1..] == [];
    var v := Step(w, a);
    var u := Step(v, b);
    assert Exec(u, [c]) == Exec(Step(u, c), []);
    assert FreshRun(u, [c]) <==> NewlyDrawn(u, c);
    assert Exec(v, [b, c]) == Exec(u, [c]);
    assert FreshRun(v, [b, c]) <==> NewlyDrawn(v, b) && FreshRun(u, [c]);
  }

  function Joins(tokens: seq<Request>, fs: seq<Fresh>): seq<Command>
    requires |tokens| == |fs|
  {
    seq(|tokens|, i requires 0 <= i < |tokens| => Joining(tokens[i], fs[i]))
  }

  lemma AutomaticJoins(w: World, r: Request, f: Fresh)
    requires Inv(w) && NewlyDrawn(w, Joining(r, f)) && r in w.db.requests && r.dockerSubnet.None?
    ensures var w' := Step(w, Joining(r, f));
            && Inv(w') && r.id in w'.consumed
            && |w'.db.nodes| == |w.db.nodes| + 1 && |w'.db.requests| == |w.db.requests| - 1
            && forall q :: q in w.db.requests && q.id != r.id ==> q in w'.db.requests
  {
    hide Inv, Perform, Consumed, SameCores, NewlyDrawn;
    JoinEffect(w, r, f);
    StepKeepsInv(w, Joining(r, f));
    assert ForcedSubnetFree(w.db.nodes, r);
    JoinConserves(w, r, f);
  }

  lemma JoinsTail(tokens: seq<Request>, fs: seq<Fresh>)
    requires |tokens| == |fs| && tokens != []
    ensures var cs := Joins(tokens, fs);
            cs != [] && cs[0] == Joining(tokens[0], fs[0]) && cs[1..] == Joins(tokens[1..], fs[1..])
  {
  }

  lemma DrainedHead(tokens: seq<Request>, consumed: set<string>)
    requires tokens != [] && tokens[0].id in consumed
    requires forall i :: 0 <= i < |tokens[1..]| ==> tokens[1..][i].id in consumed
    ensures forall i :: 0 <= i < |tokens| ==> tokens[i].id in consumed
  {
    forall i | 1 <= i < |tokens|
      ensures tokens[i].id in consumed
    {
      assert tokens[i] == tokens[1..][i - 1];
    }
  }

  lemma UnfoldRun(w: World, cs: seq<Command>)
    requires cs != []
    ensures Exec(w, cs) == Exec(Step(w, cs[0]), cs[1..])
    ensures FreshRun(w, cs) <==> NewlyDrawn(w, cs[0]) && FreshRun(Step(w, cs[0]), cs[1..])
  {
    hide Step, NewlyDrawn;
  }

  lemma StillPending(tokens: seq<Request>, before: seq<Request>, after: seq<Request>)
    requires tokens != [] && forall i :: 0 <= i < |tokens| ==> tokens[i] in before
    requires forall i, j :: 0 <= i < j < |tokens| ==> tokens[i].id != tokens[j].id
    requires forall q :: q in before && q.id != tokens[0].id ==> q in after
    ensures forall i :: 0 <= i < |tokens[1..]| ==> tokens[1..][i] in after
  {
    forall i | 0 <= i < |tokens[1..]|
      ensures tokens[1..][i] in after
    {
      assert tokens[1..][i] == tokens[i + 1] && tokens[i + 1].id != tokens[0].id;
    }
  }

  /**
   * Draining: any selection of pending automatic requests, in any order, can be joined one after
   * another without a refusal.
   */
  lemma {:induction false} PendingDrain(w: World, tokens: seq<Request>, fs: seq<Fresh>)
    requires Inv(w) && |tokens| == |fs| && FreshRun(w, Joins(tokens, fs))
    requires forall i :: 0 <= i < |tokens| ==> tokens[i] in w.db.requests && tokens[i].dockerSubnet.None?
    requires forall i, j :: 0 <= i < j < |tokens| ==> tokens[i].id != tokens[j].id
    ensures var last := Exec(w, Joins(tokens, fs));
            && |last.db.nodes| == |w.db.nodes| + |tokens|
            && |last.db.requests| == |w.db.requests| - |tokens|
            && forall i :: 0 <= i < |tokens| ==> tokens[i].id in last.consumed
    decreases |tokens|
  {
    hide Inv, Step, NewlyDrawn, Perform;
    if tokens != [] {
      JoinsTail(tokens, fs);
      hide Joins;
      var cs, w' := Joins(tokens, fs), Step(w, Joining(tokens[0], fs[0]));
      UnfoldRun(w, cs);
      hide Exec, FreshRun;
      AutomaticJoins(w, tokens[0], fs[0]);
      StillPending(tokens, w.db.requests, w'.db.requests);
      PendingDrain(w', tokens[1..], fs[1..]);
      ConsumedGrows(w', cs[1..]);
      DrainedHead(tokens, Exec(w', cs[1..]).consumed);
    } else {
      assert Joins(tokens, fs) == [];
    }
  }

  lemma {:induction false} ConsumedGrows(w: World, cs: seq<Command>)
    ensures w.consumed <= Exec(w, cs).consumed && w.gone <= Exec(w, cs).gone
    decreases |cs|
  {
    hide Perform;
    if cs != [] {
      ConsumedGrows(Step(w, cs[0]), cs[1..]);
    }
  }

  /**
   * Conservation: a successful join removes its request and no other, appends one node of the
   * request's role, and leaves every other node's identity, key, address and subnet alone.
   */
  lemma JoinConserves(w: World, r: Request, f: Fresh)
    requires Inv(w) && NewlyDrawn(w, Joining(r, f)) && Perform(w.db, Joining(r, f)).1.Joined?
    ensures var db := Perform(w.db, Joining(r, f)).0;
            && r in w.db.requests
            && |db.requests| == |w.db.requests| - 1
            && (forall q :: q in db.requests <==> q in w.db.requests && q.id != r.id)
            && |db.nodes| == |w.db.nodes| + 1
            && db.nodes[|w.db.nodes|].role == r.role && db.nodes[|w.db.nodes|].id == f.id
            && SameCores(w.db.nodes, db.nodes[..|w.db.nodes|])
    ensures var (db, o) := Perform(w.db, Joining(r, f));
            && w.db.nodes != [] && o.node == db.nodes[|w.db.nodes|] && FreshSpoke(o.node, w.db.nodes[0], r.role, f)
            && db.nodes[0].certs == w.db.nodes[0].certs[f.id := f.cert] - {r.id}
  {
    JoinEffect(w, r, f);
    var rs, db := w.db.requests, Perform(w.db, Joining(r, f)).0;
    hide Perform, ForcedSubnetFree;
    var node := Perform(w.db, Joining(r, f)).1.node;
    var t :| Grown(w.db.nodes, t, r.role, f) && node == t[|w.db.nodes|]
             && db == Db(t[0 := DropCert(t[0], r.id)], DeleteRequest(rs, r.id));
    RequestsLeft(w, r);
    JoinKeepsRows(w.db.nodes, t, r, f);
  }

  lemma RequestsLeft(w: World, r: Request)
    requires Pending(w) && r in w.db.requests
    ensures var rest := DeleteRequest(w.db.requests, r.id);
            && |rest| == |w.db.requests| - 1
            && forall q :: q in rest <==> q in w.db.requests && q.id != r.id
  {
    hide ParseNet;
    var rs := w.db.requests;
    var k := DeleteRequestAt(rs, r);
    var rest := DeleteRequest(rs, r.id);
    hide DeleteRequest;
    forall q
      ensures q in rest <==> q in rs && q.id != r.id
    {
      if q in rest {
        var i :| 0 <= i < |rest| && rest[i] == q;
        assert rs[if i < k then i else i + 1] == q;
      }
      if q in rs && q.id != r.id {
        var i :| 0 <= i < |rs| && rs[i] == q;
        assert rest[if i < k then i else i - 1] == q;
      }
    }
  }

  lemma JoinKeepsRows(before: Table, t: Table, r: Request, f: Fresh)
    requires Grown(before, t, r.role, f)
    ensures var after := t[0 := DropCert(t[0], r.id)];
            && |after| == |before| + 1
            && after[|before|].role == r.role && after[|before|].id == f.id
            && SameCores(before, after[..|before|])
            && before != [] && after[|before|] == t[|before|] && FreshSpoke(t[|before|], before[0], r.role, f)
            && after[0].certs == before[0].certs[f.id := f.cert] - {r.id}
  {
    hide Consistent, Meshed, IPUsed, SubnetUsed;
    var after := t[0 := DropCert(t[0], r.id)];
    forall i | 0 <= i < |before|
      ensures Core(before[i]) == Core(after[i])
    {
      assert Core(before[i]) == Core(t[..|before|][i]);
    }
  }

  // ---- how a step changes the table

  /** b continues a: the rows of a, with the same cores, followed by at most one new row. */
  predicate Continues(a: Table, b: Table) {
    |a| <= |b| <= |a| + 1 && SameCores(a, b[..|a|])
  }

  predicate Automatic(c: Command) {
    c.NewServer? ==> c.dockerSubnet == ""
  }

  predicate AutomaticRequests(db: Db) {
    forall i :: 0 <= i < |db.requests| ==> db.requests[i].dockerSubnet.None?
  }

  /** The row that distinguishes b from a, if any, has no custom subnet. */
  predicate AutoRow(a: Table, b: Table) {
    |b| == |a| + 1 && b[|a|].dockerSubnet.Some? ==> AutoSubnet(b[|a|].dockerSubnet.value)
  }

  lemma SameContinues(a: Table, b: Table)
    requires SameCores(a, b)
    ensures Continues(a, b) && AutoRow(a, b)
  {
    assert b[..|a|] == b;
  }

  lemma GrownContinues(a: Table, b: Table, role: Role, f: Fresh)
    requires Grown(a, b, role, f)
    ensures Continues(a, b)
    ensures Consistent(b) && |b| == |a| + 1
  {
  }

  lemma ServerContinues(nodes: Table, forced: Option<string>, f: Fresh)
    requires Consistent(nodes) && Unused(nodes, f)
    ensures Continues(nodes, CreateServer(nodes, forced, f).nodes)
    ensures forced.None? ==> AutoRow(nodes, CreateServer(nodes, forced, f).nodes)
  {
    CreateServerEffect(nodes, forced, f);
    var w := CreateServer(nodes, forced, f);
    if w.result.Success? {
      GrownContinues(nodes, w.nodes, Server, f);
      FreeSubnetIsLowest(nodes, DOCKER_SUBNET_START);
    } else {
      SameContinues(nodes, nodes);
    }
  }

  lemma ClientContinues(nodes: Table, f: Fresh)
    requires Consistent(nodes) && Unused(nodes, f)
    ensures Continues(nodes, CreateClient(nodes, f).nodes) && AutoRow(nodes, CreateClient(nodes, f).nodes)
  {
    CreateClientEffect(nodes, f);
    var w := CreateClient(nodes, f);
    if w.result.Success? {
      GrownContinues(nodes, w.nodes, Client, f);
      assert WellFormed(w.nodes[|nodes|]);
    } else {
      SameContinues(nodes, nodes);
    }
  }

  lemma IssueContinues(db: Db, role: Role, subnet: Option<string>, f: Fresh)
    requires Consistent(db.nodes)
    ensures var gw := FindGateway(db.nodes);
            var after := IssueRequest(db, gw, role, subnet, f).0;
            && Continues(db.nodes, after.nodes) && AutoRow(db.nodes, after.nodes)
            && (AutomaticRequests(db) && subnet.None? ==> AutomaticRequests(after))
  {
    CurrentIsGateway(db.nodes);
    SameContinues(db.nodes, db.nodes);
    if db.nodes != [] {
      SaveGateway(db.nodes, AddClientCert(db.nodes[0], f));
      hide Consistent, FindGateway, FindCurrent, SaveNode;
      SameContinues(db.nodes, db.nodes[0 := AddClientCert(db.nodes[0], f)]);
    }
  }

  lemma JoinedRows(w: World, r: Request, f: Fresh)
    requires Inv(w) && NewlyDrawn(w, Joining(r, f)) && Perform(w.db, Joining(r, f)).1.Joined?
    ensures var after := Perform(w.db, Joining(r, f)).0;
            && Continues(w.db.nodes, after.nodes)
            && r in w.db.requests
            && (AutomaticRequests(w.db) ==> AutomaticRequests(after) && r.dockerSubnet.None?)
  {
    JoinConserves(w, r, f);
    var after := Perform(w.db, Joining(r, f)).0;
    hide Perform, Inv, SameCores, NewlyDrawn;
    if AutomaticRequests(w.db) {
      forall i | 0 <= i < |after.requests|
        ensures after.requests[i].dockerSubnet.None?
      {
        assert after.requests[i] in w.db.requests;
      }
    }
  }

  lemma JoinContinues(w: World, r: Request, f: Fresh)
    requires Inv(w) && NewlyDrawn(w, Joining(r, f))
    ensures var after := Perform(w.db, Joining(r, f)).0;
            && Continues(w.db.nodes, after.nodes)
            && (AutomaticRequests(w.db) ==> AutoRow(w.db.nodes, after.nodes) && AutomaticRequests(after))
  {
    JoinEffect(w, r, f);
    if Perform(w.db, Joining(r, f)).1.Joined? {
      JoinedRows(w, r, f);
      JoinedSubnet(w, r, f);
      hide Perform, Inv, ForcedSubnetFree, Consumed, AutoRow, Continues, NewlyDrawn;
    } else {
      hide Perform, Inv, ForcedSubnetFree, Consumed;
      SameContinues(w.db.nodes, w.db.nodes);
    }
  }

  lemma JoinedSubnet(w: World, r: Request, f: Fresh)
    requires Inv(w) && NewlyDrawn(w, Joining(r, f)) && Perform(w.db, Joining(r, f)).1.Joined? && r in w.db.requests
    ensures r.dockerSubnet.None? ==> AutoRow(w.db.nodes, Perform(w.db, Joining(r, f)).0.nodes)
  {
    UnusedRows(w, f);
    var i := PendingRequest(w, r);
    CreateForEffect(w, r, f);
    JoinUnfolds(w.db, r, f);
    PerformsJoin(w.db, r, f);
    CreateForIs(w.db.nodes, r, f);
    ServerContinues(w.db.nodes, r.dockerSubnet, f);
    ClientContinues(w.db.nodes, f);
    hide Inv, Unused, ForcedSubnetFree, CreateFor, Perform, JoinAttempt, Registry.CreateServer, Registry.CreateClient, GetRequest, NewlyDrawn, Continues;
    var t := CreateFor(w.db.nodes, r, f, None);
    FinishEffect(w.db, r, f, t.nodes, t.result.value);
    GrownNonempty(w.db.nodes, t.nodes, r.role, f);
    hide FinishJoin, Grown;
  }

  lemma NewServerContinues(w: World, force: bool, subnet: string, f: Fresh)
    requires Inv(w) && NewlyDrawn(w, NewServer(force, subnet, f))
    ensures var after := ServerNew(w.db, force, subnet, f).0;
            && Continues(w.db.nodes, after.nodes)
            && (subnet == "" && AutomaticRequests(w.db) ==> AutoRow(w.db.nodes, after.nodes) && AutomaticRequests(after))
  {
    UnusedRows(w, f);
    var forced := if subnet == "" then None else Some(subnet);
    ServerNewCases(w.db, force, subnet, f);
    ServerContinues(w.db.nodes, forced, f);
    IssueContinues(w.db, Server, forced, f);
    SameContinues(w.db.nodes, w.db.nodes);
    hide Inv, Unused, Continues, AutoRow, CreateServer, IssueRequest, FindGateway, ServerNew;
  }

  lemma NewClientContinues(w: World, joinRequest: bool, f: Fresh)
    requires Inv(w) && NewlyDrawn(w, NewClient(joinRequest, f))
    ensures var after := ClientNew(w.db, joinRequest, f).0;
            && Continues(w.db.nodes, after.nodes)
            && (AutomaticRequests(w.db) ==> AutoRow(w.db.nodes, after.nodes) && AutomaticRequests(after))
  {
    UnusedRows(w, f);
    CurrentIsGateway(w.db.nodes);
    ClientContinues(w.db.nodes, f);
    IssueContinues(w.db, Client, None, f);
    SameContinues(w.db.nodes, w.db.nodes);
    hide Inv, Unused, Continues, AutoRow, CreateClient, IssueRequest, FindGateway, FindCurrent, ClientLeft;
  }

  /** Every command continues the table, except the removal of a server. */
  lemma {:induction false} StepContinues(w: World, c: Command)
    requires Inv(w) && NewlyDrawn(w, c) && !(c.RemovingServer? && IsServer(w.db.nodes, c.id))
    ensures Continues(w.db.nodes, Step(w, c).db.nodes)
    ensures Automatic(c) && AutomaticRequests(w.db) ==>
              AutoRow(w.db.nodes, Step(w, c).db.nodes) && AutomaticRequests(Step(w, c).db)
  {
    PerformContinues(w, c);
    hide Inv, Perform, Continues, AutoRow, AutomaticRequests, IsServer;
  }

  lemma StartContinues(w: World, site: Site, f: Fresh)
    requires Inv(w)
    ensures var after := StartGateway(w.db, site, f).0;
            && Continues(w.db.nodes, after.nodes) && AutoRow(w.db.nodes, after.nodes) && after.requests == w.db.requests
  {
    var db := w.db;
    CurrentIsGateway(db.nodes);
    if db.nodes == [] {
      FirstGateway(site, f);
      hide Inv, Refresh, Consistent, Meshed;
    } else {
      hide Inv;
      SameContinues(db.nodes, db.nodes);
    }
  }

  lemma RowEditsContinue(db: Db, id: string, labels: seq<string>)
    ensures Continues(db.nodes, UpdateLabels(db.nodes, id, labels)) && AutoRow(db.nodes, UpdateLabels(db.nodes, id, labels))
    ensures !IsServer(db.nodes, id) ==> DeleteServer(db.nodes, id) == db.nodes
    ensures Continues(db.nodes, db.nodes) && AutoRow(db.nodes, db.nodes)
  {
    SameContinues(db.nodes, UpdateLabels(db.nodes, id, labels));
    SameContinues(db.nodes, db.nodes);
    if !IsServer(db.nodes, id) {
      DeleteNothing(db.nodes, id);
    }
    hide Continues, AutoRow, IsServer, DeleteServer;
  }

  lemma PerformContinues(w: World, c: Command)
    requires Inv(w) && NewlyDrawn(w, c) && !(c.RemovingServer? && IsServer(w.db.nodes, c.id))
    ensures var after := Perform(w.db, c).0;
            && Continues(w.db.nodes, after.nodes)
            && (Automatic(c) && AutomaticRequests(w.db) ==> AutoRow(w.db.nodes, after.nodes) && AutomaticRequests(after))
  {
    hide Inv, Continues, AutoRow, IsServer, DeleteServer, UpdateLabels, StartGateway, ServerNew, ClientNew, JoinAttempt;
    match c
    case RemovingServer(id) =>
      RowEditsContinue(w.db, id, []);
      assert Perform(w.db, c).0.requests == w.db.requests;
    case SettingLabels(id, labels) =>
      RowEditsContinue(w.db, id, labels);
      assert Perform(w.db, c).0.requests == w.db.requests;
    case Joining(token, f) => JoinContinues(w, token, f);
    case StartingGateway(site, f) => StartContinues(w, site, f);
    case NewServer(force, subnet, f) => NewServerContinues(w, force, subnet, f);
    case NewClient(joinRequest, f) => NewClientContinues(w, joinRequest, f);
  }

  // ---- routing in runs

  ghost predicate AutoInv(w: World) {
    AutomaticRequests(w.db) && AutoSubnets(w.db.nodes) && AutoSubnets(w.snapshot)
  }

  lemma ContinuesAuto(a: Table, b: Table)
    requires Continues(a, b) && AutoRow(a, b) && AutoSubnets(a)
    ensures AutoSubnets(b)
  {
    forall i | 0 <= i < |b| && b[i].dockerSubnet.Some?
      ensures AutoSubnet(b[i].dockerSubnet.value)
    {
      if i < |a| {
        assert Core(a[i]) == Core(b[..|a|][i]);
      }
    }
  }

  lemma AutoRemove(nodes: Table, k: nat)
    requires k < |nodes| && AutoSubnets(nodes)
    ensures AutoSubnets(nodes[..k] + nodes[k + 1..])
  {
  }

  lemma DeletedRow(nodes: Table, id: string) returns (k: nat)
    requires Consistent(nodes) && IsServer(nodes, id)
    ensures k < |nodes| && DeleteServer(nodes, id) == nodes[..k] + nodes[k + 1..]
  {
    DistinctIds(nodes);
    hide Consistent, DeleteServer;
    k :| 0 <= k < |nodes| && nodes[k].id == id && nodes[k].role == Server;
    DeleteServerAt(nodes, k);
  }

  lemma RemovalRows(w: World, id: string) returns (k: nat)
    requires Inv(w) && IsServer(w.db.nodes, id)
    ensures k < |w.db.nodes|
    ensures Step(w, RemovingServer(id)).db == w.db.(nodes := w.db.nodes[..k] + w.db.nodes[k + 1..])
    ensures Step(w, RemovingServer(id)).snapshot == w.snapshot
  {
    hide DeleteServer, IsServer, Pending, Reserved, Ledger, Live, Meshed, Consistent;
    k := DeletedRow(w.db.nodes, id);
    hide Inv;
  }

  lemma RemovalKeepsAuto(w: World, id: string)
    requires Inv(w) && AutoInv(w) && IsServer(w.db.nodes, id)
    ensures AutoInv(Step(w, RemovingServer(id)))
  {
    hide Inv, IsServer, Step, AutoSubnets;
    var k := RemovalRows(w, id);
    AutoRemove(w.db.nodes, k);
  }

  lemma StepKeepsAuto(w: World, c: Command)
    requires Inv(w) && AutoInv(w) && NewlyDrawn(w, c) && Automatic(c)
    ensures AutoInv(Step(w, c))
  {
    if c.RemovingServer? && IsServer(w.db.nodes, c.id) {
      RemovalKeepsAuto(w, c.id);
      hide Inv;
    } else {
      StepContinues(w, c);
      ContinuesAuto(w.db.nodes, Step(w, c).db.nodes);
      hide Inv, Perform, AutoSubnets, AutomaticRequests, Continues, AutoRow;
    }
  }

  lemma {:induction false} RunKeepsAuto(w: World, cs: seq<Command>)
    requires Inv(w) && AutoInv(w) && FreshRun(w, cs) && forall i :: 0 <= i < |cs| ==> Automatic(cs[i])
    ensures AutoInv(Exec(w, cs))
    decreases |cs|
  {
    hide Inv, AutoInv, Step, NewlyDrawn;
    if cs != [] {
      StepKeepsAuto(w, cs[0]);
      StepKeepsInv(w, cs[0]);
      RunKeepsAuto(Step(w, cs[0]), cs[1..]);
    }
  }

  predicate HubAddressed(nodes: Table) {
    nodes != [] ==> Addressed(nodes[0])
  }

  /** The gateway is started under a public address that parses. */
  predicate StartsAddressed(c: Command) {
    c.StartingGateway? ==> ParseIPv4(c.site.wgPublicIP).Some?
  }

  lemma EmptyStays(w: World, c: Command)
    requires Inv(w) && NewlyDrawn(w, c) && w.db.nodes == [] && !c.StartingGateway?
    ensures Perform(w.db, c).0.nodes == []
  {
    hide Reserved, Ledger, Live, Registry.CreateServer, SubnetLeft, ClientLeft, ParseNet, SubnetUsed;
    assert w.db.requests == [];
    CurrentIsGateway(w.db.nodes);
    match c
    case NewServer(force, subnet, f) =>
      ServerNewCases(w.db, force, subnet, f);
      CreateServerEffect([], if subnet == "" then None else Some(subnet), f);
      hide ServerNew, Inv;
    case NewClient(_, _) => hide Inv;
    case Joining(token, f) => hide Inv;
    case _ => hide Inv;
  }

  lemma StepKeepsAddressed(w: World, c: Command)
    requires Inv(w) && NewlyDrawn(w, c) && HubAddressed(w.db.nodes) && StartsAddressed(c)
    ensures HubAddressed(Step(w, c).db.nodes)
  {
    hide Inv, ParseIPv4;
    if w.db.nodes != [] {
      StepPersists(w, c);
      hide Step, NewlyDrawn;
    } else if c.StartingGateway? {
      FirstGateway(c.site, c.f);
      hide Refresh, Consistent, Meshed;
    } else {
      EmptyStays(w, c);
      hide Perform, NewlyDrawn;
    }
  }

  lemma {:induction false} RunKeepsAddressed(w: World, cs: seq<Command>)
    requires Inv(w) && FreshRun(w, cs) && HubAddressed(w.db.nodes)
    requires forall i :: 0 <= i < |cs| ==> StartsAddressed(cs[i])
    ensures HubAddressed(Exec(w, cs).db.nodes)
    decreases |cs|
  {
    hide Inv, HubAddressed, StartsAddressed, Step, NewlyDrawn;
    if cs != [] {
      assert StartsAddressed(cs[0]);
      StepKeepsAddressed(w, cs[0]);
      StepKeepsInv(w, cs[0]);
      RunKeepsAddressed(Step(w, cs[0]), cs[1..]);
    }
  }

  /**
   * End-to-end routing: in every run whose commands ask for no custom subnet and whose gateway starts under
   * an address that parses, after every command every client reaches every address of every live server
   * through the gateway, and is answered.
   */
  lemma {:induction false} AlwaysRouted(cs: seq<Command>)
    requires FreshRun(EMPTY, cs) && forall i :: 0 <= i < |cs| ==> Automatic(cs[i]) && StartsAddressed(cs[i])
    requires Exec(EMPTY, cs).db.nodes != []
    ensures FullyRouted(Exec(EMPTY, cs).db.nodes)
  {
    EmptyInv();
    Reached(cs);
    hide Exec, FreshRun, Pending, Reserved, Ledger, Live, StartsAddressed, Addressed;
    RunKeepsAuto(EMPTY, cs);
    RunKeepsAddressed(EMPTY, cs);
    var w := Exec(EMPTY, cs);
    assert Meshed(w.db.nodes, w.snapshot);
    hide Meshed, Inv;
    assert Consistent(w.snapshot) by {
      MeshedSnapshot(w.db.nodes, w.snapshot);
    }
    AutoIsRoutable(w.snapshot);
    EndToEnd(w.db.nodes, w.snapshot);
  }

  lemma MeshedSnapshot(nodes: Table, snapshot: Table)
    requires Meshed(nodes, snapshot)
    ensures Consistent(snapshot)
  {
  }

  /**
   * With custom subnets, right after a creation: everything is routed exactly when the prefixes fit, that is
   * no two subnets overlap, no subnet holds another row's address, and each lies in a tunnelled range; and,
   * unless there is no server, the gateway's public address parses.
   */
  lemma RoutedAfterCreation(cs: seq<Command>, client: nat)
    requires FreshRun(EMPTY, cs) && var w := Exec(EMPTY, cs); w.snapshot == w.db.nodes
    requires var nodes := Exec(EMPTY, cs).db.nodes; client < |nodes| && nodes[client].role == Client
    ensures var nodes := Exec(EMPTY, cs).db.nodes;
            && (FullyRouted(nodes) <==> PrefixesFit(nodes) && (Addressed(nodes[0]) || NoServers(nodes)))
            && (PrefixesFit(nodes) <==> Exclusive(nodes) && Covered(nodes))
  {
    Reached(cs);
    RoutedByPrefixes(Exec(EMPTY, cs), client);
  }

  lemma RoutedByPrefixes(w: World, client: nat)
    requires Inv(w) && w.snapshot == w.db.nodes && client < |w.db.nodes| && w.db.nodes[client].role == Client
    ensures var nodes := w.db.nodes;
            && (FullyRouted(nodes) <==> PrefixesFit(nodes) && (Addressed(nodes[0]) || NoServers(nodes)))
            && (PrefixesFit(nodes) <==> Exclusive(nodes) && Covered(nodes))
  {
    hide Pending, Reserved, Ledger, Live, Meshed, Consistent, FullyRouted, PrefixesFit, Exclusive, Covered, Addressed, NoServers;
    assert Meshed(w.db.nodes, w.db.nodes) && Consistent(w.db.nodes);
    hide Inv;
    RoutedExactly(w.db.nodes, client);
    FitExactly(w.db.nodes);
  }

  /**
   * After any run, custom subnets and removed servers included: exactly which address of a live server a live
   * client reaches. jc and js are their positions in the table the gateway was last refreshed with.
   */
  lemma {:induction false} ReachesExactly(cs: seq<Command>, c: nat, s: nat, jc: nat, js: nat, d: IPv4)
    requires FreshRun(EMPTY, cs)
    requires var w := Exec(EMPTY, cs);
             && c < |w.db.nodes| && s < |w.db.nodes| && w.db.nodes[c].role == Client && w.db.nodes[s].role == Server
             && jc < |w.snapshot| && js < |w.snapshot|
             && Core(w.db.nodes[c]) == Core(w.snapshot[jc]) && Core(w.db.nodes[s]) == Core(w.snapshot[js])
    ensures var w := Exec(EMPTY, cs);
            RoundTrip(w.db.nodes[c], w.db.nodes[0], w.db.nodes[s], d) <==>
              && Tunnelled(d) && d != w.db.nodes[0].address.ip && Addressed(w.db.nodes[0])
              && Wins(w.snapshot, js, d) && Wins(w.snapshot, jc, w.db.nodes[c].address.ip)
  {
    Reached(cs);
    var w := Exec(EMPTY, cs);
    hide Exec, FreshRun, Pending, Reserved, Ledger, Live, Meshed, RoundTrip, Tunnelled, Wins, Addressed;
    assert Meshed(w.db.nodes, w.snapshot) && w.db.nodes[0].role == Gateway;
    hide Inv;
    RoundTripExactly(w.db.nodes, w.snapshot, c, s, jc, js, d);
  }

  // ---- custom subnets that do not fit

  lemma {:induction false} FewRoles(nodes: Table, roles: set<Role>)
    ensures CountRoles(nodes, roles) <= |nodes|
  {
    if nodes != [] {
      FewRoles(nodes[..|nodes| - 1], roles);
    }
  }

  lemma RoomAtFirst(db: Db)
    requires |db.nodes| <= 3 && db.requests == []
    ensures SubnetLeft(db) && ClientLeft(db)
  {
    FewRoles(db.nodes, DOCKER_ROLES);
  }

  lemma ForcedServerTable(nodes: Table, subnet: string, net: IPNet, f: Fresh)
    requires Consistent(nodes) && Unused(nodes, f) && 1 <= |nodes| <= 3
    requires ParseNet(subnet, true) == Success(net) && !SubnetUsed(nodes, net)
    ensures var t := Registry.CreateServer(nodes, Some(subnet), f);
            && t.result.Success? && |t.nodes| == |nodes| + 1 && SameCores(nodes, t.nodes[..|nodes|])
            && t.nodes[|nodes|].role == Server && t.nodes[|nodes|].dockerSubnet == Some(net)
  {
    hide FreeIPFrom, ParseNet, SubnetUsed, Consistent, Unused, Registry.CreateServer, Meshed, SameCores;
    FreeIPExists(nodes);
    CreateServerEffect(nodes, Some(subnet), f);
    assert ChooseSubnet(nodes, Some(subnet)) == Success(net);
    hide Newcomer, NextWGPrivateIP;
    GrownNewcomer(nodes, Registry.CreateServer(nodes, Some(subnet), f).nodes, Server, f);
  }

  lemma PerformForced(db: Db, subnet: string, f: Fresh)
    requires SubnetLeft(db) && ClientLeft(db) && subnet != ""
    requires ParseNet(subnet, true).Success? && !SubnetUsed(db.nodes, ParseNet(subnet, true).value)
    ensures Perform(db, NewServer(true, subnet, f)) == FromWritten(db, Registry.CreateServer(db.nodes, Some(subnet), f))
  {
    hide SubnetLeft, ClientLeft, ParseNet, SubnetUsed, Registry.CreateServer;
  }

  lemma DirectClientTable(nodes: Table, f: Fresh)
    requires Consistent(nodes) && Unused(nodes, f) && 1 <= |nodes| <= 3
    ensures var t := Registry.CreateClient(nodes, f);
            && t.result.Success? && |t.nodes| == |nodes| + 1 && SameCores(nodes, t.nodes[..|nodes|])
            && t.nodes[|nodes|].role == Client
  {
    hide FreeIPFrom, Consistent, Unused, Registry.CreateClient, Meshed, SameCores;
    FreeIPExists(nodes);
    CreateClientEffect(nodes, f);
    hide Newcomer, NextWGPrivateIP;
    GrownNewcomer(nodes, Registry.CreateClient(nodes, f).nodes, Client, f);
  }

  lemma PerformDirect(db: Db, f: Fresh)
    requires Consistent(db.nodes) && db.nodes != [] && ClientLeft(db)
    ensures Perform(db, NewClient(false, f)) == FromWritten(db, Registry.CreateClient(db.nodes, f))
  {
    CurrentIsGateway(db.nodes);
    hide Consistent, ClientLeft, FindCurrent, Registry.CreateClient;
  }

  lemma InvParts(w: World)
    requires Inv(w)
    ensures Consistent(w.db.nodes) && Ledger(w)
  {
    hide Consistent, Ledger, Pending, Reserved, Live, Meshed;
  }

  /** Creating a server with a free forced subnet on an almost empty gateway. */
  lemma ForcedServerStep(w: World, subnet: string, net: IPNet, f: Fresh)
    requires Inv(w) && NewlyDrawn(w, NewServer(true, subnet, f)) && 1 <= |w.db.nodes| <= 3 && w.db.requests == []
    requires subnet != "" && ParseNet(subnet, true) == Success(net) && !SubnetUsed(w.db.nodes, net)
    ensures var w', n := Step(w, NewServer(true, subnet, f)), |w.db.nodes|;
            && Inv(w') && w'.db.requests == [] && w'.snapshot == w'.db.nodes
            && |w'.db.nodes| == n + 1 && SameCores(w.db.nodes, w'.db.nodes[..n])
            && w'.db.nodes[n].role == Server && w'.db.nodes[n].dockerSubnet == Some(net)
            && w'.ids == w.ids + {f.id} && w'.keys == w.keys + {f.publicKey}
  {
    hide Inv, SubnetLeft, ClientLeft, ParseNet, SubnetUsed, Unused, Registry.CreateServer, SameCores, Perform, Consistent, Ledger;
    var c := NewServer(true, subnet, f);
    StepKeepsInv(w, c);
    RoomAtFirst(w.db);
    InvParts(w);
    UnusedRows(w, f);
    ForcedServerTable(w.db.nodes, subnet, net, f);
    PerformForced(w.db, subnet, f);
  }

  lemma DirectClientStep(w: World, f: Fresh)
    requires Inv(w) && NewlyDrawn(w, NewClient(false, f)) && 1 <= |w.db.nodes| <= 3 && w.db.requests == []
    ensures var w', n := Step(w, NewClient(false, f)), |w.db.nodes|;
            && Inv(w') && w'.snapshot == w'.db.nodes
            && |w'.db.nodes| == n + 1 && SameCores(w.db.nodes, w'.db.nodes[..n]) && w'.db.nodes[n].role == Client
  {
    hide Inv, SubnetLeft, ClientLeft, Unused, Registry.CreateClient, SameCores, Perform, Consistent, Ledger;
    var c := NewClient(false, f);
    StepKeepsInv(w, c);
    RoomAtFirst(w.db);
    InvParts(w);
    UnusedRows(w, f);
    DirectClientTable(w.db.nodes, f);
    PerformDirect(w.db, f);
  }

  lemma StartStep(site: Site, f: Fresh)
    ensures var c := StartingGateway(site, f);
            var w := Step(EMPTY, c);
            && NewlyDrawn(EMPTY, c) && Inv(w) && |w.db.nodes| == 1 && w.db.nodes[0].dockerSubnet.None? && w.db.requests == []
            && w.ids == {f.id} && w.keys == {f.publicKey}
  {
    EmptyInv();
    StepKeepsInv(EMPTY, StartingGateway(site, f));
    LoneStart(site, f);
    hide Inv, Step;
  }

  const WIDE := IPNet(IPv4(172, 20, 0, 0), 16)
  const NARROW := IPNet(IPv4(172, 20, 1, 0), 24)

  lemma OverlappingTexts()
    ensures ParseNet("172.20.0.0/16", true) == Success(WIDE) && ParseNet("172.20.1.0/24", true) == Success(NARROW)
    ensures Overlap(WIDE, NARROW)
  {
    FirstSubnetText();
    hide ParseNet;
    assert PrintNat(172) == "172" && PrintNat(20) == "20" && PrintNat(0) == "0" && PrintNat(1) == "1" && PrintNat(24) == "24";
    assert "172.20.1.0/24" == PrintNet(NARROW);
    NetRoundTrip(NARROW, true);
    Contains16(WIDE.ip, NARROW.ip);
  }

  lemma FourSteps(w: World, a: Command, b: Command, c: Command, d: Command)
    ensures Exec(w, [a, b, c, d]) == Step(Step(Step(Step(w, a), b), c), d)
    ensures FreshRun(w, [a, b, c, d]) <==>
            && NewlyDrawn(w, a) && NewlyDrawn(Step(w, a), b) && NewlyDrawn(Step(Step(w, a), b), c)
            && NewlyDrawn(Step(Step(Step(w, a), b), c), d)
  {
    hide Step, NewlyDrawn;
    UnfoldRun(w, [a, b, c, d]);
    assert [a, b, c, d][1..] == [b, c, d];
    ThreeSteps(Step(w, a), b, c, d);
  }

  predicate FourDistinct<T(==)>(a: T, b: T, c: T, d: T) {
    a != b && a != c && a != d && b != c && b != d && c != d
  }

  /**
   * Custom subnets can break routing: the admission check compares texts, so it accepts 172.20.1.0/24 next
   * to 172.20.0.0/16, and then some address of a server is out of reach of a client.
   */
  lemma OverlapBreaksRouting(site: Site, f0: Fresh, f1: Fresh, f2: Fresh, f3: Fresh)
    requires FourDistinct(f0.id, f1.id, f2.id, f3.id)
    requires FourDistinct(f0.publicKey, f1.publicKey, f2.publicKey, f3.publicKey)
    ensures var cs := [StartingGateway(site, f0), NewServer(true, "172.20.0.0/16", f1),
                       NewServer(true, "172.20.1.0/24", f2), NewClient(false, f3)];
            && FreshRun(EMPTY, cs)
            && var nodes := Exec(EMPTY, cs).db.nodes;
               && |nodes| == 4 && nodes[1].role == Server && nodes[2].role == Server && nodes[3].role == Client
               && !FullyRouted(nodes)
  {
    var c0, c1 := StartingGateway(site, f0), NewServer(true, "172.20.0.0/16", f1);
    var c2, c3 := NewServer(true, "172.20.1.0/24", f2), NewClient(false, f3);
    OverlappingTexts();
    FourSteps(EMPTY, c0, c1, c2, c3);
    hide Inv, ParseNet, Step, Exec, FreshRun, Overlap, FullyRouted, Core;
    StartStep(site, f0);
    var w1 := Step(EMPTY, c0);
    ForcedServerStep(w1, "172.20.0.0/16", WIDE, f1);
    var w2 := Step(w1, c1);
    SameSubnets(w1.db.nodes, w2.db.nodes);
    ForcedServerStep(w2, "172.20.1.0/24", NARROW, f2);
    var w3 := Step(w2, c2);
    SameSubnets(w2.db.nodes, w3.db.nodes);
    DirectClientStep(w3, f3);
    var w4 := Step(w3, c3);
    SameSubnets(w3.db.nodes, w4.db.nodes);
    hide SameCores;
    RoutedByPrefixes(w4, 3);
    OverlapMisfits(w4.db.nodes, 1, 2);
    hide PrefixesFit;
  }

  lemma SameSubnets(a: Table, b: Table)
    requires |a| <= |b| && SameCores(a, b[..|a|])
    ensures forall i :: 0 <= i < |a| ==> b[i].dockerSubnet == a[i].dockerSubnet && b[i].role == a[i].role
  {
    forall i | 0 <= i < |a|
      ensures b[i].dockerSubnet == a[i].dockerSubnet && b[i].role == a[i].role
    {
      assert Core(a[i]) == Core(b[..|a|][i]);
    }
  }

  lemma OverlapMisfits(nodes: Table, i: nat, j: nat)
    requires i < j < |nodes| && nodes[i].dockerSubnet.Some? && nodes[j].dockerSubnet.Some?
    requires Overlap(nodes[i].dockerSubnet.value, nodes[j].dockerSubnet.value)
    ensures !PrefixesFit(nodes)
  {
    assert !SubnetsApart(nodes[i], nodes[j]);
  }

  // ---- peer agreement

  /** The gateway lists a live spoke, or a server removed since the last refresh. */
  ghost predicate Listed(w: World, p: Peer) {
    || (exists i :: 1 <= i < |w.db.nodes| && WellFormed(w.db.nodes[i]) && p == PeerFor(w.db.nodes[i]))
    || (exists j :: 1 <= j < |w.snapshot| && WellFormed(w.snapshot[j]) && w.snapshot[j].role == Server
                    && w.snapshot[j].id in w.removed && p == PeerFor(w.snapshot[j]))
  }

  lemma {:induction false} WithoutKeeps(nodes: Table, ids: set<string>, j: nat) returns (i: nat)
    requires j < |nodes| && nodes[j].id !in ids
    ensures i < |Without(nodes, ids)| && Without(nodes, ids)[i] == nodes[j]
  {
    var n := |nodes| - 1;
    if j < n {
      i := WithoutKeeps(nodes[..n], ids, j);
    } else {
      i := |Without(nodes[..n], ids)|;
    }
  }

  lemma SnapshotRowIsLive(w: World, j: nat) returns (i: nat)
    requires Inv(w) && 1 <= j < |w.snapshot| && w.snapshot[j].id !in w.removed && w.db.nodes != []
    ensures 1 <= i < |w.db.nodes| && Core(w.db.nodes[i]) == Core(w.snapshot[j])
    ensures WellFormed(w.db.nodes[i])
  {
    hide Pending, Reserved, Ledger;
    i := WithoutKeeps(w.snapshot, w.removed, j);
    assert Core(w.db.nodes[i]) == Core(Without(w.snapshot, w.removed)[i]);
    assert w.snapshot[j].role != Gateway;
  }

  /**
   * Peer agreement: after every run the gateway's peers are exactly those of the live clients and
   * servers and of the servers removed since the last refresh, and every spoke's only peer is the gateway.
   */
  lemma PeerAgreement(cs: seq<Command>, p: Peer)
    requires FreshRun(EMPTY, cs) && Exec(EMPTY, cs).db.nodes != []
    ensures var w := Exec(EMPTY, cs); p in w.db.nodes[0].peers <==> Listed(w, p)
    ensures var nodes := Exec(EMPTY, cs).db.nodes;
            && nodes[0].wgPublicIP.Some? && nodes[0].wgPublicPort.Some?
            && forall i :: 1 <= i < |nodes| ==> nodes[i].peers == [SpokePeer(nodes[0], nodes[i].role)]
  {
    Reached(cs);
    var w := Exec(EMPTY, cs);
    hide Exec, FreshRun;
    AgreementOf(w, p);
  }

  lemma AgreementOf(w: World, p: Peer)
    requires Inv(w) && w.db.nodes != []
    ensures p in w.db.nodes[0].peers <==> Listed(w, p)
  {
    hide Pending, Reserved, Ledger;
    assert w.db.nodes[0].peers == GatewayPeers(w.snapshot);
    PeersAreSpokes(w.snapshot, p);
    if p in GatewayPeers(w.snapshot) {
      var j :| 0 <= j < |w.snapshot| && w.snapshot[j].role != Gateway && p == PeerFor(w.snapshot[j]);
      assert j != 0 && WellFormed(w.snapshot[j]);
      if w.snapshot[j].id !in w.removed {
        var i := SnapshotRowIsLive(w, j);
      } else {
        RemovedIsServer(w, j);
      }
    }
    if i :| 1 <= i < |w.db.nodes| && WellFormed(w.db.nodes[i]) && p == PeerFor(w.db.nodes[i]) {
      var j := MeshPosition(w.db.nodes, w.snapshot, i);
      assert w.snapshot[j].role != Gateway && p == PeerFor(w.snapshot[j]);
    }
  }

  /**
   * Nothing is lost on the way through text: for every live spoke the gateway has one peer entry under its
   * key, with exactly two allowed IPs for a server and exactly one for a client.
   */
  lemma PeerPerSpoke(cs: seq<Command>, i: nat)
    requires FreshRun(EMPTY, cs) && 1 <= i < |Exec(EMPTY, cs).db.nodes|
    ensures var nodes := Exec(EMPTY, cs).db.nodes;
            var n := nodes[i];
            && (n.role == Server ==> n.dockerSubnet.Some?)
            && var allowed := if n.role == Server then [HostNet(n), n.dockerSubnet.value] else [HostNet(n)];
               && Peer(n.publicKey, None, allowed, None) in nodes[0].peers
               && forall q :: q in nodes[0].peers && q.publicKey == n.publicKey ==> q.allowedIPs == allowed
  {
    Reached(cs);
    hide Exec, FreshRun, Inv;
    WholePeer(Exec(EMPTY, cs), i);
  }

  lemma MeshPeers(w: World)
    requires Inv(w) && w.db.nodes != []
    ensures Meshed(w.db.nodes, w.snapshot) && Consistent(w.snapshot) && ServersHaveSubnets(w.snapshot)
    ensures w.db.nodes[0].peers == GatewayPeers(w.snapshot)
  {
    hide Pending, Reserved, Ledger, Live;
  }

  lemma WholePeer(w: World, i: nat)
    requires Inv(w) && 1 <= i < |w.db.nodes|
    ensures var n := w.db.nodes[i];
            && (n.role == Server ==> n.dockerSubnet.Some?)
            && var allowed := if n.role == Server then [HostNet(n), n.dockerSubnet.value] else [HostNet(n)];
               && Peer(n.publicKey, None, allowed, None) in w.db.nodes[0].peers
               && forall q :: q in w.db.nodes[0].peers && q.publicKey == n.publicKey ==> q.allowedIPs == allowed
  {
    hide Inv, Meshed, GatewayPeers, Consistent, ServersHaveSubnets, Contains;
    MeshPeers(w);
    var j := MeshPosition(w.db.nodes, w.snapshot, i);
    var n, m := w.db.nodes[i], w.snapshot[j];
    assert n.role == m.role && n.dockerSubnet == m.dockerSubnet && n.publicKey == m.publicKey && HostNet(n) == HostNet(m);
    PeerOfRow(w.snapshot, j, PeerFor(m));
    forall q | q in w.db.nodes[0].peers && q.publicKey == n.publicKey
      ensures q == PeerFor(m)
    {
      PeerOfRow(w.snapshot, j, q);
    }
    assert PeerFor(m).allowedIPs == if n.role == Server then [HostNet(n), n.dockerSubnet.value] else [HostNet(n)];
  }

  lemma PeerOfRow(nodes: Table, j: nat, q: Peer)
    requires Consistent(nodes) && ServersHaveSubnets(nodes) && 1 <= j < |nodes|
    ensures PeerFor(nodes[j]) in GatewayPeers(nodes)
    ensures q in GatewayPeers(nodes) && q.publicKey == nodes[j].publicKey ==> q == PeerFor(nodes[j])
  {
    PeersAreSpokes(nodes, PeerFor(nodes[j]));
    PeersAreSpokes(nodes, q);
    hide GatewayPeers;
    assert nodes[j].role != Gateway;
    if k :| 0 <= k < |nodes| && nodes[k].role != Gateway && q == PeerFor(nodes[k]) && k != j {
      assert if j < k then Apart(nodes[j], nodes[k]) else Apart(nodes[k], nodes[j]);
    }
  }

  lemma RemovedIsServer(w: World, j: nat)
    requires Consistent(w.snapshot) && Live(w) && j < |w.snapshot| && w.snapshot[j].id in w.removed
    ensures w.snapshot[j].role == Server
  {
    assert IsServer(w.snapshot, w.snapshot[j].id);
    var k :| 0 <= k < |w.snapshot| && w.snapshot[k].id == w.snapshot[j].id && w.snapshot[k].role == Server;
    DistinctIds(w.snapshot);
  }

  /** After a creation the agreement is exact: one peer per live spoke, in table order. */
  lemma ExactAfterCreation(cs: seq<Command>, c: Command)
    requires FreshRun(EMPTY, cs + [c]) && FreshRun(EMPTY, cs)
    requires var o := Perform(Exec(EMPTY, cs).db, c).1; o.Created? || o.Joined?
    ensures var nodes := Exec(EMPTY, cs + [c]).db.nodes;
            && nodes != [] && ServersHaveSubnets(nodes)
            && nodes[0].peers == GatewayPeers(nodes) && nodes[0].dns == GatewayDNS(nodes)
            && |nodes[0].peers| == |nodes| - 1
  {
    ExecAppend(EMPTY, cs, c);
    Reached(cs + [c]);
    var w := Exec(EMPTY, cs + [c]);
    assert w.snapshot == w.db.nodes;
    CreationLeavesRows(cs, c);
    hide Exec, FreshRun, Pending, Reserved, Ledger, Live, Perform;
    assert Meshed(w.db.nodes, w.db.nodes);
    OnePeerEach(w.db.nodes);
  }

  lemma CreationLeavesRows(cs: seq<Command>, c: Command)
    requires FreshRun(EMPTY, cs + [c]) && FreshRun(EMPTY, cs)
    requires var o := Perform(Exec(EMPTY, cs).db, c).1; o.Created? || o.Joined?
    ensures Exec(EMPTY, cs + [c]).db.nodes != []
  {
    ExecAppend(EMPTY, cs, c);
    Reached(cs);
    var w := Exec(EMPTY, cs);
    hide Exec, FreshRun;
    if c.StartingGateway? {
      FirstGateway(c.site, c.f);
    } else if w.db.nodes == [] {
      CurrentIsGateway(w.db.nodes);
      if c.Joining? {
        JoinEffect(w, c.token, c.f);
      }
    } else {
      StepContinues(w, c);
    }
  }

  lemma {:induction false} ExecAppend(w: World, cs: seq<Command>, c: Command)
    ensures Exec(w, cs + [c]) == Step(Exec(w, cs), c)
    ensures FreshRun(w, cs + [c]) ==> NewlyDrawn(Exec(w, cs), c)
    decreases |cs|
  {
    hide Step, NewlyDrawn;
    if cs == [] {
      assert [] + [c] == [c];
      assert [c][1..] == [];
      assert Exec(Step(w, c), []) == Step(w, c);
    } else {
      ExecAppend(Step(w, cs[0]), cs[1..], c);
      assert (cs + [c])[1..] == cs[1..] + [c];
    }
  }

  lemma {:induction false} OnePeerEach(nodes: Table)
    requires Consistent(nodes) && nodes != [] && ServersHaveSubnets(nodes)
    ensures |GatewayPeers(nodes)| == |nodes| - 1
  {
    var n := |nodes| - 1;
    if n == 0 {
      assert nodes[..0] == [];
    } else {
      assert nodes[..n][0] == nodes[0];
      OnePeerEach(nodes[..n]);
    }
  }

  // ---- certificates

  /**
   * Certificate map: after every run the gateway holds a certificate for every live client and server
   * and every pending request, for removed servers, and for nothing else; never for a consumed request.
   */
  lemma CertificateMap(cs: seq<Command>)
    requires FreshRun(EMPTY, cs) && Exec(EMPTY, cs).db.nodes != []
    ensures var w := Exec(EMPTY, cs);
            var held := w.db.nodes[0].certs.Keys;
            && held == SpokeIds(w.db.nodes) + RequestIds(w.db.requests) + w.gone
            && held !! w.consumed
  {
    Reached(cs);
    hide Exec, FreshRun, Meshed, Consistent, Live, SpokeIds, RequestIds;
  }

  // ---- configurations never go stale

  /** Every row of a is a row of b with the same core, unless its server was removed; the hub stays first. */
  ghost predicate Persists(a: Table, b: Table, gone: set<string>) {
    && (a != [] ==> b != [] && Core(b[0]) == Core(a[0]))
    && forall i :: 0 <= i < |a| && a[i].id !in gone ==> exists j :: 0 <= j < |b| && Core(b[j]) == Core(a[i])
  }

  lemma ContinuesPersists(a: Table, b: Table, gone: set<string>)
    requires Continues(a, b)
    ensures Persists(a, b, gone)
  {
    forall i | 0 <= i < |a|
      ensures Core(b[i]) == Core(a[i])
    {
      assert Core(a[i]) == Core(b[..|a|][i]);
    }
  }

  lemma RemovalPersists(a: Table, k: nat, gone: set<string>)
    requires 1 <= k < |a| && a[k].id in gone
    ensures Persists(a, a[..k] + a[k + 1..], gone)
  {
    var b := a[..k] + a[k + 1..];
    forall i | 0 <= i < |a| && a[i].id !in gone
      ensures exists j :: 0 <= j < |b| && Core(b[j]) == Core(a[i])
    {
      assert b[if i < k then i else i - 1] == a[i];
    }
  }

  lemma PersistsAt(a: Table, b: Table, gone: set<string>, i: nat) returns (j: nat)
    requires Persists(a, b, gone) && i < |a| && a[i].id !in gone
    ensures j < |b| && Core(b[j]) == Core(a[i]) && b[j].id == a[i].id && b[j].role == a[i].role
  {
    j :| 0 <= j < |b| && Core(b[j]) == Core(a[i]);
  }

  lemma StepPersists(w: World, c: Command)
    requires Inv(w) && NewlyDrawn(w, c)
    ensures Persists(w.db.nodes, Step(w, c).db.nodes, Step(w, c).gone)
  {
    var nodes, w' := w.db.nodes, Step(w, c);
    if c.RemovingServer? && IsServer(nodes, c.id) {
      var k :| 0 <= k < |nodes| && nodes[k].id == c.id && nodes[k].role == Server;
      DistinctIds(nodes);
      DeleteServerAt(nodes, k);
      assert k != 0;
      hide Inv, DeleteServer;
      RemovalPersists(nodes, k, w'.gone);
    } else {
      StepContinues(w, c);
      hide Inv, Perform;
      ContinuesPersists(nodes, w'.db.nodes, w'.gone);
    }
  }

  lemma PersistsTrans(a: Table, b: Table, c: Table, gone: set<string>, more: set<string>)
    requires Persists(a, b, gone) && Persists(b, c, more) && gone <= more
    ensures Persists(a, c, more)
  {
    forall i | 0 <= i < |a| && a[i].id !in more
      ensures exists j :: 0 <= j < |c| && Core(c[j]) == Core(a[i])
    {
      var j :| 0 <= j < |b| && Core(b[j]) == Core(a[i]);
      assert b[j].id == a[i].id;
    }
  }

  lemma {:induction false} RunPersists(w: World, cs: seq<Command>)
    requires Inv(w) && FreshRun(w, cs)
    ensures Persists(w.db.nodes, Exec(w, cs).db.nodes, Exec(w, cs).gone)
    decreases |cs|
  {
    if cs == [] {
      hide Inv;
      SameContinues(w.db.nodes, w.db.nodes);
      ContinuesPersists(w.db.nodes, w.db.nodes, w.gone);
    } else {
      StepPersists(w, cs[0]);
      StepKeepsInv(w, cs[0]);
      hide Inv, Step, Persists, NewlyDrawn;
      var v := Step(w, cs[0]);
      RunPersists(v, cs[1..]);
      ConsumedGrows(v, cs[1..]);
      PersistsTrans(w.db.nodes, v.db.nodes, Exec(v, cs[1..]).db.nodes, v.gone, Exec(v, cs[1..]).gone);
    }
  }

  /**
   * A client's WireGuard configuration, written out once when it joins, never goes stale: whatever
   * commands follow, the registry would still give the same peers, DNS, address and key.
   */
  lemma ClientConfigNeverStale(cs: seq<Command>, more: seq<Command>, i: nat)
    requires FreshRun(EMPTY, cs) && FreshRun(Exec(EMPTY, cs), more)
    requires i < |Exec(EMPTY, cs).db.nodes| && Exec(EMPTY, cs).db.nodes[i].role == Client
    ensures var n := Exec(EMPTY, cs).db.nodes[i];
            var later := Exec(Exec(EMPTY, cs), more).db.nodes;
            exists j :: 0 <= j < |later| && Core(later[j]) == Core(n) && later[j].peers == n.peers && later[j].dns == n.dns
  {
    Reached(cs);
    var w := Exec(EMPTY, cs);
    hide Exec, FreshRun, Step;
    RunPersists(w, more);
    RunKeepsInv(w, more);
    var w' := Exec(w, more);
    ClientStillThere(w, more, i);
    var n := w.db.nodes[i];
    var j :| 0 <= j < |w'.db.nodes| && Core(w'.db.nodes[j]) == Core(n);
    SameConfig(w, w', i, j);
  }

  lemma SameConfig(w: World, w': World, i: nat, j: nat)
    requires Inv(w) && Inv(w') && i < |w.db.nodes| && j < |w'.db.nodes| && w.db.nodes[i].role == Client
    requires Core(w'.db.nodes[j]) == Core(w.db.nodes[i]) && Core(w'.db.nodes[0]) == Core(w.db.nodes[0])
    ensures w'.db.nodes[j].peers == w.db.nodes[i].peers && w'.db.nodes[j].dns == w.db.nodes[i].dns
  {
    hide Pending, Reserved, Ledger, Live;
    assert i != 0 && j != 0;
    assert w.db.nodes[i].peers == [SpokePeer(w.db.nodes[0], Client)];
    assert w'.db.nodes[j].peers == [SpokePeer(w'.db.nodes[0], Client)];
  }

  lemma ClientNotGone(w: World, i: nat)
    requires Inv(w) && i < |w.db.nodes| && w.db.nodes[i].role == Client
    ensures w.db.nodes[i].id !in w.gone
  {
    hide Pending, Reserved, Live, Meshed;
    assert i != 0 && w.db.nodes[i].id in SpokeIds(w.db.nodes);
  }

  lemma ClientIsNoServer(nodes: Table, i: nat)
    requires Consistent(nodes) && i < |nodes| && nodes[i].role == Client
    ensures !IsServer(nodes, nodes[i].id)
  {
    DistinctIds(nodes);
    hide Consistent;
  }

  lemma ClientNotRemoved(w: World, c: Command, i: nat)
    requires Inv(w) && i < |w.db.nodes| && w.db.nodes[i].role == Client
    ensures w.db.nodes[i].id !in Step(w, c).gone
  {
    ClientNotGone(w, i);
    ClientIsNoServer(w.db.nodes, i);
    hide Inv, Perform, IsServer;
  }

  /** Only servers ever go, so a client's row persists. */
  lemma {:induction false} ClientStillThere(w: World, cs: seq<Command>, i: nat)
    requires Inv(w) && FreshRun(w, cs) && i < |w.db.nodes| && w.db.nodes[i].role == Client
    ensures w.db.nodes[i].id !in Exec(w, cs).gone
    decreases |cs|
  {
    if cs == [] {
      ClientNotGone(w, i);
    } else {
      var v := Step(w, cs[0]);
      ClientNotRemoved(w, cs[0], i);
      StepPersists(w, cs[0]);
      StepKeepsInv(w, cs[0]);
      hide Inv, Step, NewlyDrawn;
      var j := PersistsAt(w.db.nodes, v.db.nodes, v.gone, i);
      ClientStillThere(v, cs[1..], j);
    }
  }

  /**
   * In every reachable table a refresh succeeds, so no server lacks a subnet; it rewrites peers and DNS
   * only; and refreshing twice is refreshing once.
   */
  lemma RefreshAlwaysDefined(cs: seq<Command>)
    requires FreshRun(EMPTY, cs) && Exec(EMPTY, cs).db.nodes != []
    ensures var nodes := Exec(EMPTY, cs).db.nodes;
            && Refresh(nodes).Success?
            && Refresh(Refresh(nodes).value) == Refresh(nodes)
            && |Refresh(nodes).value| == |nodes|
            && forall i :: 0 <= i < |nodes| ==> Identity(Refresh(nodes).value[i]) == Identity(nodes[i])
  {
    Reached(cs);
    var nodes := Exec(EMPTY, cs).db.nodes;
    hide Exec, FreshRun;
    RefreshWellDefined(nodes);
    RefreshIdempotent(nodes);
    RefreshFrame(nodes);
    hide Inv, Refresh;
  }

  /** The gateway keeps its identity and 10.0.0.1 for ever. */
  lemma GatewayForever(cs: seq<Command>, more: seq<Command>)
    requires FreshRun(EMPTY, cs) && FreshRun(Exec(EMPTY, cs), more) && Exec(EMPTY, cs).db.nodes != []
    ensures var now, later := Exec(EMPTY, cs).db.nodes, Exec(Exec(EMPTY, cs), more).db.nodes;
            && later != [] && Core(later[0]) == Core(now[0])
            && later[0].role == Gateway && later[0].address.ip == IPv4(10, 0, 0, 1)
            && forall i :: 1 <= i < |later| ==> later[i].role != Gateway
  {
    Reached(cs);
    var w := Exec(EMPTY, cs);
    hide Exec, FreshRun, Step;
    RunPersists(w, more);
    RunKeepsInv(w, more);
  }
}
