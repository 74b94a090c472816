/**
 * One attempt to join when steps fail: when it succeeds, when a refused attempt leaves a node behind, and how
 * a failed attempt with a forced subnet makes its token useless.
 */
module Joining {
  import opened Common
  import opened Addresses
  import opened Registry
  import opened Routing
  import opened Admission
  import opened Runs
  import opened Guarantees

  /** How an attempt treats the request table: a success deletes the token's row, anything else leaves it. */
  lemma AttemptRequests(db: Db, token: Request, f: Fresh, fault: Option<JoinStep>)
    ensures var (after, o) := JoinAttempt(db, token, f, fault);
            && (o.Joined? ==> GetRequest(db.requests, token.id) == Some(token)
                              && after.requests == DeleteRequest(db.requests, token.id))
            && (!o.Joined? ==> after.requests == db.requests)
  {
    hide CreateFor, FindGateway, SaveNode;
    GetRequestFinds(db.requests, token.id);
  }

  // ---- what a failed attempt leaves behind

  /** The steps at which a failure comes too late to take the node back. */
  predicate TooLate(step: JoinStep, role: Role) {
    || step in {RefreshPeers, ReloadNode, LoadGateway, ListServices, SaveConfigs, SaveGatewayRow, DeleteRequestRow}
    || (step == RestartWireguard && role == Client)
  }

  /** What an attempt needs of the table at its insertion. */
  predicate Room(nodes: Table, token: Request) {
    && nodes != [] && NextWGPrivateIP(nodes).Some?
    && (token.role == Server ==> ChooseSubnet(nodes, token.dockerSubnet).Success?)
  }

  /** The token's request is pending, and one of a server or client. */
  predicate PendingToken(db: Db, r: Request) {
    GetRequest(db.requests, r.id) == Some(r) && r.role != Gateway
  }

  lemma CreatesInRoom(nodes: Table, token: Request, f: Fresh)
    requires Consistent(nodes) && Unused(nodes, f) && token.role != Gateway
    ensures var w := CreateFor(nodes, token, f, None);
            && (w.result.Success? <==> Room(nodes, token))
            && (w.result.Failure? ==> w.nodes == nodes)
            && (w.result.Success? ==> Grown(nodes, w.nodes, token.role, f) && w.result.value == w.nodes[|nodes|])
  {
    hide Consistent, Unused, CreateFor, Registry.CreateServer, Registry.CreateClient, Grown, NextWGPrivateIP, ChooseSubnet;
    CreateForIs(nodes, token, f);
    if token.role == Server {
      CreateServerEffect(nodes, token.dockerSubnet, f);
    } else {
      CreateClientEffect(nodes, f);
    }
  }

  lemma FinishesGrown(db: Db, token: Request, f: Fresh, t: Table)
    requires Grown(db.nodes, t, token.role, f)
    ensures |t| == |db.nodes| + 1 && db.nodes != []
    ensures var r := FinishJoin(Db(t, db.requests), token, t[|db.nodes|], None); r.1.Joined? && |r.0.nodes| == |db.nodes| + 1
  {
    GrownNonempty(db.nodes, t, token.role, f);
    FinishEffect(db, token, f, t, t[|db.nodes|]);
    hide FinishJoin, Consistent, Meshed, SameCores, Newcomer;
  }

  function Inserted(nodes: Table, r: Request, f: Fresh): Result<Table, Error> {
    if r.role == Server then InsertServer(nodes, r.dockerSubnet, f) else InsertClient(nodes, f)
  }

  /** Insertion succeeds exactly where there is room, and keeps the table consistent. */
  lemma InsertsInRoom(nodes: Table, r: Request, f: Fresh)
    requires Consistent(nodes) && Unused(nodes, f) && r.role != Gateway
    ensures Inserted(nodes, r, f).Success? <==> Room(nodes, r)
    ensures Room(nodes, r) ==>
              var t := Inserted(nodes, r, f).value;
              && |t| == |nodes| + 1 && Consistent(t)
              && (r.role == Server ==> t[|nodes|].role == Server
                                       && t[|nodes|].dockerSubnet == Some(ChooseSubnet(nodes, r.dockerSubnet).value))
  {
    CurrentIsGateway(nodes);
    hide NextWGPrivateIP, ChooseSubnet, SaveNode, FindGateway, FindCurrent, Unused;
    if Inserted(nodes, r, f).Success? {
      if r.role == Server {
        InsertServerShape(nodes, r.dockerSubnet, f);
        InsertServerEffect(nodes, r.dockerSubnet, f);
      } else {
        InsertClientEffect(nodes, f);
      }
      hide Consistent;
    }
  }

  /**
   * An attempt that fails after its insertion is refused, keeps the request pending, and leaves one
   * node more: retries of one token can create several nodes.
   */
  lemma FailedAttemptLeaksNode(db: Db, r: Request, f: Fresh, step: JoinStep)
    requires Consistent(db.nodes) && Unused(db.nodes, f) && PendingToken(db, r) && Room(db.nodes, r) && TooLate(step, r.role)
    ensures var (after, o) := JoinAttempt(db, r, f, Some(step));
            && o.Refused? && after.requests == db.requests && |after.nodes| == |db.nodes| + 1 && Consistent(after.nodes)
            && (r.role == Server ==> SubnetUsed(after.nodes, ChooseSubnet(db.nodes, r.dockerSubnet).value))
  {
    hide JoinAttempt, Inserted, Consistent, Unused, Refresh, GetRequest, ParseNet, ChooseSubnet, NextWGPrivateIP;
    InsertsInRoom(db.nodes, r, f);
    var t, n := Inserted(db.nodes, r, f).value, |db.nodes|;
    RefreshWellDefined(t);
    LateFailure(db, r, f, step, t);
    var after := JoinAttempt(db, r, f, Some(step)).0;
    ConsistentSameCores(t, after.nodes);
    assert Core(after.nodes[n]) == Core(t[n]);
    if r.role == Server {
      assert after.nodes[n].role == Server && after.nodes[n].dockerSubnet == t[n].dockerSubnet;
    }
  }

  lemma SaveGatewayCores(t: Table, gw: Node)
    requires Consistent(t) && t != [] && Core(gw) == Core(t[0])
    ensures SameCores(t, SaveNode(t, gw))
  {
    SaveGateway(t, gw);
  }

  lemma LateCreation(db: Db, r: Request, f: Fresh, step: JoinStep, t: Table)
    requires r.role != Gateway && TooLate(step, r.role)
    requires Inserted(db.nodes, r, f) == Success(t)
    requires Refresh(t).Success?
    ensures var w := CreateFor(db.nodes, r, f, Some(step));
            || (w.nodes == t && w.result.Failure?)
            || w.nodes == Refresh(t).value
  {
    hide InsertServer, InsertClient, Refresh, GetByID;
  }

  lemma LateFinish(db: Db, r: Request, node: Node, step: JoinStep)
    requires TooLate(step, r.role) && step != RefreshPeers && step != ReloadNode
    ensures var (after, o) := FinishJoin(db, r, node, Some(step));
            && o.Refused? && after.requests == db.requests
            && (after.nodes == db.nodes
                || (FindGateway(db.nodes).Some? && after.nodes == SaveNode(db.nodes, DropCert(FindGateway(db.nodes).value, r.id))))
  {
    hide SaveNode, FindGateway, DeleteRequest;
  }

  lemma LateNeedsReload(db: Db, r: Request, f: Fresh, step: JoinStep)
    requires step == RefreshPeers || step == ReloadNode
    ensures CreateFor(db.nodes, r, f, Some(step)).result.Failure?
  {
    hide InsertServer, InsertClient, Refresh, GetByID;
  }

  lemma LateTables(t: Table, r: Request)
    requires t != [] && Refresh(t).Success? && Consistent(Refresh(t).value) && SameCores(t, Refresh(t).value)
    ensures var refreshed := Refresh(t).value;
            && FindGateway(refreshed) == Some(refreshed[0])
            && SameCores(t, SaveNode(refreshed, DropCert(refreshed[0], r.id)))
  {
    var refreshed := Refresh(t).value;
    hide Refresh;
    CurrentIsGateway(refreshed);
    SaveGatewayCores(refreshed, DropCert(refreshed[0], r.id));
    hide Consistent, SaveNode;
    SameCoresTrans(t, refreshed, SaveNode(refreshed, DropCert(refreshed[0], r.id)));
  }

  lemma AttemptUnfolds(db: Db, r: Request, f: Fresh, step: JoinStep)
    requires GetRequest(db.requests, r.id) == Some(r) && r.role != Gateway && TooLate(step, r.role)
    ensures var w := CreateFor(db.nodes, r, f, Some(step));
            JoinAttempt(db, r, f, Some(step)) ==
              match w.result
              case Failure(e) => (db.(nodes := w.nodes), Refused(NodeError(e)))
              case Success(node) => FinishJoin(db.(nodes := w.nodes), r, node, Some(step))
  {
    hide CreateFor, FinishJoin, GetRequest;
  }

  /** The table after a late failure has the cores of the table after the insertion. */
  lemma LateFailure(db: Db, r: Request, f: Fresh, step: JoinStep, t: Table)
    requires GetRequest(db.requests, r.id) == Some(r) && r.role != Gateway && TooLate(step, r.role)
    requires Inserted(db.nodes, r, f) == Success(t)
    requires t != [] && Refresh(t).Success? && Consistent(Refresh(t).value) && SameCores(t, Refresh(t).value)
    ensures var (after, o) := JoinAttempt(db, r, f, Some(step));
            o.Refused? && after.requests == db.requests && SameCores(t, after.nodes)
  {
    LateCreation(db, r, f, step, t);
    LateTables(t, r);
    AttemptUnfolds(db, r, f, step);
    assert SameCores(t, t);
    hide Consistent, Refresh, Inserted, SameCores, JoinAttempt;
    var w := CreateFor(db.nodes, r, f, Some(step));
    if w.result.Success? {
      if step == RefreshPeers || step == ReloadNode {
        LateNeedsReload(db, r, f, step);
      } else {
        LateFinish(db.(nodes := w.nodes), r, w.result.value, step);
      }
    }
    hide CreateFor, FinishJoin, SaveNode, FindGateway, GetRequest;
  }

  /** While a server holds the forced subnet of a token, no attempt with that token succeeds or changes anything. */
  lemma ForcedTokenBlocked(db: Db, r: Request, f: Fresh, fault: Option<JoinStep>)
    requires r.role == Server && r.dockerSubnet.Some? && ParseNet(r.dockerSubnet.value, true).Success?
    requires SubnetUsed(db.nodes, ParseNet(r.dockerSubnet.value, true).value)
    ensures JoinAttempt(db, r, f, fault).0 == db && JoinAttempt(db, r, f, fault).1.Refused?
  {
    hide ParseNet, SubnetUsed, NextWGPrivateIP, SaveNode, RefreshAndReload;
    GetRequestFinds(db.requests, r.id);
    assert InsertServer(db.nodes, r.dockerSubnet, f).Failure?;
    hide InsertServer, GetRequest, FinishJoin;
  }

  /** The steps whose failure does not stop the handler from answering with success. */
  predicate Harmless(step: JoinStep, role: Role) {
    step == EncodeResponse || (step == RestartWireguard && role == Server)
  }

  lemma HarmlessFault(db: Db, r: Request, f: Fresh, step: JoinStep)
    requires Harmless(step, r.role)
    ensures JoinAttempt(db, r, f, Some(step)) == JoinAttempt(db, r, f, None)
  {
    hide InsertServer, InsertClient, RefreshAndReload, SaveNode, FindGateway, GetRequest, DeleteRequest;
  }

  lemma EarlyFault(db: Db, r: Request, f: Fresh, step: JoinStep)
    requires !Harmless(step, r.role) && !TooLate(step, r.role)
    ensures JoinAttempt(db, r, f, Some(step)).0 == db && JoinAttempt(db, r, f, Some(step)).1.Refused?
  {
    hide InsertServer, InsertClient, RefreshAndReload, FinishJoin, GetRequest;
  }

  lemma UnknownFault(db: Db, r: Request, f: Fresh, fault: Option<JoinStep>)
    requires !PendingToken(db, r)
    ensures JoinAttempt(db, r, f, fault).0 == db && JoinAttempt(db, r, f, fault).1.Refused?
  {
    hide CreateFor, FinishJoin, GetRequest;
  }

  lemma NoRoomFault(db: Db, r: Request, f: Fresh, fault: Option<JoinStep>)
    requires PendingToken(db, r) && Inserted(db.nodes, r, f).Failure?
    ensures JoinAttempt(db, r, f, fault).0 == db && JoinAttempt(db, r, f, fault).1.Refused?
  {
    hide InsertServer, InsertClient, RefreshAndReload, FinishJoin, GetRequest;
  }

  lemma FinishKeepsConsistent(t: Table, requests: seq<Request>, r: Request, node: Node)
    requires Consistent(t) && t != []
    ensures Consistent(FinishJoin(Db(t, requests), r, node, None).0.nodes)
  {
    CurrentIsGateway(t);
    SaveGatewayCores(t, DropCert(t[0], r.id));
    ConsistentSameCores(t, SaveNode(t, DropCert(t[0], r.id)));
    hide Consistent, SaveNode, FindGateway, FindCurrent, DeleteRequest;
  }

  lemma GrownConsistent(before: Table, t: Table, role: Role, f: Fresh)
    requires Grown(before, t, role, f)
    ensures Consistent(t) && t != []
  {
    hide Consistent, Meshed, SameCores;
  }

  lemma UndisturbedJoins(db: Db, r: Request, f: Fresh)
    requires Consistent(db.nodes) && Unused(db.nodes, f) && PendingToken(db, r) && Room(db.nodes, r)
    ensures JoinAttempt(db, r, f, None).1.Joined? && Consistent(JoinAttempt(db, r, f, None).0.nodes)
  {
    hide CreateFor, FinishJoin, GetRequest, Room, Unused, Consistent, Grown, JoinAttempt;
    CreatesInRoom(db.nodes, r, f);
    JoinUnfolds(db, r, f);
    var t := CreateFor(db.nodes, r, f, None);
    FinishesGrown(db, r, f, t.nodes);
    GrownConsistent(db.nodes, t.nodes, r.role, f);
    FinishKeepsConsistent(t.nodes, db.requests, r, t.result.value);
  }

  /**
   * Every attempt on a consistent table, whatever fails now or has failed before: it is answered with success
   * exactly when the token's request is pending, the table has room for the node, and nothing fails that stops
   * the handler; and a refused attempt has changed the database exactly when the request was pending, there
   * was room, and the failure came after the insertion.
   */
  lemma AttemptExactly(db: Db, r: Request, f: Fresh, fault: Option<JoinStep>)
    requires Consistent(db.nodes) && Unused(db.nodes, f)
    ensures var (after, o) := JoinAttempt(db, r, f, fault);
            && (o.Joined? || o.Refused?)
            && (o.Joined? <==> PendingToken(db, r) && Room(db.nodes, r) && (fault.Some? ==> Harmless(fault.value, r.role)))
            && (o.Refused? ==>
                  (after != db <==> PendingToken(db, r) && Room(db.nodes, r)
                                    && fault.Some? && TooLate(fault.value, r.role)))
            && Consistent(after.nodes)
  {
    hide JoinAttempt, PendingToken, Room, Inserted, Consistent, Unused;
    if !PendingToken(db, r) {
      UnknownFault(db, r, f, fault);
    } else if !Room(db.nodes, r) {
      TokenRole(db, r);
      InsertsInRoom(db.nodes, r, f);
      NoRoomFault(db, r, f, fault);
    } else if fault.None? || Harmless(fault.value, r.role) {
      if fault.Some? {
        HarmlessFault(db, r, f, fault.value);
      }
      UndisturbedJoins(db, r, f);
    } else if TooLate(fault.value, r.role) {
      FailedAttemptLeaksNode(db, r, f, fault.value);
    } else {
      EarlyFault(db, r, f, fault.value);
    }
  }

  /** Why an attempt in which nothing fails is refused. */
  lemma RefusalReasons(db: Db, r: Request, f: Fresh)
    requires Consistent(db.nodes) && Unused(db.nodes, f) && JoinAttempt(db, r, f, None).1.Refused?
    ensures var reason := JoinAttempt(db, r, f, None).1.reason;
            match GetRequest(db.requests, r.id)
            case None => reason == UnknownToken
            case Some(stored) =>
              if stored != r then reason == TokenMismatch
              else if r.role == Gateway then reason == InvalidRole
              else
                && reason.NodeError?
                && (reason.error == GatewayNotFound <==> db.nodes == [])
                && (reason.error == NoWGPrivateIPs <==> |db.nodes| >= 254)
                && (db.nodes != [] && |db.nodes| < 254 ==>
                      r.role == Server
                      && (if r.dockerSubnet.None? then reason.error == NoDockerSubnets
                          else match ParseNet(r.dockerSubnet.value, true)
                               case Failure(e) => reason.error == BadSubnet(e)
                               case Success(net) => reason.error == SubnetInUse && SubnetUsed(db.nodes, net)))
  {
    hide CreateFor, FinishJoin, GetRequest, ParseNet, SubnetUsed, Consistent, Unused, Registry.CreateServer, Registry.CreateClient, Room;
    if PendingToken(db, r) {
      AttemptExactly(db, r, f, None);
      JoinUnfolds(db, r, f);
      CreatesInRoom(db.nodes, r, f);
      CreateForIs(db.nodes, r, f);
      if r.role == Server {
        ServerRefusals(db.nodes, r.dockerSubnet, f);
      } else {
        ClientRefusals(db.nodes, f);
      }
    }
  }

  lemma TokenRole(db: Db, r: Request)
    requires PendingToken(db, r)
    ensures r.role != Gateway
  {
  }

  /**
   * So a forced token whose first attempt fails late is useless from then on: the server row that
   * attempt left behind blocks every retry until it is removed.
   */
  lemma ForcedRetryStuck(db: Db, r: Request, f: Fresh, step: JoinStep, f': Fresh, fault: Option<JoinStep>)
    requires Consistent(db.nodes) && Unused(db.nodes, f) && PendingToken(db, r) && Room(db.nodes, r)
    requires r.role == Server && r.dockerSubnet.Some? && TooLate(step, Server)
    ensures var after := JoinAttempt(db, r, f, Some(step)).0;
            && PendingToken(after, r)
            && JoinAttempt(after, r, f', fault).0 == after && JoinAttempt(after, r, f', fault).1.Refused?
  {
    FailedAttemptLeaksNode(db, r, f, step);
    hide JoinAttempt, Consistent, ParseNet, SubnetUsed, GetRequest, NextWGPrivateIP;
    ForcedTokenBlocked(JoinAttempt(db, r, f, Some(step)).0, r, f', fault);
  }

  /** Late failures use up addresses: once one has taken the last, every retry is refused and changes nothing. */
  lemma LastAddressLeaks(db: Db, r: Request, f: Fresh, step: JoinStep, f': Fresh, fault: Option<JoinStep>)
    requires Consistent(db.nodes) && |db.nodes| == 253 && Unused(db.nodes, f) && PendingToken(db, r) && Room(db.nodes, r)
    requires TooLate(step, r.role) && Unused(JoinAttempt(db, r, f, Some(step)).0.nodes, f')
    ensures var after := JoinAttempt(db, r, f, Some(step)).0;
            && PendingToken(after, r)
            && JoinAttempt(after, r, f', fault).0 == after && JoinAttempt(after, r, f', fault).1.Refused?
  {
    hide JoinAttempt, Consistent, Unused, GetRequest, ChooseSubnet, NextWGPrivateIP;
    var after := JoinAttempt(db, r, f, Some(step)).0;
    FailedAttemptLeaksNode(db, r, f, step);
    FreeIPExactly(after.nodes);
    AttemptExactly(after, r, f', fault);
  }
}
