/**
 * The commands that admit nodes: `server new`, `client new`, the join handler of the control server,
 * `server remove`, gateway start and label updates, as functions of the gateway database.
 */
module Admission {
  import opened Common
  import opened Addresses
  import opened Registry

  /**
   * A join request row. Its token is the JSON of the row in base64; equality of tokens is equality of rows.
   * `secret` is the AES key drawn for it.
   */
  datatype Request = Request(
    id: string,
    role: Role,
    dockerSubnet: Option<string>,
    clientCert: string,
    secret: string,
    gatewayHost: string)

  datatype Db = Db(nodes: Table, requests: seq<Request>)

  datatype Refusal =
    | NoSubnetsLeft
    | NoClientsLeft
    | NoCurrentNode
    | NodeError(error: Error)
    | UnknownToken
    | TokenMismatch
    | InvalidRole
    | StepFailed(step: JoinStep)

  /** Crashed stands for the panic of dereferencing a missing gateway row or column. */
  datatype Outcome =
    | Created(node: Node)
    | Issued(token: Request)
    | Joined(node: Node)
    | Done
    | Refused(reason: Refusal)
    | Crashed

  /** The steps of the join handler at which a foreign effect or a database call can fail. */
  datatype JoinStep =
    | LoadRequest
    | EncodeStored
    | InsertNode
    | RefreshPeers
    | ReloadNode
    | LoadGateway
    | ListServices
    | SaveConfigs
    | SaveGatewayRow
    | RestartWireguard
    | DeleteRequestRow
    | EncodeResponse

  // ---- join requests

  function GetRequest(requests: seq<Request>, id: string): Option<Request> {
    if requests == [] then None
    else if requests[0].id == id then Some(requests[0])
    else GetRequest(requests[1..], id)
  }

  function DeleteRequest(requests: seq<Request>, id: string): seq<Request> {
    if requests == [] then []
    else DeleteRequest(requests[..|requests| - 1], id)
         + if requests[|requests| - 1].id == id then [] else [requests[|requests| - 1]]
  }

  function CountServerRequests(requests: seq<Request>): nat {
    if requests == [] then 0
    else CountServerRequests(requests[..|requests| - 1]) + if requests[|requests| - 1].role == Server then 1 else 0
  }

  // ---- admission

  predicate SubnetLeft(db: Db) {
    var available := AvailableDockerSubnets(db.nodes);
    available > 0 && CountServerRequests(db.requests) < available
  }

  predicate ClientLeft(db: Db) {
    var available := AvailableWireguardClients(db.nodes);
    available > 0 && |db.requests| < available
  }

  function FromWritten(db: Db, w: Written): (Db, Outcome) {
    (db.(nodes := w.nodes),
     match w.result
     case Success(node) => Created(node)
     case Failure(e) => Refused(NodeError(e)))
  }

  /** Registers a certificate and a pending request for a node that will join later. */
  function IssueRequest(db: Db, gateway: Option<Node>, role: Role, subnet: Option<string>, f: Fresh): (Db, Outcome) {
    match gateway
    case None => (db, Crashed)
    case Some(gw) =>
      var saved := SaveNode(db.nodes, AddClientCert(gw, f));
      if gw.wgPublicIP.None? then (db.(nodes := saved), Crashed)
      else
        var r := Request(f.id, role, subnet, f.cert, f.privateKey, gw.wgPublicIP.value);
        (Db(saved, db.requests + [r]), Issued(r))
  }

  function ServerNew(db: Db, force: bool, dockerSubnet: string, f: Fresh): (Db, Outcome) {
    var forced := if dockerSubnet == "" then None else Some(dockerSubnet);
    if !SubnetLeft(db) then (db, Refused(NoSubnetsLeft))
    else if !ClientLeft(db) then (db, Refused(NoClientsLeft))
    else if forced.Some? && ParseNet(dockerSubnet, true).Failure? then
      (db, Refused(NodeError(BadSubnet(ParseNet(dockerSubnet, true).error))))
    else if forced.Some? && SubnetUsed(db.nodes, ParseNet(dockerSubnet, true).value) then
      (db, Refused(NodeError(SubnetInUse)))
    else if force then FromWritten(db, CreateServer(db.nodes, forced, f))
    else IssueRequest(db, FindGateway(db.nodes), Server, forced, f)
  }

  function FindCurrent(nodes: Table): Option<Node> {
    if nodes == [] then None
    else if nodes[0].isCurrentNode then Some(nodes[0])
    else FindCurrent(nodes[1..])
  }

  function ClientNew(db: Db, joinRequest: bool, f: Fresh): (Db, Outcome) {
    match FindCurrent(db.nodes)
    case None => (db, Refused(NoCurrentNode))
    case Some(current) =>
      if current.role != Gateway then (db, Done)
      else if !ClientLeft(db) then (db, Refused(NoClientsLeft))
      else if joinRequest then IssueRequest(db, Some(current), Client, None, f)
      else FromWritten(db, CreateClient(db.nodes, f))
  }

  function StartGateway(db: Db, site: Site, f: Fresh): (Db, Outcome) {
    if FindGateway(db.nodes).Some? then (db, Done)
    else FromWritten(db, EnsureGateway(db.nodes, site, f))
  }

  // ---- joining

  /** Node creation inside the handler, with its own places to fail. */
  function CreateFor(nodes: Table, r: Request, f: Fresh, fault: Option<JoinStep>): Written {
    var inserted := if r.role == Server then InsertServer(nodes, r.dockerSubnet, f) else InsertClient(nodes, f);
    if fault == Some(InsertNode) then Written(nodes, Failure(RecordNotFound))
    else
      match inserted
      case Failure(e) => Written(nodes, Failure(e))
      case Success(t) =>
        if fault == Some(RefreshPeers) then Written(t, Failure(RecordNotFound))
        else
          var w := RefreshAndReload(t, f.id);
          if fault == Some(ReloadNode) then Written(w.nodes, Failure(RecordNotFound)) else w
  }

  function DropCert(gw: Node, id: string): Node {
    gw.(certs := gw.certs - {id})
  }

  /** The handler after the node exists: drop the request's certificate, restart, delete the request. */
  function FinishJoin(db: Db, r: Request, node: Node, fault: Option<JoinStep>): (Db, Outcome) {
    match FindGateway(db.nodes)
    case None => (db, Refused(StepFailed(LoadGateway)))
    case Some(gw) =>
      if fault in {Some(LoadGateway), Some(ListServices), Some(SaveConfigs), Some(SaveGatewayRow)} then
        (db, Refused(StepFailed(fault.value)))
      else
        var saved := db.(nodes := SaveNode(db.nodes, DropCert(gw, r.id)));
        if fault == Some(RestartWireguard) && r.role == Client then (saved, Refused(StepFailed(RestartWireguard)))
        else if fault == Some(DeleteRequestRow) then (saved, Refused(StepFailed(DeleteRequestRow)))
        else (saved.(requests := DeleteRequest(db.requests, r.id)), Joined(node))
  }

  /**
   * One run of the join handler, failing at `fault` if that step is reached. A failure to encode the
   * response comes after the success status was sent; a failed restart fails only a client's join.
   */
  function JoinAttempt(db: Db, token: Request, f: Fresh, fault: Option<JoinStep>): (Db, Outcome) {
    if fault == Some(LoadRequest) then (db, Refused(StepFailed(LoadRequest)))
    else
      match GetRequest(db.requests, token.id)
      case None => (db, Refused(UnknownToken))
      case Some(stored) =>
        if fault == Some(EncodeStored) then (db, Refused(StepFailed(EncodeStored)))
        else if token != stored then (db, Refused(TokenMismatch))
        else if stored.role == Gateway then (db, Refused(InvalidRole))
        else
          var w := CreateFor(db.nodes, stored, f, fault);
          match w.result
          case Failure(e) => (db.(nodes := w.nodes), Refused(NodeError(e)))
          case Success(node) => FinishJoin(db.(nodes := w.nodes), stored, node, fault)
  }

  lemma CreateForIs(nodes: Table, r: Request, f: Fresh)
    requires r.role != Gateway
    ensures CreateFor(nodes, r, f, None)
         == if r.role == Server then CreateServer(nodes, r.dockerSubnet, f) else CreateClient(nodes, f)
  {
    hide InsertServer, InsertClient, RefreshAndReload;
  }

  lemma JoinUnfolds(db: Db, r: Request, f: Fresh)
    requires GetRequest(db.requests, r.id) == Some(r) && r.role != Gateway
    ensures var t := CreateFor(db.nodes, r, f, None);
            JoinAttempt(db, r, f, None) ==
              match t.result
              case Failure(e) => (db.(nodes := t.nodes), Refused(NodeError(e)))
              case Success(node) => FinishJoin(db.(nodes := t.nodes), r, node, None)
  {
    hide CreateFor, FinishJoin, GetRequest;
  }

  // ---- commands

  datatype Command =
    | StartingGateway(site: Site, f: Fresh)
    | NewServer(force: bool, dockerSubnet: string, f: Fresh)
    | NewClient(joinRequest: bool, f: Fresh)
    | Joining(token: Request, f: Fresh)
    | RemovingServer(id: string)
    | SettingLabels(id: string, labels: seq<string>)

  /** A failure-free command run to its end. */
  function Perform(db: Db, c: Command): (Db, Outcome) {
    match c
    case StartingGateway(site, f) => StartGateway(db, site, f)
    case NewServer(force, subnet, f) => ServerNew(db, force, subnet, f)
    case NewClient(joinRequest, f) => ClientNew(db, joinRequest, f)
    case Joining(token, f) => JoinAttempt(db, token, f, None)
    case RemovingServer(id) => (db.(nodes := DeleteServer(db.nodes, id)), Done)
    case SettingLabels(id, labels) =>
      (db.(nodes := UpdateLabels(db.nodes, id, labels)),
       if HasId(db.nodes, id) then Done else Refused(NodeError(RecordNotFound)))
  }

  lemma PerformsJoin(db: Db, r: Request, f: Fresh)
    ensures Perform(db, Joining(r, f)) == JoinAttempt(db, r, f, None)
  {
    hide JoinAttempt;
  }
}
