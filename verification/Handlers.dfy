/**
 * The join handler as a sequence of separate steps, interleaved with other handlers, with other commands'
 * transactions, and with failures and crashes at any point.
 */
module Handlers {
  import opened Common
  import opened Addresses
  import opened Registry
  import opened Routing
  import opened Admission
  import opened Runs
  import opened Interleaving
  import opened Joining

  /** How far a handler has come. Answered is success; Rejected is an error response or a crash. */
  datatype Stage =
    | Arrived
    | Loaded
    | Inserted
    | Refreshed
    | Reloaded
    | Holding
    | Saved
    | Deleted
    | Answered
    | Rejected

  /** `node` is the row it inserted. The times are history: when it arrived, read the request row, and ended. */
  datatype Handler = Handler(
    token: Request,
    stage: Stage,
    node: string,
    arrivedAt: nat,
    loadedAt: Option<nat>,
    endedAt: Option<nat>)

  /** `spentAt` is history: when the row of a token was first deleted. */
  datatype System = System(
    shared: Shared,
    requests: seq<Request>,
    handlers: map<nat, Handler>,
    now: nat,
    spentAt: map<string, nat>)

  const QUIET := System(IDLE, [], map[], 0, map[])

  /**
   * Steps of the handler h; Fail stands for a failing step or a crash. Issue is another command storing a
   * new request, Other any other transaction on the node table.
   */
  datatype Step =
    | Arrive(h: nat, token: Request)
    | Load(h: nat)
    | Insert(h: nat, f: Fresh)
    | UpdatePeers(h: nat)
    | Reload(h: nat)
    | TakeGateway(h: nat)
    | SaveGateway(h: nat)
    | DeleteRow(h: nat)
    | Answer(h: nat)
    | Fail(h: nat)
    | Issue(r: Request)
    | Other(a: Action)

  predicate At(sys: System, h: nat, stage: Stage) {
    h in sys.handlers && sys.handlers[h].stage == stage
  }

  predicate Ended(stage: Stage) {
    stage == Answered || stage == Rejected
  }

  function Moved(sys: System, h: nat, stage: Stage): System
    requires h in sys.handlers
  {
    var x := sys.handlers[h].(stage := stage, endedAt := if Ended(stage) then Some(sys.now) else sys.handlers[h].endedAt);
    sys.(handlers := sys.handlers[h := x])
  }

  /** The step succeeds or the handler ends. */
  function MovedIf(sys: System, h: nat, ok: bool, stage: Stage): System
    requires h in sys.handlers
  {
    Moved(sys, h, if ok then stage else Rejected)
  }

  function Insertion(token: Request, f: Fresh): Action {
    if token.role == Server then CommitServer(token.dockerSubnet, f) else CommitClient(f)
  }

  predicate CanInsert(nodes: Table, token: Request, f: Fresh) {
    if token.role == Server then InsertServer(nodes, token.dockerSubnet, f).Success? else InsertClient(nodes, f).Success?
  }

  function LoadRow(sys: System, h: nat): System
    requires h in sys.handlers
  {
    var x := sys.handlers[h];
    if GetRequest(sys.requests, x.token.id) == Some(x.token) && x.token.role != Gateway
    then sys.(handlers := sys.handlers[h := x.(stage := Loaded, loadedAt := Some(sys.now))])
    else Moved(sys, h, Rejected)
  }

  function InsertRow(sys: System, h: nat, f: Fresh): System
    requires h in sys.handlers
  {
    var x := sys.handlers[h];
    var named := sys.(handlers := sys.handlers[h := x.(node := f.id)], shared := Apply(sys.shared, Insertion(x.token, f)));
    MovedIf(named, h, CanInsert(sys.shared.nodes, x.token, f), Inserted)
  }

  function SaveRow(sys: System, h: nat): System
    requires h in sys.handlers
  {
    if h in sys.shared.copies then
      var certs := sys.shared.copies[h].certs - {sys.handlers[h].token.id};
      Moved(sys.(shared := Apply(sys.shared, SaveGatewayCopy(h, certs))), h, Saved)
    else Moved(sys, h, Rejected)
  }

  function Spend(sys: System, h: nat): System
    requires h in sys.handlers
  {
    var id := sys.handlers[h].token.id;
    Moved(sys.(
      requests := DeleteRequest(sys.requests, id),
      spentAt := if id in sys.spentAt then sys.spentAt else sys.spentAt[id := sys.now]), h, Deleted)
  }

  function Act(sys: System, s: Step): System {
    match s
    case Arrive(h, token) =>
      if h in sys.handlers then sys
      else sys.(handlers := sys.handlers[h := Handler(token, Arrived, "", sys.now, None, None)])
    case Load(h) => if At(sys, h, Arrived) then LoadRow(sys, h) else sys
    case Insert(h, f) => if At(sys, h, Loaded) then InsertRow(sys, h, f) else sys
    case UpdatePeers(h) =>
      if At(sys, h, Inserted)
      then MovedIf(sys.(shared := Apply(sys.shared, CommitRefresh)), h, Refresh(sys.shared.nodes).Success?, Refreshed)
      else sys
    case Reload(h) =>
      if At(sys, h, Refreshed)
      then MovedIf(sys, h, GetByID(sys.shared.nodes, sys.handlers[h].node).Success?, Reloaded) else sys
    case TakeGateway(h) =>
      if At(sys, h, Reloaded)
      then MovedIf(sys.(shared := Apply(sys.shared, LoadGatewayRow(h))), h, FindGateway(sys.shared.nodes).Some?, Holding)
      else sys
    case SaveGateway(h) => if At(sys, h, Holding) then SaveRow(sys, h) else sys
    case DeleteRow(h) => if At(sys, h, Saved) then Spend(sys, h) else sys
    case Answer(h) => if At(sys, h, Deleted) then Moved(sys, h, Answered) else sys
    case Fail(h) => if h in sys.handlers && !Ended(sys.handlers[h].stage) then Moved(sys, h, Rejected) else sys
    case Issue(r) => sys.(requests := sys.requests + [r], shared := sys.shared.(ids := sys.shared.ids + {r.id}))
    case Other(a) => sys.(shared := Apply(sys.shared, a))
  }

  function Do(sys: System, s: Step): System {
    Act(sys, s).(now := sys.now + 1)
  }

  function Run(sys: System, steps: seq<Step>): System
    decreases |steps|
  {
    if steps == [] then sys else Run(Do(sys, steps[0]), steps[1..])
  }

  /** UUIDs and keys are never drawn twice. */
  predicate Allowed(sys: System, s: Step) {
    match s
    case Insert(_, f) => f.id !in sys.shared.ids && f.publicKey !in sys.shared.keys
    case Issue(r) => r.id !in sys.shared.ids
    case Other(a) => Named(sys.shared, a)
    case _ => true
  }

  predicate AllowedRun(sys: System, steps: seq<Step>)
    decreases |steps|
  {
    steps == [] || (Allowed(sys, steps[0]) && AllowedRun(Do(sys, steps[0]), steps[1..]))
  }

  // ---- when handlers succeed

  predicate InProgress(stage: Stage) {
    stage != Arrived && stage != Rejected
  }

  /** What the history says of one handler: a row is read before it is first deleted, and deleted before the answer. */
  predicate Recorded(x: Handler, now: nat, spentAt: map<string, nat>, ids: set<string>) {
    && x.arrivedAt < now
    && (InProgress(x.stage) ==> x.loadedAt.Some?)
    && (x.loadedAt.Some? ==>
          && x.arrivedAt <= x.loadedAt.value < now && x.token.id in ids
          && (x.token.id in spentAt ==> x.loadedAt.value < spentAt[x.token.id]))
    && (x.stage == Deleted || x.stage == Answered ==> x.token.id in spentAt)
    && (x.stage == Answered ==> x.endedAt.Some? && spentAt[x.token.id] < x.endedAt.value < now)
  }

  ghost predicate Books(sys: System) {
    && (forall i :: 0 <= i < |sys.requests| ==> sys.requests[i].id in sys.shared.ids && sys.requests[i].id !in sys.spentAt)
    && (forall id :: id in sys.spentAt ==> id in sys.shared.ids && sys.spentAt[id] < sys.now)
    && (forall h :: h in sys.handlers ==> Recorded(sys.handlers[h], sys.now, sys.spentAt, sys.shared.ids))
  }

  lemma RecordedLater(x: Handler, now: nat, spentAt: map<string, nat>, ids: set<string>, more: set<string>)
    requires Recorded(x, now, spentAt, ids) && ids <= more
    ensures Recorded(x, now + 1, spentAt, more)
    ensures forall id :: id !in spentAt ==> Recorded(x, now + 1, spentAt[id := now], more)
  {
  }

  /** Names only accumulate. */
  lemma NamesGrow(sys: System, s: Step)
    ensures sys.shared.ids <= Do(sys, s).shared.ids
  {
    hide Rows, CanInsert, GetRequest, DeleteRequest, FindGateway, Refresh, GetByID, NextWGPrivateIP;
  }

  /** The steps that touch neither the requests nor the history of deletions. */
  predicate Plain(s: Step) {
    !s.Load? && !s.DeleteRow? && !s.Issue?
  }

  /** How a handler may change in a plain step. */
  predicate Follows(x: Handler, x': Handler, now: nat) {
    && x'.token == x.token && x'.arrivedAt == x.arrivedAt && x'.loadedAt == x.loadedAt
    && (InProgress(x'.stage) && x' != x ==> InProgress(x.stage))
    && (x'.stage == Deleted ==> x' == x)
    && (x'.stage == Answered ==> x' == x || (x.stage == Deleted && x'.endedAt == Some(now)))
  }

  lemma PlainFrame(sys: System, s: Step)
    requires Plain(s)
    ensures var sys' := Do(sys, s); sys'.requests == sys.requests && sys'.spentAt == sys.spentAt
    ensures s.Other? ==> Do(sys, s).handlers == sys.handlers
    ensures !s.Other? ==> Do(sys, s).handlers - {s.h} == sys.handlers - {s.h} && sys.handlers.Keys <= Do(sys, s).handlers.Keys
  {
    hide Apply, CanInsert, FindGateway, Refresh, GetByID, GetRequest, DeleteRequest;
  }

  lemma PlainOwn(sys: System, s: Step)
    requires Plain(s) && !s.Other? && s.h in sys.handlers
    ensures s.h in Do(sys, s).handlers && Follows(sys.handlers[s.h], Do(sys, s).handlers[s.h], sys.now)
  {
    hide Apply, CanInsert, FindGateway, Refresh, GetByID, GetRequest, DeleteRequest;
  }

  lemma PlainArrival(sys: System, s: Step)
    requires Plain(s) && !s.Other? && s.h !in sys.handlers && s.h in Do(sys, s).handlers
    ensures var x := Do(sys, s).handlers[s.h]; x.stage == Arrived && x.arrivedAt == sys.now && x.loadedAt.None?
  {
    hide Apply, CanInsert, FindGateway, Refresh, GetByID, GetRequest, DeleteRequest;
  }

  lemma RecordedFollows(x: Handler, x': Handler, now: nat, spentAt: map<string, nat>, ids: set<string>, more: set<string>)
    requires Recorded(x, now, spentAt, ids) && Follows(x, x', now) && ids <= more
    requires forall id :: id in spentAt ==> spentAt[id] < now
    ensures Recorded(x', now + 1, spentAt, more)
  {
  }

  lemma PlainKeepsBooks(sys: System, s: Step)
    requires Books(sys) && Plain(s)
    ensures Books(Do(sys, s))
  {
    hide Do, Recorded, Follows;
    var sys' := Do(sys, s);
    assert sys'.now == sys.now + 1 by {
      DoTicks(sys, s);
    }
    NamesGrow(sys, s);
    PlainFrame(sys, s);
    forall g | g in sys'.handlers
      ensures Recorded(sys'.handlers[g], sys'.now, sys'.spentAt, sys'.shared.ids)
    {
      if s.Other? || g != s.h {
        assert g in sys.handlers && sys'.handlers[g] == sys.handlers[g] by {
          assert !s.Other? ==> g in sys'.handlers - {s.h} && g in sys.handlers - {s.h};
        }
        RecordedLater(sys.handlers[g], sys.now, sys.spentAt, sys.shared.ids, sys'.shared.ids);
      } else if g in sys.handlers {
        PlainOwn(sys, s);
        RecordedFollows(sys.handlers[g], sys'.handlers[g], sys.now, sys.spentAt, sys.shared.ids, sys'.shared.ids);
      } else {
        PlainArrival(sys, s);
        RecordedArrival(sys'.handlers[g], sys.now, sys.spentAt, sys'.shared.ids);
      }
    }
  }

  lemma DoTicks(sys: System, s: Step)
    ensures Do(sys, s).now == sys.now + 1
  {
    hide Act;
  }

  lemma RecordedArrival(x: Handler, now: nat, spentAt: map<string, nat>, ids: set<string>)
    requires x.stage == Arrived && x.arrivedAt == now && x.loadedAt.None?
    ensures Recorded(x, now + 1, spentAt, ids)
  {
  }

  lemma RecordedLoad(x: Handler, now: nat, spentAt: map<string, nat>, ids: set<string>)
    requires Recorded(x, now, spentAt, ids) && x.token.id in ids && x.token.id !in spentAt
    ensures Recorded(x.(stage := Loaded, loadedAt := Some(now)), now + 1, spentAt, ids)
  {
  }

  lemma RecordedReject(x: Handler, now: nat, spentAt: map<string, nat>, ids: set<string>)
    requires Recorded(x, now, spentAt, ids)
    ensures Recorded(x.(stage := Rejected, endedAt := Some(now)), now + 1, spentAt, ids)
  {
  }

  lemma LoadKeepsBooks(sys: System, h: nat)
    requires Books(sys)
    ensures Books(Do(sys, Load(h)))
  {
    hide Recorded, GetRequest;
    var sys' := Do(sys, Load(h));
    if At(sys, h, Arrived) {
      GetRequestFinds(sys.requests, sys.handlers[h].token.id);
    }
    forall g | g in sys'.handlers
      ensures Recorded(sys'.handlers[g], sys'.now, sys'.spentAt, sys'.shared.ids)
    {
      var x := sys.handlers[g];
      RecordedLater(x, sys.now, sys.spentAt, sys.shared.ids, sys.shared.ids);
      if g == h && At(sys, h, Arrived) {
        RecordedReject(x, sys.now, sys.spentAt, sys.shared.ids);
        if GetRequest(sys.requests, x.token.id) == Some(x.token) {
          RecordedLoad(x, sys.now, sys.spentAt, sys.shared.ids);
        }
      }
    }
  }

  lemma {:induction false} DeletedGone(rs: seq<Request>, id: string)
    ensures forall r :: r in DeleteRequest(rs, id) <==> r in rs && r.id != id
  {
    if rs != [] {
      var n := |rs| - 1;
      DeletedGone(rs[..n], id);
      assert rs == rs[..n] + [rs[n]];
    }
  }

  lemma RecordedSpend(x: Handler, now: nat, spentAt: map<string, nat>, ids: set<string>)
    requires Recorded(x, now, spentAt, ids) && x.stage == Saved
    ensures var after := if x.token.id in spentAt then spentAt else spentAt[x.token.id := now];
            Recorded(x.(stage := Deleted), now + 1, after, ids)
  {
  }

  lemma TokenKnown(sys: System, h: nat)
    requires Books(sys) && At(sys, h, Saved)
    ensures sys.handlers[h].token.id in sys.shared.ids
  {
    assert Recorded(sys.handlers[h], sys.now, sys.spentAt, sys.shared.ids);
  }

  lemma SpendKeepsBooks(sys: System, h: nat)
    requires Books(sys)
    ensures Books(Do(sys, DeleteRow(h)))
  {
    hide Recorded, DeleteRequest;
    var sys' := Do(sys, DeleteRow(h));
    if At(sys, h, Saved) {
      DeletedGone(sys.requests, sys.handlers[h].token.id);
      RecordedSpend(sys.handlers[h], sys.now, sys.spentAt, sys.shared.ids);
    }
    forall i | 0 <= i < |sys'.requests|
      ensures sys'.requests[i].id in sys'.shared.ids && sys'.requests[i].id !in sys'.spentAt
    {
      assert sys'.requests[i] in sys.requests;
    }
    forall g | g in sys'.handlers
      ensures Recorded(sys'.handlers[g], sys'.now, sys'.spentAt, sys'.shared.ids)
    {
      RecordedLater(sys.handlers[g], sys.now, sys.spentAt, sys.shared.ids, sys.shared.ids);
    }
    if At(sys, h, Saved) {
      TokenKnown(sys, h);
    }
  }

  lemma IssueKeepsBooks(sys: System, r: Request)
    requires Books(sys) && r.id !in sys.shared.ids
    ensures Books(Do(sys, Issue(r)))
  {
    var sys' := Do(sys, Issue(r));
    forall g | g in sys'.handlers
      ensures Recorded(sys'.handlers[g], sys'.now, sys'.spentAt, sys'.shared.ids)
    {
      RecordedLater(sys.handlers[g], sys.now, sys.spentAt, sys.shared.ids, sys'.shared.ids);
    }
  }

  lemma StepKeepsBooks(sys: System, s: Step)
    requires Books(sys) && Allowed(sys, s)
    ensures Books(Do(sys, s))
  {
    hide Books, Do;
    match s
    case Load(h) => LoadKeepsBooks(sys, h);
    case DeleteRow(h) => SpendKeepsBooks(sys, h);
    case Issue(r) => IssueKeepsBooks(sys, r);
    case _ => PlainKeepsBooks(sys, s);
  }

  lemma {:induction false} RunKeepsBooks(sys: System, steps: seq<Step>)
    requires Books(sys) && AllowedRun(sys, steps)
    ensures Books(Run(sys, steps))
    decreases |steps|
  {
    hide Books, Do, Allowed;
    if steps != [] {
      StepKeepsBooks(sys, steps[0]);
      RunKeepsBooks(Do(sys, steps[0]), steps[1..]);
    }
  }

  /**
   * In every interleaving of handlers, failures and other commands, a handler that was answered with success
   * read the row of its token before that row was first deleted, and was answered after.
   */
  lemma {:induction false} SuccessLoadedFirst(steps: seq<Step>, h: nat)
    requires AllowedRun(QUIET, steps) && At(Run(QUIET, steps), h, Answered)
    ensures var sys := Run(QUIET, steps);
            var x := sys.handlers[h];
            && x.loadedAt.Some? && x.endedAt.Some? && x.token.id in sys.spentAt
            && x.arrivedAt <= x.loadedAt.value < sys.spentAt[x.token.id] < x.endedAt.value
  {
    assert Books(QUIET);
    RunKeepsBooks(QUIET, steps);
    hide Run, AllowedRun;
    assert Recorded(Run(QUIET, steps).handlers[h], Run(QUIET, steps).now, Run(QUIET, steps).spentAt, Run(QUIET, steps).shared.ids);
  }

  /** One ended before the other arrived. */
  predicate Before(x: Handler, y: Handler) {
    x.endedAt.Some? && x.endedAt.value <= y.arrivedAt
  }

  /**
   * Single use: in every interleaving with anything else, if the handlers of a token do not overlap one
   * another, at most one of them is answered with success.
   */
  lemma {:induction false} TokenAnsweredOnce(steps: seq<Step>, id: string, g: nat, h: nat)
    requires AllowedRun(QUIET, steps)
    requires var all := Run(QUIET, steps).handlers;
             forall i, j :: i in all && j in all && i != j && all[i].token.id == id && all[j].token.id == id
               ==> Before(all[i], all[j]) || Before(all[j], all[i])
    requires At(Run(QUIET, steps), g, Answered) && At(Run(QUIET, steps), h, Answered)
    requires Run(QUIET, steps).handlers[g].token.id == id && Run(QUIET, steps).handlers[h].token.id == id
    ensures g == h
  {
    SuccessLoadedFirst(steps, g);
    SuccessLoadedFirst(steps, h);
    hide Run, AllowedRun;
  }

  /** A handler that has not read the row when it is deleted is turned away. */
  lemma LateLoadRejected(sys: System, h: nat)
    requires Books(sys) && At(sys, h, Arrived) && sys.handlers[h].token.id in sys.spentAt
    ensures At(Do(sys, Load(h)), h, Rejected)
  {
    GetRequestFinds(sys.requests, sys.handlers[h].token.id);
    hide GetRequest;
  }

  // ---- allocation stays safe

  /** A gateway creation elsewhere that commits finds the table still empty. */
  predicate TimelyStep(sys: System, s: Step) {
    s.Other? ==> Timely(sys.shared, s.a)
  }

  predicate TimelySteps(sys: System, steps: seq<Step>)
    decreases |steps|
  {
    steps == [] || (TimelyStep(sys, steps[0]) && TimelySteps(Do(sys, steps[0]), steps[1..]))
  }

  lemma MoreNamesSafe(s: Shared, id: string)
    requires Safe(s)
    ensures Safe(s.(ids := s.ids + {id}))
  {
    hide Consistent;
  }

  /** Each step does nothing to the shared table, or one transaction of the interleaving model. */
  lemma StepKeepsSafe(sys: System, s: Step)
    requires Safe(sys.shared) && Allowed(sys, s) && TimelyStep(sys, s)
    ensures Safe(Do(sys, s).shared)
  {
    hide Safe, Apply, CanInsert, Refresh, GetByID, FindGateway, GetRequest, DeleteRequest;
    match s
    case Insert(h, f) => if At(sys, h, Loaded) { ActionKeepsSafe(sys.shared, Insertion(sys.handlers[h].token, f)); }
    case UpdatePeers(h) => ActionKeepsSafe(sys.shared, CommitRefresh);
    case TakeGateway(h) => ActionKeepsSafe(sys.shared, LoadGatewayRow(h));
    case SaveGateway(h) =>
      if At(sys, h, Holding) && h in sys.shared.copies {
        ActionKeepsSafe(sys.shared, SaveGatewayCopy(h, sys.shared.copies[h].certs - {sys.handlers[h].token.id}));
      }
    case Issue(r) => MoreNamesSafe(sys.shared, r.id);
    case Other(a) => ActionKeepsSafe(sys.shared, a);
    case _ =>
  }

  /** With handlers interleaved step by step no two nodes share an address and no two servers a subnet. */
  lemma {:induction false} HandlersKeepSafe(sys: System, steps: seq<Step>)
    requires Safe(sys.shared) && AllowedRun(sys, steps) && TimelySteps(sys, steps)
    ensures Safe(Run(sys, steps).shared) && WellAllocated(Run(sys, steps).shared.nodes)
    decreases |steps|
  {
    hide Do, Allowed, TimelyStep, WellAllocated, Copies, Picks, RowsKnown, Consistent;
    if steps == [] {
      ConsistentAllocates(sys.shared.nodes);
    } else {
      hide Safe;
      StepKeepsSafe(sys, steps[0]);
      HandlersKeepSafe(Do(sys, steps[0]), steps[1..]);
    }
  }

  // ---- one handler, undisturbed

  predicate Of(s: Step, h: nat) {
    !s.Arrive? && !s.Issue? && !s.Other? && s.h == h
  }

  ghost predicate AllOf(steps: seq<Step>, h: nat) {
    forall i :: 0 <= i < |steps| ==> Of(steps[i], h)
  }

  function DbOf(sys: System): Db {
    Db(sys.shared.nodes, sys.requests)
  }

  lemma {:induction false} RunSplit(sys: System, a: seq<Step>, b: seq<Step>)
    ensures Run(sys, a + b) == Run(Run(sys, a), b)
    decreases |a|
  {
    hide Do;
    if a == [] {
      assert a + b == b;
    } else {
      RunSplit(Do(sys, a[0]), a[1..], b);
      assert (a + b)[1..] == a[1..] + b;
    }
  }

  /** A rejected handler does nothing any more. */
  lemma {:induction false} RejectedRests(sys: System, steps: seq<Step>, h: nat)
    requires At(sys, h, Rejected) && AllOf(steps, h)
    ensures DbOf(Run(sys, steps)) == DbOf(sys) && At(Run(sys, steps), h, Rejected)
    decreases |steps|
  {
    if steps != [] {
      assert Of(steps[0], h);
      assert Do(sys, steps[0]) == sys.(now := sys.now + 1);
      hide Do;
      forall i | 0 <= i < |steps[1..]|
        ensures Of(steps[1..][i], h)
      {
        assert steps[1..][i] == steps[i + 1];
      }
      RejectedRests(Do(sys, steps[0]), steps[1..], h);
    }
  }

  lemma RunOne(sys: System, a: Step)
    ensures Run(sys, [a]) == Do(sys, a)
  {
    hide Do;
    assert Run(Do(sys, a), []) == Do(sys, a);
  }

  lemma RunTwo(sys: System, a: Step, b: Step)
    ensures Run(sys, [a, b]) == Do(Do(sys, a), b)
  {
    hide Do;
    RunSplit(sys, [a], [b]);
    RunOne(sys, a);
    RunOne(Do(sys, a), b);
    assert [a] + [b] == [a, b];
  }

  lemma RunThree(sys: System, a: Step, b: Step, c: Step)
    ensures Run(sys, [a, b, c]) == Do(Do(Do(sys, a), b), c)
  {
    hide Do;
    RunSplit(sys, [a], [b, c]);
    RunOne(sys, a);
    RunTwo(Do(sys, a), b, c);
    assert [a] + [b, c] == [a, b, c];
  }

  lemma RunFour(sys: System, a: Step, b: Step, c: Step, d: Step)
    ensures Run(sys, [a, b, c, d]) == Do(Do(Do(Do(sys, a), b), c), d)
  {
    hide Do;
    RunSplit(sys, [a], [b, c, d]);
    RunOne(sys, a);
    RunThree(Do(sys, a), b, c, d);
    assert [a] + [b, c, d] == [a, b, c, d];
  }

  /** The steps of one attempt that fails at `fault`, when no other step comes in between. */
  function Starting(h: nat, fault: Option<JoinStep>): seq<Step> {
    if fault in {Some(LoadRequest), Some(EncodeStored)} then [Fail(h)] else [Load(h)]
  }

  function Creating(h: nat, f: Fresh, fault: Option<JoinStep>): seq<Step> {
    if fault == Some(InsertNode) then [Fail(h)]
    else if fault == Some(RefreshPeers) then [Insert(h, f), Fail(h)]
    else if fault == Some(ReloadNode) then [Insert(h, f), UpdatePeers(h), Fail(h)]
    else [Insert(h, f), UpdatePeers(h), Reload(h)]
  }

  function Finishing(h: nat, role: Role, fault: Option<JoinStep>): seq<Step> {
    if fault == Some(LoadGateway) then [Fail(h)]
    else if fault in {Some(ListServices), Some(SaveConfigs), Some(SaveGatewayRow)} then [TakeGateway(h), Fail(h)]
    else if fault == Some(DeleteRequestRow) || (fault == Some(RestartWireguard) && role == Client)
    then [TakeGateway(h), SaveGateway(h), Fail(h)]
    else [TakeGateway(h), SaveGateway(h), DeleteRow(h), Answer(h)]
  }

  function Attempt(h: nat, role: Role, f: Fresh, fault: Option<JoinStep>): seq<Step> {
    Starting(h, fault) + (Creating(h, f, fault) + Finishing(h, role, fault))
  }

  lemma PartsAreOf(h: nat, role: Role, f: Fresh, fault: Option<JoinStep>)
    ensures AllOf(Creating(h, f, fault), h) && AllOf(Finishing(h, role, fault), h)
    ensures AllOf(Creating(h, f, fault) + Finishing(h, role, fault), h)
  {
  }

  /** x with its progress: everything but the stage, the inserted row and the times. */
  predicate SameToken(a: System, b: System, h: nat) {
    h in a.handlers && h in b.handlers && a.handlers[h].token == b.handlers[h].token
  }

  lemma FailIs(sys: System, h: nat)
    requires h in sys.handlers && sys.handlers[h].stage != Answered
    ensures At(Do(sys, Fail(h)), h, Rejected) && DbOf(Do(sys, Fail(h))) == DbOf(sys)
  {
  }

  lemma LoadIs(sys: System, h: nat)
    requires At(sys, h, Arrived)
    ensures var sys', token := Do(sys, Load(h)), sys.handlers[h].token;
            && DbOf(sys') == DbOf(sys) && SameToken(sys, sys', h)
            && At(sys', h, if GetRequest(sys.requests, token.id) == Some(token) && token.role != Gateway then Loaded else Rejected)
  {
    hide GetRequest;
  }

  lemma InsertIs(sys: System, h: nat, f: Fresh)
    requires At(sys, h, Loaded)
    ensures var sys', token := Do(sys, Insert(h, f)), sys.handlers[h].token;
            var r := if token.role == Server then InsertServer(sys.shared.nodes, token.dockerSubnet, f)
                     else InsertClient(sys.shared.nodes, f);
            && SameToken(sys, sys', h) && sys'.requests == sys.requests && sys'.handlers[h].node == f.id
            && At(sys', h, if r.Success? then Inserted else Rejected)
            && sys'.shared.nodes == if r.Success? then r.value else sys.shared.nodes
  {
    hide InsertServer, InsertClient;
  }

  lemma RefreshIs(sys: System, h: nat)
    requires At(sys, h, Inserted)
    ensures var sys', r := Do(sys, UpdatePeers(h)), Refresh(sys.shared.nodes);
            && SameToken(sys, sys', h) && sys'.requests == sys.requests && sys'.handlers[h].node == sys.handlers[h].node
            && At(sys', h, if r.Success? then Refreshed else Rejected)
            && sys'.shared.nodes == if r.Success? then r.value else sys.shared.nodes
  {
    hide Refresh;
  }

  lemma ReloadIs(sys: System, h: nat)
    requires At(sys, h, Refreshed)
    ensures var sys' := Do(sys, Reload(h));
            && SameToken(sys, sys', h) && DbOf(sys') == DbOf(sys)
            && At(sys', h, if GetByID(sys.shared.nodes, sys.handlers[h].node).Success? then Reloaded else Rejected)
  {
    hide GetByID;
  }

  lemma TakeIs(sys: System, h: nat)
    requires At(sys, h, Reloaded)
    ensures var sys', gw := Do(sys, TakeGateway(h)), FindGateway(sys.shared.nodes);
            && SameToken(sys, sys', h) && DbOf(sys') == DbOf(sys)
            && At(sys', h, if gw.Some? then Holding else Rejected)
            && (gw.Some? ==> h in sys'.shared.copies && sys'.shared.copies[h] == gw.value)
  {
    hide FindGateway;
  }

  lemma SaveIs(sys: System, h: nat)
    requires At(sys, h, Holding) && h in sys.shared.copies
    ensures var sys', id := Do(sys, SaveGateway(h)), sys.handlers[h].token.id;
            && SameToken(sys, sys', h) && At(sys', h, Saved)
            && DbOf(sys') == Db(SaveNode(sys.shared.nodes, DropCert(sys.shared.copies[h], id)), sys.requests)
  {
    hide SaveNode;
  }

  lemma SpendIs(sys: System, h: nat)
    requires At(sys, h, Saved)
    ensures var sys' := Do(sys, DeleteRow(h));
            At(sys', h, Deleted) && DbOf(sys') == Db(sys.shared.nodes, DeleteRequest(sys.requests, sys.handlers[h].token.id))
  {
    hide DeleteRequest;
  }

  lemma AnswerIs(sys: System, h: nat)
    requires At(sys, h, Deleted)
    ensures At(Do(sys, Answer(h)), h, Answered) && DbOf(Do(sys, Answer(h))) == DbOf(sys)
  {
  }

  /** The creating steps do what CreateFor says, and end the handler where it fails. */
  lemma CreatingRuns(sys: System, h: nat, f: Fresh, fault: Option<JoinStep>)
    requires At(sys, h, Loaded)
    ensures var last, w := Run(sys, Creating(h, f, fault)), CreateFor(sys.shared.nodes, sys.handlers[h].token, f, fault);
            && SameToken(sys, last, h) && DbOf(last) == Db(w.nodes, sys.requests)
            && At(last, h, if w.result.Success? then Reloaded else Rejected)
  {
    hide Do, Refresh, GetByID, InsertServer, InsertClient, Run;
    var s1 := Do(sys, Insert(h, f));
    InsertIs(sys, h, f);
    if fault == Some(InsertNode) {
      RunOne(sys, Fail(h));
      FailIs(sys, h);
      FailKeepsToken(sys, h);
    } else if fault == Some(RefreshPeers) {
      RunTwo(sys, Insert(h, f), Fail(h));
      FailIs(s1, h);
      FailKeepsToken(s1, h);
    } else {
      var s2 := Do(s1, UpdatePeers(h));
      var last := if fault == Some(ReloadNode) then Fail(h) else Reload(h);
      RunThree(sys, Insert(h, f), UpdatePeers(h), last);
      if At(s1, h, Inserted) {
        RefreshIs(s1, h);
        FailIs(s2, h);
        FailKeepsToken(s2, h);
        if At(s2, h, Refreshed) {
          ReloadIs(s2, h);
        } else {
          RejectedStep(s2, h, last);
        }
      } else {
        RejectedStep(s1, h, UpdatePeers(h));
        RejectedStep(s2, h, last);
      }
    }
  }

  lemma FailKeepsToken(sys: System, h: nat)
    requires h in sys.handlers
    ensures SameToken(sys, Do(sys, Fail(h)), h)
  {
  }

  lemma RejectedStep(sys: System, h: nat, s: Step)
    requires At(sys, h, Rejected) && Of(s, h)
    ensures At(Do(sys, s), h, Rejected) && DbOf(Do(sys, s)) == DbOf(sys) && SameToken(sys, Do(sys, s), h)
  {
  }

  lemma SavingRuns(sys: System, h: nat)
    requires At(sys, h, Reloaded)
    ensures var s1 := Do(sys, TakeGateway(h));
            var s2, gw, token := Do(s1, SaveGateway(h)), FindGateway(sys.shared.nodes), sys.handlers[h].token;
            && DbOf(s1) == DbOf(sys) && h in s1.handlers && s1.handlers[h].stage != Answered
            && (if gw.Some?
                then At(s2, h, Saved) && SameToken(sys, s2, h)
                     && DbOf(s2) == Db(SaveNode(sys.shared.nodes, DropCert(gw.value, token.id)), sys.requests)
                else At(s2, h, Rejected) && DbOf(s2) == DbOf(sys))
  {
    hide Do, FindGateway, SaveNode;
    var s1 := Do(sys, TakeGateway(h));
    TakeIs(sys, h);
    if At(s1, h, Holding) {
      SaveIs(s1, h);
    } else {
      RejectedStep(s1, h, SaveGateway(h));
    }
  }

  lemma EndingRuns(sys: System, h: nat)
    requires At(sys, h, Saved) || At(sys, h, Rejected)
    ensures At(Do(sys, Fail(h)), h, Rejected) && DbOf(Do(sys, Fail(h))) == DbOf(sys)
    ensures var s2 := Do(Do(sys, DeleteRow(h)), Answer(h));
            if At(sys, h, Saved)
            then At(s2, h, Answered) && DbOf(s2) == Db(sys.shared.nodes, DeleteRequest(sys.requests, sys.handlers[h].token.id))
            else At(s2, h, Rejected) && DbOf(s2) == DbOf(sys)
  {
    hide Do, DeleteRequest;
    var s1 := Do(sys, DeleteRow(h));
    FailIs(sys, h);
    if At(sys, h, Saved) {
      SpendIs(sys, h);
      AnswerIs(s1, h);
    } else {
      RejectedStep(sys, h, DeleteRow(h));
      RejectedStep(s1, h, Answer(h));
    }
  }

  lemma DbFields(sys: System)
    ensures DbOf(sys).nodes == sys.shared.nodes && DbOf(sys).requests == sys.requests
  {
  }

  /** The finishing steps do what FinishJoin says. */
  lemma FinishingRuns(sys: System, h: nat, node: Node, fault: Option<JoinStep>)
    requires At(sys, h, Reloaded)
    ensures var token := sys.handlers[h].token;
            var last, r := Run(sys, Finishing(h, token.role, fault)), FinishJoin(DbOf(sys), token, node, fault);
            DbOf(last) == r.0 && At(last, h, if r.1.Joined? then Answered else Rejected)
  {
    hide Do, FindGateway, SaveNode, DeleteRequest, Run, DbOf;
    var role := sys.handlers[h].token.role;
    var s1 := Do(sys, TakeGateway(h));
    var s2 := Do(s1, SaveGateway(h));
    DbFields(sys);
    SavingRuns(sys, h);
    if fault == Some(LoadGateway) {
      RunOne(sys, Fail(h));
      FailIs(sys, h);
    } else if fault in {Some(ListServices), Some(SaveConfigs), Some(SaveGatewayRow)} {
      RunTwo(sys, TakeGateway(h), Fail(h));
      FailIs(s1, h);
    } else {
      DbFields(s2);
      EndingRuns(s2, h);
      if fault == Some(DeleteRequestRow) || (fault == Some(RestartWireguard) && role == Client) {
        RunThree(sys, TakeGateway(h), SaveGateway(h), Fail(h));
      } else {
        RunFour(sys, TakeGateway(h), SaveGateway(h), DeleteRow(h), Answer(h));
      }
    }
  }

  /** From the insertion on: creation, then the rest, whatever has become of the request's row meanwhile. */
  lemma RemainderRuns(sys: System, h: nat, f: Fresh, fault: Option<JoinStep>)
    requires At(sys, h, Loaded)
    ensures var token := sys.handlers[h].token;
            var w := CreateFor(sys.shared.nodes, token, f, fault);
            var last := Run(sys, Creating(h, f, fault) + Finishing(h, token.role, fault));
            match w.result
            case Failure(_) => DbOf(last) == Db(w.nodes, sys.requests) && At(last, h, Rejected)
            case Success(node) =>
              var r := FinishJoin(Db(w.nodes, sys.requests), token, node, fault);
              DbOf(last) == r.0 && At(last, h, if r.1.Joined? then Answered else Rejected)
  {
    var token := sys.handlers[h].token;
    hide Creating, Finishing, Run, CreateFor, FinishJoin;
    var mid := Run(sys, Creating(h, f, fault));
    CreatingRuns(sys, h, f, fault);
    RunSplit(sys, Creating(h, f, fault), Finishing(h, token.role, fault));
    PartsAreOf(h, token.role, f, fault);
    var w := CreateFor(sys.shared.nodes, token, f, fault);
    if w.result.Success? {
      FinishingRuns(mid, h, w.result.value, fault);
    } else {
      RejectedRests(mid, Finishing(h, token.role, fault), h);
    }
  }

  /**
   * An undisturbed handler does exactly what the attempt as a whole is said to do, at whatever step it
   * fails: same database, and success exactly when it joins.
   */
  lemma AttemptIsRun(sys: System, h: nat, f: Fresh, fault: Option<JoinStep>)
    requires At(sys, h, Arrived)
    ensures var token := sys.handlers[h].token;
            var last, r := Run(sys, Attempt(h, token.role, f, fault)), JoinAttempt(DbOf(sys), token, f, fault);
            DbOf(last) == r.0 && At(last, h, if r.1.Joined? then Answered else Rejected)
  {
    var token := sys.handlers[h].token;
    var rest := Creating(h, f, fault) + Finishing(h, token.role, fault);
    hide Creating, Finishing, Run, CreateFor, FinishJoin, GetRequest, Do;
    RunSplit(sys, Starting(h, fault), rest);
    PartsAreOf(h, token.role, f, fault);
    RunOne(sys, Fail(h));
    RunOne(sys, Load(h));
    FailIs(sys, h);
    LoadIs(sys, h);
    GetRequestFinds(sys.requests, token.id);
    var s1 := Run(sys, Starting(h, fault));
    if At(s1, h, Loaded) {
      RemainderRuns(s1, h, f, fault);
    } else {
      RejectedRests(s1, rest, h);
    }
  }

  // ---- a handler that has read the row succeeds

  function Remaining(h: nat, role: Role, f: Fresh): seq<Step> {
    Creating(h, f, None) + Finishing(h, role, None)
  }

  /**
   * The converse: a handler that has read the row, let run to its end, is answered with success exactly when
   * the table has room for its node, even if the row has been deleted since; so each handler that read the
   * row before its deletion can yield a success and a node of its own.
   */
  lemma LoadedSucceeds(sys: System, h: nat, f: Fresh)
    requires Safe(sys.shared) && At(sys, h, Loaded) && Allowed(sys, Insert(h, f)) && sys.handlers[h].token.role != Gateway
    ensures var token := sys.handlers[h].token;
            var last := Run(sys, Remaining(h, token.role, f));
            && At(last, h, if Room(sys.shared.nodes, token) then Answered else Rejected)
            && |last.shared.nodes| == |sys.shared.nodes| + (if Room(sys.shared.nodes, token) then 1 else 0)
  {
    var nodes, token := sys.shared.nodes, sys.handlers[h].token;
    KnownUnused(sys.shared, f);
    hide Run, CreateFor, FinishJoin, Room, Grown, Creating, Finishing, DbOf, Copies, Picks, RowsKnown, Consistent, Unused;
    DbFields(Run(sys, Remaining(h, token.role, f)));
    CreatesInRoom(nodes, token, f);
    RemainderRuns(sys, h, f, None);
    if Room(nodes, token) {
      FinishesGrown(Db(nodes, sys.requests), token, f, CreateFor(nodes, token, f, None).nodes);
    }
  }

  lemma StepKeepsToken(sys: System, s: Step, h: nat)
    requires h in sys.handlers
    ensures SameToken(sys, Do(sys, s), h)
  {
    hide Apply, CanInsert, FindGateway, Refresh, GetByID, GetRequest, DeleteRequest;
  }

  lemma {:induction false} RunKeepsToken(sys: System, steps: seq<Step>, h: nat)
    requires h in sys.handlers
    ensures SameToken(sys, Run(sys, steps), h)
    decreases |steps|
  {
    hide Do;
    if steps != [] {
      StepKeepsToken(sys, steps[0], h);
      RunKeepsToken(Do(sys, steps[0]), steps[1..], h);
    }
  }

  predicate Elsewhere(s: Step, h: nat) {
    !s.Issue? && !s.Other? && s.h != h
  }

  lemma {:induction false} OthersUntouched(sys: System, steps: seq<Step>, h: nat)
    requires h in sys.handlers && forall i :: 0 <= i < |steps| ==> Elsewhere(steps[i], h)
    ensures h in Run(sys, steps).handlers && Run(sys, steps).handlers[h] == sys.handlers[h]
    decreases |steps|
  {
    if steps != [] {
      assert Elsewhere(steps[0], h);
      StepElsewhere(sys, steps[0], h);
      hide Do;
      forall i | 0 <= i < |steps[1..]|
        ensures Elsewhere(steps[1..][i], h)
      {
        assert steps[1..][i] == steps[i + 1];
      }
      OthersUntouched(Do(sys, steps[0]), steps[1..], h);
    }
  }

  lemma StepElsewhere(sys: System, s: Step, h: nat)
    requires h in sys.handlers && Elsewhere(s, h)
    ensures h in Do(sys, s).handlers && Do(sys, s).handlers[h] == sys.handlers[h]
  {
    hide Apply, CanInsert, FindGateway, Refresh, GetByID, GetRequest, DeleteRequest;
  }

  lemma RemainingElsewhere(g: nat, h: nat, role: Role, f: Fresh)
    requires g != h
    ensures forall i :: 0 <= i < |Remaining(g, role, f)| ==> Elsewhere(Remaining(g, role, f)[i], h)
  {
  }

  lemma ClientRoom(nodes: Table, token: Request)
    requires nodes != [] && |nodes| <= 253 && token.role == Client
    ensures Room(nodes, token)
  {
    FreeIPExists(nodes);
  }

  /** After a handler's own run the table is still safe. */
  lemma RemainingSafe(sys: System, h: nat, f: Fresh)
    requires Safe(sys.shared) && At(sys, h, Loaded) && Allowed(sys, Insert(h, f))
    ensures Safe(Run(sys, Remaining(h, sys.handlers[h].token.role, f)).shared)
  {
    var steps := Remaining(h, sys.handlers[h].token.role, f);
    OnlyInsertDraws(sys, steps, h);
    HandlersKeepSafe(sys, steps);
    hide WellAllocated;
  }

  lemma {:induction false} NothingDrawn(sys: System, steps: seq<Step>)
    requires forall i :: 0 <= i < |steps| ==> !steps[i].Insert? && !steps[i].Issue? && !steps[i].Other?
    ensures AllowedRun(sys, steps) && TimelySteps(sys, steps)
    decreases |steps|
  {
    hide Do;
    if steps != [] {
      NothingDrawn(Do(sys, steps[0]), steps[1..]);
    }
  }

  lemma OnlyInsertDraws(sys: System, steps: seq<Step>, h: nat)
    requires steps != [] && steps[0].Insert? && Allowed(sys, steps[0])
    requires forall i :: 1 <= i < |steps| ==> !steps[i].Insert? && !steps[i].Issue? && !steps[i].Other?
    ensures AllowedRun(sys, steps) && TimelySteps(sys, steps)
  {
    hide Do;
    NothingDrawn(Do(sys, steps[0]), steps[1..]);
  }

  /**
   * Overlap is what it takes: two handlers that have both read the row of a client's token each end with
   * success and a node, one after the other, on any safe table with at most 252 rows.
   */
  lemma BothSucceed(sys: System, g: nat, h: nat, f: Fresh, f': Fresh)
    requires Safe(sys.shared) && sys.shared.nodes != [] && |sys.shared.nodes| <= 252 && g != h
    requires At(sys, g, Loaded) && At(sys, h, Loaded) && sys.handlers[g].token == sys.handlers[h].token
    requires sys.handlers[g].token.role == Client && Allowed(sys, Insert(g, f))
    requires Allowed(Run(sys, Remaining(g, Client, f)), Insert(h, f'))
    ensures var last := Run(Run(sys, Remaining(g, Client, f)), Remaining(h, Client, f'));
            && At(last, g, Answered) && At(last, h, Answered) && |last.shared.nodes| == |sys.shared.nodes| + 2
            && last.handlers[g].token == sys.handlers[g].token && last.handlers[h].token == sys.handlers[h].token
  {
    hide Run, Remaining, Safe, Room;
    var mid := Run(sys, Remaining(g, Client, f));
    ClientRoom(sys.shared.nodes, sys.handlers[g].token);
    LoadedSucceeds(sys, g, f);
    RemainingSafe(sys, g, f);
    RemainingElsewhere(g, h, Client, f);
    OthersUntouched(sys, Remaining(g, Client, f), h);
    ClientRoom(mid.shared.nodes, mid.handlers[h].token);
    LoadedSucceeds(mid, h, f');
    RemainingElsewhere(h, g, Client, f');
    OthersUntouched(mid, Remaining(h, Client, f'), g);
    RunKeepsToken(sys, Remaining(g, Client, f), g);
    RunKeepsToken(mid, Remaining(h, Client, f'), h);
  }

  // ---- such a run

  /** The gateway starts, a request is stored, and two handlers of its token arrive and read the row. */
  function TwoLoads(site: Site, f: Fresh, r: Request): seq<Step> {
    [Other(CheckGateway(0)), Other(PickAddress(0)), Other(CommitGateway(0, site, f)), Issue(r)]
    + [Arrive(1, r), Arrive(2, r), Load(1), Load(2)]
  }

  function Twice(site: Site, f: Fresh, r: Request, f1: Fresh, f2: Fresh): seq<Step> {
    (TwoLoads(site, f, r) + Remaining(1, Client, f1)) + Remaining(2, Client, f2)
  }

  lemma {:induction false} AllowedSplit(sys: System, a: seq<Step>, b: seq<Step>)
    requires AllowedRun(sys, a) && AllowedRun(Run(sys, a), b)
    ensures AllowedRun(sys, a + b)
    decreases |a|
  {
    hide Do, Allowed;
    if a == [] {
      assert a + b == b;
    } else {
      AllowedSplit(Do(sys, a[0]), a[1..], b);
      assert (a + b)[1..] == a[1..] + b;
    }
  }

  lemma AllowedFour(sys: System, a: Step, b: Step, c: Step, d: Step)
    requires Allowed(sys, a) && Allowed(Do(sys, a), b) && Allowed(Do(Do(sys, a), b), c)
    requires Allowed(Do(Do(Do(sys, a), b), c), d)
    ensures AllowedRun(sys, [a, b, c, d])
  {
    hide Do, Allowed;
    assert [a, b, c, d][1..] == [b, c, d] && [b, c, d][1..] == [c, d] && [c, d][1..] == [d] && [d][1..] == [];
    var s3 := Do(Do(Do(sys, a), b), c);
    assert AllowedRun(Do(s3, d), []);
    assert AllowedRun(s3, [d]);
    assert AllowedRun(Do(Do(sys, a), b), [c, d]);
    assert AllowedRun(Do(sys, a), [b, c, d]);
  }

  /** The gateway is there and the request stored. */
  lemma Started(site: Site, f: Fresh, r: Request)
    requires f.id != r.id
    ensures var steps := [Other(CheckGateway(0)), Other(PickAddress(0)), Other(CommitGateway(0, site, f)), Issue(r)];
            var sys := Run(QUIET, steps);
            && AllowedRun(QUIET, steps)
            && sys.shared == Shared([GatewayRow(site, WGPrivateIP(1), f)], {}, map[], map[], {f.id, r.id}, {f.publicKey})
            && sys.requests == [r] && sys.handlers == map[] && sys.spentAt == map[]
  {
    var a, b, c, d := Other(CheckGateway(0)), Other(PickAddress(0)), Other(CommitGateway(0, site, f)), Issue(r);
    assert NextWGPrivateIP([]) == Some(WGPrivateIP(1));
    hide FreeIPFrom;
    var s1 := Do(QUIET, a);
    assert s1.shared == IDLE.(checked := {0});
    var s2 := Do(s1, b);
    assert s2.shared == IDLE.(picks := map[0 := WGPrivateIP(1)]);
    var s3 := Do(s2, c);
    assert s3.shared == Shared([GatewayRow(site, WGPrivateIP(1), f)], {}, map[], map[], {f.id}, {f.publicKey});
    RunFour(QUIET, a, b, c, d);
    AllowedFour(QUIET, a, b, c, d);
  }

  lemma BothLoad(sys: System, r: Request)
    requires sys.requests == [r] && sys.handlers == map[] && r.role != Gateway
    ensures var steps := [Arrive(1, r), Arrive(2, r), Load(1), Load(2)];
            var last := Run(sys, steps);
            && AllowedRun(sys, steps) && last.shared == sys.shared
            && At(last, 1, Loaded) && At(last, 2, Loaded) && last.handlers[1].token == r == last.handlers[2].token
  {
    RunFour(sys, Arrive(1, r), Arrive(2, r), Load(1), Load(2));
    AllowedFour(sys, Arrive(1, r), Arrive(2, r), Load(1), Load(2));
    hide Run, AllowedRun;
    assert GetRequest([r], r.id) == Some(r);
    hide GetRequest;
  }

  lemma TwoLoaded(site: Site, f: Fresh, r: Request)
    requires f.id != r.id && r.role != Gateway
    ensures var sys := Run(QUIET, TwoLoads(site, f, r));
            && AllowedRun(QUIET, TwoLoads(site, f, r)) && Safe(sys.shared) && |sys.shared.nodes| == 1
            && At(sys, 1, Loaded) && At(sys, 2, Loaded) && sys.handlers[1].token == r == sys.handlers[2].token
            && sys.shared.ids == {f.id, r.id} && sys.shared.keys == {f.publicKey}
  {
    var a := [Other(CheckGateway(0)), Other(PickAddress(0)), Other(CommitGateway(0, site, f)), Issue(r)];
    var b := [Arrive(1, r), Arrive(2, r), Load(1), Load(2)];
    Started(site, f, r);
    FirstGateway(site, f);
    hide Run, AllowedRun, Refresh, Consistent, Meshed;
    var mid := Run(QUIET, a);
    BothLoad(mid, r);
    RunSplit(QUIET, a, b);
    AllowedSplit(QUIET, a, b);
  }

  lemma StepNames(sys: System, s: Step, f: Fresh)
    requires !s.Issue? && !s.Other? && (s.Insert? ==> s.f == f)
    ensures Do(sys, s).shared.ids <= sys.shared.ids + {f.id} && Do(sys, s).shared.keys <= sys.shared.keys + {f.publicKey}
  {
    hide Rows, CanInsert, GetRequest, DeleteRequest, FindGateway, Refresh, GetByID, NextWGPrivateIP;
  }

  lemma {:induction false} RunNames(sys: System, steps: seq<Step>, f: Fresh)
    requires forall i :: 0 <= i < |steps| ==> !steps[i].Issue? && !steps[i].Other? && (steps[i].Insert? ==> steps[i].f == f)
    ensures Run(sys, steps).shared.ids <= sys.shared.ids + {f.id}
    ensures Run(sys, steps).shared.keys <= sys.shared.keys + {f.publicKey}
    decreases |steps|
  {
    hide Do;
    if steps != [] {
      StepNames(sys, steps[0], f);
      RunNames(Do(sys, steps[0]), steps[1..], f);
    }
  }

  /** What a handler's own run needs and leaves of the names. */
  lemma RemainingNames(sys: System, h: nat, role: Role, f: Fresh)
    requires Allowed(sys, Insert(h, f))
    ensures AllowedRun(sys, Remaining(h, role, f))
    ensures var last := Run(sys, Remaining(h, role, f));
            last.shared.ids <= sys.shared.ids + {f.id} && last.shared.keys <= sys.shared.keys + {f.publicKey}
  {
    OnlyInsertDraws(sys, Remaining(h, role, f), h);
    RunNames(sys, Remaining(h, role, f), f);
  }

  /** From the empty system: one token, two overlapping handlers, two successes. */
  lemma TokenAnsweredTwice(site: Site, f: Fresh, r: Request, f1: Fresh, f2: Fresh)
    requires r.role == Client && f.id != r.id
    requires f1.id !in {f.id, r.id} && f2.id !in {f.id, r.id, f1.id}
    requires f1.publicKey != f.publicKey && f2.publicKey !in {f.publicKey, f1.publicKey}
    ensures AllowedRun(QUIET, Twice(site, f, r, f1, f2))
    ensures var last := Run(QUIET, Twice(site, f, r, f1, f2));
            && At(last, 1, Answered) && At(last, 2, Answered) && last.handlers[1].token == r == last.handlers[2].token
            && |last.shared.nodes| == 3
  {
    hide Run, AllowedRun, Remaining, Safe, TwoLoads;
    var sys := Run(QUIET, TwoLoads(site, f, r));
    TwoLoaded(site, f, r);
    RemainingNames(sys, 1, Client, f1);
    var mid := Run(sys, Remaining(1, Client, f1));
    RemainingNames(mid, 2, Client, f2);
    BothSucceed(sys, 1, 2, f1, f2);
    var start := TwoLoads(site, f, r) + Remaining(1, Client, f1);
    RunSplit(QUIET, TwoLoads(site, f, r), Remaining(1, Client, f1));
    RunSplit(QUIET, start, Remaining(2, Client, f2));
    AllowedSplit(QUIET, TwoLoads(site, f, r), Remaining(1, Client, f1));
    AllowedSplit(QUIET, start, Remaining(2, Client, f2));
  }
}
