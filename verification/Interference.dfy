/**
 * Several servers reconciling at once, each with its snapshot taken first and its calls made later, and
 * manual publications between any two calls.
 */
module Interference {
  import opened Common
  import opened Services
  import opened Reconcile
  import opened Convergence

  /** The table, and for each server the calls of its current round that are still to be made. */
  datatype System = System(rows: ServiceRows, pending: map<string, seq<Command>>)

  datatype Step =
    | TakeSnapshot(me: string, cs: Containers, order: seq<string>)
    | MakeCall(me: string, succeeds: bool)
    | Manual(owner: Option<string>, call: Command)

  function Actor(s: Step): Option<string> {
    match s
    case TakeSnapshot(me, _, _) => Some(me)
    case MakeCall(me, _) => Some(me)
    case Manual(owner, _) => owner
  }

  function PendingOf(sys: System, me: string): seq<Command> {
    if me in sys.pending then sys.pending[me] else []
  }

  /** A round starts only when the previous one has made its calls; a failed call is skipped. */
  function Do(sys: System, s: Step, parse: Parser): System {
    match s
    case TakeSnapshot(me, cs, order) =>
      if PendingOf(sys, me) != [] then sys
      else sys.(pending := sys.pending[me := Plan(sys.rows, me, cs, order, parse)])
    case MakeCall(me, succeeds) =>
      var calls := PendingOf(sys, me);
      if calls == [] then sys
      else System(if succeeds then Perform(sys.rows, calls[0]) else sys.rows, sys.pending[me := calls[1..]])
    case Manual(_, call) => sys.(rows := Perform(sys.rows, call))
  }

  function DoAll(sys: System, steps: seq<Step>, parse: Parser): System
    decreases |steps|
  {
    if steps == [] then sys else DoAll(Do(sys, steps[0], parse), steps[1..], parse)
  }

  /** The steps of one owner, in order. */
  function StepsOf(steps: seq<Step>, owner: Option<string>): seq<Step> {
    if steps == [] then []
    else if Actor(steps[0]) == owner then [steps[0]] + StepsOf(steps[1..], owner)
    else StepsOf(steps[1..], owner)
  }

  /** The rows of one owner, in table order. */
  function Slice(rows: ServiceRows, owner: Option<string>): ServiceRows {
    if rows == [] then []
    else if rows[0].owner == owner then [rows[0]] + Slice(rows[1..], owner)
    else Slice(rows[1..], owner)
  }

  // ---- discipline: every public address is used by at most one owner

  /** Who may use an address. */
  type Claim = Addr -> Option<string>

  predicate CallClaimed(call: Command, owner: Option<string>, claim: Claim) {
    match call
    case Publish(s) => s.owner == owner && claim(s.public) == owner
    case Unpublish(key) => claim(key) == owner
    case NewParam(key, _) => claim(key) == owner
    case DropParam(key, _) => claim(key) == owner
  }

  ghost predicate Disciplined(s: Step, claim: Claim, parse: Parser) {
    match s
    case TakeSnapshot(me, cs, order) =>
      forall host :: Valid(cs, host, parse) ==> claim(Declared(cs, host, parse)) == Some(me)
    case MakeCall(_, _) => true
    case Manual(owner, call) => CallClaimed(call, owner, claim)
  }

  ghost predicate AllDisciplined(steps: seq<Step>, claim: Claim, parse: Parser) {
    forall i :: 0 <= i < |steps| ==> Disciplined(steps[i], claim, parse)
  }

  ghost predicate RowsClaimed(rows: ServiceRows, claim: Claim) {
    forall i :: 0 <= i < |rows| ==> claim(rows[i].public) == rows[i].owner
  }

  ghost predicate CallsClaimed(calls: seq<Command>, owner: Option<string>, claim: Claim) {
    forall i :: 0 <= i < |calls| ==> CallClaimed(calls[i], owner, claim)
  }

  ghost predicate Orderly(sys: System, claim: Claim) {
    && RowsClaimed(sys.rows, claim)
    && forall me :: CallsClaimed(PendingOf(sys, me), Some(me), claim)
  }

  lemma {:induction false} SaveClaimed(rows: ServiceRows, s: Service, claim: Claim)
    requires RowsClaimed(rows, claim) && claim(s.public) == s.owner
    ensures RowsClaimed(Save(rows, s), claim)
  {
    if rows != [] && rows[0].public != s.public {
      SaveClaimed(rows[1..], s, claim);
    }
  }

  lemma {:induction false} DeleteClaimed(rows: ServiceRows, key: Addr, claim: Claim)
    requires RowsClaimed(rows, claim)
    ensures RowsClaimed(Delete(rows, key), claim)
  {
    if rows != [] {
      DeleteClaimed(rows[1..], key, claim);
    }
  }

  function WithParam(s: Service, p: Param): Service { s.(params := s.params + [p]) }

  function DroppedParam(s: Service, p: Param): Service { s.(params := WithoutParam(s.params, p)) }

  lemma PerformClaimed(rows: ServiceRows, call: Command, owner: Option<string>, claim: Claim)
    requires RowsClaimed(rows, claim) && CallClaimed(call, owner, claim)
    ensures RowsClaimed(Perform(rows, call), claim)
  {
    match call
    case Publish(s) => SaveClaimed(rows, s.(params := []), claim);
    case Unpublish(key) => DeleteClaimed(rows, key, claim);
    case NewParam(key, p) =>
      FindMeans(rows, key);
      if AddParam(rows, key, p).1 {
        SaveClaimed(rows, WithParam(Find(rows, key).value, p), claim);
      }
    case DropParam(key, p) =>
      FindMeans(rows, key);
      if RemoveParam(rows, key, p).1 {
        SaveClaimed(rows, DroppedParam(Find(rows, key).value, p), claim);
      }
  }

  /** Publishing an address the owner claims touches that owner's slice and no other. */
  lemma {:induction false} SliceSave(rows: ServiceRows, s: Service, owner: Option<string>, claim: Claim)
    requires RowsClaimed(rows, claim) && claim(s.public) == s.owner
    ensures Slice(Save(rows, s), owner) == if s.owner == owner then Save(Slice(rows, owner), s) else Slice(rows, owner)
  {
    if rows != [] {
      if rows[0].public != s.public {
        SliceSave(rows[1..], s, owner, claim);
      } else {
        assert rows[0].owner == s.owner;
      }
    }
  }

  lemma {:induction false} SliceDelete(rows: ServiceRows, key: Addr, owner: Option<string>, claim: Claim)
    requires RowsClaimed(rows, claim)
    ensures Slice(Delete(rows, key), owner) == if claim(key) == owner then Delete(Slice(rows, owner), key) else Slice(rows, owner)
  {
    if rows != [] {
      SliceDelete(rows[1..], key, owner, claim);
      assert rows[0].public == key ==> rows[0].owner == claim(key);
    }
  }

  /** The owner of an address finds it in its own slice. */
  lemma {:induction false} FindInSlice(rows: ServiceRows, key: Addr, owner: Option<string>, claim: Claim)
    requires RowsClaimed(rows, claim) && claim(key) == owner
    ensures Find(Slice(rows, owner), key) == Find(rows, key)
  {
    if rows != [] && rows[0].public != key {
      FindInSlice(rows[1..], key, owner, claim);
    } else if rows != [] {
      assert rows[0].owner == owner;
    }
  }

  /** A change of a row that keeps its owner and address acts on the owner's slice alone. */
  lemma SliceEdit(rows: ServiceRows, key: Addr, s: Service, owner: Option<string>, claim: Claim)
    requires RowsClaimed(rows, claim) && Find(rows, key).Some?
    requires s.public == key && s.owner == Find(rows, key).value.owner
    ensures claim(key) == s.owner
    ensures Slice(Save(rows, s), owner) == if claim(key) == owner then Save(Slice(rows, owner), s) else Slice(rows, owner)
  {
    FindMeans(rows, key);
    SliceSave(rows, s, owner, claim);
  }

  lemma SliceParam(rows: ServiceRows, key: Addr, p: Param, owner: Option<string>, claim: Claim)
    requires RowsClaimed(rows, claim)
    ensures Slice(AddParam(rows, key, p).0, owner)
         == if claim(key) == owner then AddParam(Slice(rows, owner), key, p).0 else Slice(rows, owner)
    ensures Slice(RemoveParam(rows, key, p).0, owner)
         == if claim(key) == owner then RemoveParam(Slice(rows, owner), key, p).0 else Slice(rows, owner)
  {
    hide Slice, Save, Find, WithoutParam;
    if claim(key) == owner {
      FindInSlice(rows, key, owner, claim);
    }
    if Find(rows, key).Some? {
      var s := Find(rows, key).value;
      FindMeans(rows, key);
      SliceEdit(rows, key, WithParam(s, p), owner, claim);
      SliceEdit(rows, key, DroppedParam(s, p), owner, claim);
    }
  }

  lemma SlicePerform(rows: ServiceRows, call: Command, actor: Option<string>, owner: Option<string>, claim: Claim)
    requires RowsClaimed(rows, claim) && CallClaimed(call, actor, claim)
    ensures Slice(Perform(rows, call), owner) == if actor == owner then Perform(Slice(rows, owner), call) else Slice(rows, owner)
  {
    match call
    case Publish(s) => SliceSave(rows, s.(params := []), owner, claim);
    case Unpublish(key) => SliceDelete(rows, key, owner, claim);
    case NewParam(key, p) => SliceParam(rows, key, p, owner, claim);
    case DropParam(key, p) => SliceParam(rows, key, p, owner, claim);
  }

  // ---- a round looks only at the node's own slice

  lemma {:induction false} SliceSplit(a: ServiceRows, b: ServiceRows, owner: Option<string>)
    ensures Slice(a + b, owner) == Slice(a, owner) + Slice(b, owner)
  {
    if a == [] {
      assert a + b == b;
    } else {
      SliceSplit(a[1..], b, owner);
      assert (a + b)[1..] == a[1..] + b;
    }
  }

  lemma {:induction false} PublishedIsSlice(rows: ServiceRows, me: string)
    ensures PublishedBy(rows, me) == Slice(rows, Some(me))
  {
    if rows != [] {
      var n := |rows| - 1;
      PublishedIsSlice(rows[..n], me);
      SliceSplit(rows[..n], [rows[n]], Some(me));
      assert rows == rows[..n] + [rows[n]];
      assert Slice([rows[n]], Some(me)) == if rows[n].owner == Some(me) then [rows[n]] else [];
    }
  }

  lemma {:induction false} SliceTwice(rows: ServiceRows, owner: Option<string>)
    ensures Slice(Slice(rows, owner), owner) == Slice(rows, owner)
  {
    if rows != [] {
      SliceTwice(rows[1..], owner);
      if rows[0].owner == owner {
        assert Slice(rows, owner)[1..] == Slice(rows[1..], owner);
      }
    }
  }

  lemma PlanFromSlice(rows: ServiceRows, me: string, cs: Containers, order: seq<string>, parse: Parser)
    ensures Plan(rows, me, cs, order, parse) == Plan(Slice(rows, Some(me)), me, cs, order, parse)
  {
    PublishedIsSlice(rows, me);
    PublishedIsSlice(Slice(rows, Some(me)), me);
    SliceTwice(rows, Some(me));
  }

  lemma {:induction false} UnpublishClaimed(published: seq<Service>, cs: Containers, owner: Option<string>, claim: Claim)
    requires forall i :: 0 <= i < |published| ==> claim(published[i].public) == owner
    ensures CallsClaimed(UnpublishCalls(published, cs), owner, claim)
  {
    if published != [] {
      UnpublishClaimed(published[..|published| - 1], cs, owner, claim);
    }
  }

  lemma {:induction false} PublishClaimed(
      published: seq<Service>, me: string, cs: Containers, order: seq<string>, parse: Parser, claim: Claim)
    requires forall host :: Valid(cs, host, parse) ==> claim(Declared(cs, host, parse)) == Some(me)
    ensures CallsClaimed(PublishCalls(published, me, cs, order, parse), Some(me), claim)
  {
    if order != [] {
      PublishClaimed(published, me, cs, order[..|order| - 1], parse, claim);
    }
  }

  lemma PlanClaimed(rows: ServiceRows, me: string, cs: Containers, order: seq<string>, parse: Parser, claim: Claim)
    requires RowsClaimed(rows, claim)
    requires forall host :: Valid(cs, host, parse) ==> claim(Declared(cs, host, parse)) == Some(me)
    ensures CallsClaimed(Plan(rows, me, cs, order, parse), Some(me), claim)
  {
    var published := PublishedBy(rows, me);
    PublishedMeans(rows, me);
    forall i | 0 <= i < |published|
      ensures claim(published[i].public) == Some(me)
    {
      assert published[i] in published;
    }
    UnpublishClaimed(published, cs, Some(me), claim);
    PublishClaimed(published, me, cs, order, parse, claim);
    hide UnpublishCalls, PublishCalls, PublishedBy;
  }

  // ---- simulation

  /** solo is what sys looks like to one owner. */
  ghost predicate Simulates(sys: System, solo: System, owner: Option<string>) {
    && solo.rows == Slice(sys.rows, owner)
    && forall me :: Some(me) == owner ==> PendingOf(sys, me) == PendingOf(solo, me)
  }

  lemma DoOrderly(sys: System, s: Step, claim: Claim, parse: Parser)
    requires Orderly(sys, claim) && Disciplined(s, claim, parse)
    ensures Orderly(Do(sys, s, parse), claim)
  {
    match s
    case TakeSnapshot(me, cs, order) =>
      PlanClaimed(sys.rows, me, cs, order, parse, claim);
      hide Plan;
    case MakeCall(me, succeeds) =>
      var calls := PendingOf(sys, me);
      assert CallsClaimed(calls, Some(me), claim);
      if calls != [] {
        assert CallClaimed(calls[0], Some(me), claim);
        PerformClaimed(sys.rows, calls[0], Some(me), claim);
      }
      hide Perform;
    case Manual(owner, call) =>
      PerformClaimed(sys.rows, call, owner, claim);
      hide Perform;
  }

  /** A step of another owner is invisible; an own step acts on the slice as if it were the table. */
  lemma DoSimulates(sys: System, solo: System, s: Step, owner: Option<string>, claim: Claim, parse: Parser)
    requires Orderly(sys, claim) && Disciplined(s, claim, parse) && Simulates(sys, solo, owner)
    ensures Simulates(Do(sys, s, parse), if Actor(s) == owner then Do(solo, s, parse) else solo, owner)
  {
    match s
    case TakeSnapshot(me, cs, order) =>
      PlanFromSlice(sys.rows, me, cs, order, parse);
      hide Plan, Slice;
    case MakeCall(me, succeeds) =>
      var calls := PendingOf(sys, me);
      assert CallsClaimed(calls, Some(me), claim);
      if calls != [] {
        assert CallClaimed(calls[0], Some(me), claim);
        SlicePerform(sys.rows, calls[0], Some(me), owner, claim);
      }
      hide Perform, Slice;
    case Manual(who, call) =>
      SlicePerform(sys.rows, call, who, owner, claim);
      hide Perform, Slice;
  }

  /**
   * Non-interference: in every interleaving of servers and manual publications, with calls that may fail,
   * in which each public address is used by at most one owner, every owner's rows and outstanding calls
   * evolve exactly as if that owner were alone.
   */
  lemma {:induction false} OwnersDoNotInterfere(
      sys: System, solo: System, steps: seq<Step>, owner: Option<string>, claim: Claim, parse: Parser)
    requires Orderly(sys, claim) && AllDisciplined(steps, claim, parse) && Simulates(sys, solo, owner)
    ensures Simulates(DoAll(sys, steps, parse), DoAll(solo, StepsOf(steps, owner), parse), owner)
    decreases |steps|
  {
    if steps != [] {
      DoOrderly(sys, steps[0], claim, parse);
      DoSimulates(sys, solo, steps[0], owner, claim, parse);
      hide Orderly, Disciplined, Simulates, Do;
      var next := if Actor(steps[0]) == owner then Do(solo, steps[0], parse) else solo;
      OwnersDoNotInterfere(Do(sys, steps[0], parse), next, steps[1..], owner, claim, parse);
      StepsOfCons(solo, next, steps, owner, parse);
    }
  }

  lemma StepsOfCons(solo: System, next: System, steps: seq<Step>, owner: Option<string>, parse: Parser)
    requires steps != [] && next == if Actor(steps[0]) == owner then Do(solo, steps[0], parse) else solo
    ensures DoAll(solo, StepsOf(steps, owner), parse) == DoAll(next, StepsOf(steps[1..], owner), parse)
  {
    hide Do;
    var rest := StepsOf(steps[1..], owner);
    if Actor(steps[0]) == owner {
      assert StepsOf(steps, owner) == [steps[0]] + rest;
      assert ([steps[0]] + rest)[1..] == rest;
    } else {
      assert StepsOf(steps, owner) == rest;
    }
  }

  /** In particular no single step removes, adds or changes a row of anyone but its actor. */
  lemma NobodyTouchesOthers(sys: System, s: Step, owner: Option<string>, claim: Claim, parse: Parser)
    requires Orderly(sys, claim) && Disciplined(s, claim, parse) && Actor(s) != owner
    ensures Slice(Do(sys, s, parse).rows, owner) == Slice(sys.rows, owner)
  {
    var solo := System(Slice(sys.rows, owner), if owner.Some? then map[owner.value := PendingOf(sys, owner.value)] else map[]);
    assert Simulates(sys, solo, owner);
    DoSimulates(sys, solo, s, owner, claim, parse);
    hide Do, Slice, Orderly, Disciplined;
  }

  // ---- one server among many

  /** me's steps are rounds against the same labels, with calls that succeed. */
  predicate Reconciles(s: Step, me: string, cs: Containers) {
    match s
    case TakeSnapshot(who, labels, _) => who == me && labels == cs
    case MakeCall(who, succeeds) => who == me && succeeds
    case Manual(_, _) => false
  }

  /** Every listing is complete. */
  ghost predicate Listed(s: Step, cs: Containers) {
    s.TakeSnapshot? ==> Enumerates(s.order, cs)
  }

  /** The listings of the rounds that start along me's own steps. */
  function Started(solo: System, me: string, steps: seq<Step>, parse: Parser): seq<seq<string>>
    decreases |steps|
  {
    if steps == [] then []
    else
      (if steps[0].TakeSnapshot? && PendingOf(solo, me) == [] then [steps[0].order] else [])
      + Started(Do(solo, steps[0], parse), me, steps[1..], parse)
  }

  lemma {:induction false} RoundsCons(rows: ServiceRows, me: string, cs: Containers, first: seq<string>, rest: seq<seq<string>>, parse: Parser)
    ensures Rounds(rows, me, cs, [first] + rest, parse) == Rounds(Round(rows, me, cs, first, parse), me, cs, rest, parse)
  {
    hide Round;
    var all := [first] + rest;
    if rest == [] {
      assert all[..0] == [] && all == [first];
      assert Rounds(rows, me, cs, all[..0], parse) == rows;
    } else {
      var n := |rest| - 1;
      RoundsCons(rows, me, cs, first, rest[..n], parse);
      assert all[..|all| - 1] == [first] + rest[..n];
    }
  }

  /** Calling the outstanding rest of the current round. */
  function Finished(solo: System, me: string): ServiceRows {
    PerformAll(solo.rows, PendingOf(solo, me))
  }

  lemma SoloStep(solo: System, me: string, cs: Containers, s: Step, parse: Parser)
    requires Reconciles(s, me, cs)
    ensures Finished(Do(solo, s, parse), me)
         == if s.TakeSnapshot? && PendingOf(solo, me) == [] then Round(Finished(solo, me), me, cs, s.order, parse)
            else Finished(solo, me)
  {
    hide Plan, Perform;
    match s
    case TakeSnapshot(_, _, order) =>
      if PendingOf(solo, me) == [] {
        assert Finished(solo, me) == solo.rows;
      }
    case MakeCall(_, _) =>
      if PendingOf(solo, me) != [] {
        assert PendingOf(Do(solo, s, parse), me) == PendingOf(solo, me)[1..];
      }
  }

  /** Step by step, a server alone does whole rounds. */
  lemma {:induction false} SoloRounds(solo: System, me: string, cs: Containers, steps: seq<Step>, parse: Parser)
    requires forall i :: 0 <= i < |steps| ==> Reconciles(steps[i], me, cs)
    ensures Finished(DoAll(solo, steps, parse), me)
         == Rounds(Finished(solo, me), me, cs, Started(solo, me, steps, parse), parse)
    decreases |steps|
  {
    hide Do, Finished, Round, Reconciles;
    if steps != [] {
      assert Reconciles(steps[0], me, cs);
      var next := Do(solo, steps[0], parse);
      SoloStep(solo, me, cs, steps[0], parse);
      forall i | 0 <= i < |steps[1..]|
        ensures Reconciles(steps[1..][i], me, cs)
      {
        assert steps[1..][i] == steps[i + 1];
      }
      SoloRounds(next, me, cs, steps[1..], parse);
      var rest := Started(next, me, steps[1..], parse);
      if steps[0].TakeSnapshot? && PendingOf(solo, me) == [] {
        RoundsCons(Finished(solo, me), me, cs, steps[0].order, rest, parse);
      } else {
        assert Started(solo, me, steps, parse) == [] + rest == rest;
      }
    }
  }

  lemma {:induction false} StartedEnumerates(solo: System, me: string, cs: Containers, steps: seq<Step>, parse: Parser)
    requires forall i :: 0 <= i < |steps| ==> Listed(steps[i], cs)
    ensures AllEnumerate(Started(solo, me, steps, parse), cs)
    decreases |steps|
  {
    hide Do, Enumerates;
    if steps != [] {
      assert Listed(steps[0], cs);
      forall i | 0 <= i < |steps[1..]|
        ensures Listed(steps[1..][i], cs)
      {
        assert steps[1..][i] == steps[i + 1];
      }
      StartedEnumerates(Do(solo, steps[0], parse), me, cs, steps[1..], parse);
    }
  }

  lemma {:induction false} SliceUnique(rows: ServiceRows, owner: Option<string>)
    requires UniqueKeys(rows)
    ensures UniqueKeys(Slice(rows, owner)) && Keys(Slice(rows, owner)) <= Keys(rows)
  {
    if rows != [] {
      SliceUnique(rows[1..], owner);
      KeysCons(rows[0], rows[1..]);
      KeysCons(rows[0], Slice(rows[1..], owner));
      assert rows == [rows[0]] + rows[1..];
      assert rows[0].public !in Keys(rows[1..]);
    }
  }

  lemma {:induction false} DoAllUnique(sys: System, steps: seq<Step>, parse: Parser)
    requires UniqueKeys(sys.rows)
    ensures UniqueKeys(DoAll(sys, steps, parse).rows)
    decreases |steps|
  {
    if steps != [] {
      hide UniqueKeys, Perform, Plan;
      match steps[0] {
        case TakeSnapshot(_, _, _) =>
        case MakeCall(me, succeeds) => if PendingOf(sys, me) != [] { PerformUnique(sys.rows, PendingOf(sys, me)[0]); }
        case Manual(_, call) => PerformUnique(sys.rows, call);
      }
      DoAllUnique(Do(sys, steps[0], parse), steps[1..], parse);
    }
  }

  /** Being settled is a matter of the server's own slice. */
  lemma SettledInSlice(rows: ServiceRows, me: string, cs: Containers, order: seq<string>, parse: Parser)
    requires UniqueKeys(rows) && Enumerates(order, cs)
    ensures Settled(View(rows), me, cs, parse) <==> Settled(View(Slice(rows, Some(me))), me, cs, parse)
  {
    SliceUnique(rows, Some(me));
    hide Settled, View, Plan, UniqueKeys, Slice;
    SettledMeansIdle(rows, me, cs, order, parse);
    SettledMeansIdle(Slice(rows, Some(me)), me, cs, order, parse);
    PlanFromSlice(rows, me, cs, order, parse);
  }

  /** The system as one server sees it when it has no call outstanding. */
  function Alone(sys: System, me: string): System {
    System(Slice(sys.rows, Some(me)), map[])
  }

  /**
   * Convergence among others: in every interleaving of any number of servers and of manual publications in
   * which each public address has one user, a server whose labels stay fixed, whose calls succeed, and which
   * starts two rounds more than it had misplaced services, ends with the table settled for it once its last
   * call is made, whatever the others did in between.
   */
  lemma {:induction false} ConvergesAmongOthers(
      sys: System, steps: seq<Step>, me: string, cs: Containers, order: seq<string>, claim: Claim, parse: Parser)
    requires Orderly(sys, claim) && AllDisciplined(steps, claim, parse) && UniqueKeys(sys.rows) && PendingOf(sys, me) == []
    requires DistinctDeclared(cs, parse) && Enumerates(order, cs)
    requires forall i :: 0 <= i < |StepsOf(steps, Some(me))| ==>
               Reconciles(StepsOf(steps, Some(me))[i], me, cs) && Listed(StepsOf(steps, Some(me))[i], cs)
    requires |Started(Alone(sys, me), me, StepsOf(steps, Some(me)), parse)|
          >= |MisplacedKeys(View(Slice(sys.rows, Some(me))), me, cs, parse)| + 2
    requires PendingOf(DoAll(sys, steps, parse), me) == []
    ensures Settled(View(DoAll(sys, steps, parse).rows), me, cs, parse)
  {
    var solo, own, last := Alone(sys, me), StepsOf(steps, Some(me)), DoAll(sys, steps, parse);
    var orders := Started(solo, me, own, parse);
    assert Simulates(sys, solo, Some(me));
    SliceUnique(sys.rows, Some(me));
    DoAllUnique(sys, steps, parse);
    OwnersDoNotInterfere(sys, solo, steps, Some(me), claim, parse);
    var end := DoAll(solo, own, parse);
    assert end.rows == Slice(last.rows, Some(me)) && PendingOf(end, me) == [];
    assert Finished(solo, me) == solo.rows && Finished(end, me) == end.rows;
    hide Orderly, AllDisciplined, Simulates, DoAll, StepsOf, Started, Slice, UniqueKeys, DistinctDeclared, Settled, View,
         MisplacedKeys, Enumerates, PendingOf, Finished, Reconciles, Listed;
    SoloRounds(solo, me, cs, own, parse);
    StartedEnumerates(solo, me, cs, own, parse);
    RoundsConverge(solo.rows, me, cs, orders, order, parse);
    SettledInSlice(last.rows, me, cs, order, parse);
  }

  /**
   * The exact discipline, round by round: a round of b leaves every service of a as it is if and only if none
   * sits at an address that a container of b is about to be published at.
   */
  lemma RoundSparesExactly(rows: ServiceRows, a: string, b: string, cs: Containers, order: seq<string>, parse: Parser)
    requires a != b && UniqueKeys(rows) && Enumerates(order, cs) && DistinctDeclared(cs, parse)
    ensures var m, m' := View(rows), View(Round(rows, b, cs, order, parse));
            (forall key :: Own(m, a, key) ==> key in m' && m'[key] == m[key])
            <==> (forall key :: Own(m, a, key) ==> !Claimed(m, b, cs, key, parse))
  {
    RoundHasEffect(rows, b, cs, order, parse);
    hide View, Round;
    var m, m' := View(rows), View(Round(rows, b, cs, order, parse));
    forall key | Own(m, a, key) && Claimed(m, b, cs, key, parse)
      ensures key in m' && m'[key] != m[key]
    {
      var host :| NewHost(m, b, cs, host, parse) && Declared(cs, host, parse) == key;
      assert m'[key] == Publication(b, cs, host, parse);
    }
  }

  // ---- what a shared address does

  /** key is held by `me` for `host` alone, and `other` has nothing published for `otherHost`. */
  ghost predicate Holds(m: ServiceMap, me: string, host: string, other: string, otherHost: string, key: Addr) {
    && Own(m, me, key) && m[key].local.host == host
    && (forall k :: Own(m, me, k) && m[k].local.host == host ==> k == key)
    && !HasHost(m, other, otherHost)
  }

  lemma OneRoundTakesOver(
      m: ServiceMap, m': ServiceMap, a: string, hostA: string, b: string, hostB: string, cs: Containers, parse: Parser)
    requires a != b && Valid(cs, hostB, parse) && DistinctDeclared(cs, parse)
    requires Holds(m, a, hostA, b, hostB, Declared(cs, hostB, parse)) && RoundEffect(m, m', b, cs, parse)
    ensures Holds(m', b, hostB, a, hostA, Declared(cs, hostB, parse))
  {
    var key := Declared(cs, hostB, parse);
    assert NewHost(m, b, cs, hostB, parse);
    assert m'[key] == Publication(b, cs, hostB, parse);
    forall k | Own(m', b, k) && m'[k].local.host == hostB
      ensures k == key
    {
      OwnAfterRound(m, m', b, cs, parse, k);
    }
    forall k | k in m'
      ensures !(Own(m', a, k) && m'[k].local.host == hostA)
    {
      ForeignAfterRound(m, m', b, cs, parse, k);
    }
  }

  /** A row after a round is the acting node's, or was there before. */
  lemma ForeignAfterRound(m: ServiceMap, m': ServiceMap, me: string, cs: Containers, parse: Parser, k: Addr)
    requires RoundEffect(m, m', me, cs, parse) && k in m'
    ensures m'[k].owner == Some(me) || (k in m && m[k] == m'[k])
  {
    if Claimed(m, me, cs, k, parse) {
      var host :| NewHost(m, me, cs, host, parse) && Declared(cs, host, parse) == k;
      assert m'[k] == Publication(me, cs, host, parse);
    }
  }

  /** Rounds of two servers in turn, the one at `turn` first. */
  function Alternate(
      rows: ServiceRows, n: nat, a: string, csA: Containers, orderA: seq<string>, b: string, csB: Containers, orderB: seq<string>,
      parse: Parser): ServiceRows
    decreases n
  {
    if n == 0 then rows
    else Alternate(Round(rows, b, csB, orderB, parse), n - 1, b, csB, orderB, a, csA, orderA, parse)
  }

  /** The two in turn, a first. */
  function HolderAfter(n: nat, a: string, b: string): string
    decreases n
  {
    if n == 0 then a else HolderAfter(n - 1, b, a)
  }

  lemma FlapStep(
      rows: ServiceRows, a: string, hostA: string, b: string, hostB: string, csB: Containers, orderB: seq<string>, parse: Parser)
    requires UniqueKeys(rows) && a != b && Enumerates(orderB, csB) && DistinctDeclared(csB, parse)
    requires Valid(csB, hostB, parse) && Holds(View(rows), a, hostA, b, hostB, Declared(csB, hostB, parse))
    ensures var next := Round(rows, b, csB, orderB, parse);
            UniqueKeys(next) && Holds(View(next), b, hostB, a, hostA, Declared(csB, hostB, parse))
  {
    var next := Round(rows, b, csB, orderB, parse);
    RoundHasEffect(rows, b, csB, orderB, parse);
    PerformAllUnique(rows, Plan(rows, b, csB, orderB, parse));
    hide View, UniqueKeys, Enumerates, DistinctDeclared, RoundEffect, Holds, Round;
    OneRoundTakesOver(View(rows), View(next), a, hostA, b, hostB, csB, parse);
  }

  /** A container of each of two servers is valid and declares key. */
  ghost predicate Rivals(
      a: string, hostA: string, csA: Containers, orderA: seq<string>,
      b: string, hostB: string, csB: Containers, orderB: seq<string>, parse: Parser, key: Addr) {
    && a != b && Enumerates(orderA, csA) && Enumerates(orderB, csB)
    && DistinctDeclared(csA, parse) && DistinctDeclared(csB, parse)
    && Valid(csA, hostA, parse) && Declared(csA, hostA, parse) == key
    && Valid(csB, hostB, parse) && Declared(csB, hostB, parse) == key
  }

  lemma RivalStep(
      rows: ServiceRows, a: string, hostA: string, csA: Containers, orderA: seq<string>,
      b: string, hostB: string, csB: Containers, orderB: seq<string>, parse: Parser, key: Addr)
    requires UniqueKeys(rows) && Rivals(a, hostA, csA, orderA, b, hostB, csB, orderB, parse, key)
    requires Holds(View(rows), a, hostA, b, hostB, key)
    ensures Own(View(rows), a, key)
    ensures Rivals(b, hostB, csB, orderB, a, hostA, csA, orderA, parse, key)
    ensures var next := Round(rows, b, csB, orderB, parse); UniqueKeys(next) && Holds(View(next), b, hostB, a, hostA, key)
  {
    FlapStep(rows, a, hostA, b, hostB, csB, orderB, parse);
    hide View, Round, UniqueKeys, Enumerates, DistinctDeclared, Own;
  }

  /**
   * When a container of each of two servers declares one public address, one server holds that address for its
   * container alone and the other has nothing published for its own, the two take the address from each other
   * in every round, for ever.
   */
  lemma {:induction false} SharedAddressFlaps(
      rows: ServiceRows, n: nat, a: string, hostA: string, csA: Containers, orderA: seq<string>,
      b: string, hostB: string, csB: Containers, orderB: seq<string>, parse: Parser, key: Addr)
    requires UniqueKeys(rows) && Rivals(a, hostA, csA, orderA, b, hostB, csB, orderB, parse, key)
    requires Holds(View(rows), a, hostA, b, hostB, key)
    ensures Own(View(Alternate(rows, n, a, csA, orderA, b, csB, orderB, parse)), HolderAfter(n, a, b), key)
    decreases n
  {
    hide View, UniqueKeys, Rivals, Holds, Own, Round;
    RivalStep(rows, a, hostA, csA, orderA, b, hostB, csB, orderB, parse, key);
    if n > 0 {
      SharedAddressFlaps(Round(rows, b, csB, orderB, parse), n - 1, b, hostB, csB, orderB, a, hostA, csA, orderA, parse, key);
    }
  }

  // ---- when two servers come to rest

  /** Every service of the node is at the address its container declares; none at all will do. */
  ghost predicate Home(m: ServiceMap, me: string, cs: Containers, parse: Parser) {
    forall key :: !Misplaced(m, me, cs, key, parse)
  }

  /** Valid containers of the two declare one address. */
  ghost predicate Contested(csA: Containers, csB: Containers, parse: Parser) {
    exists h, g :: Valid(csA, h, parse) && Valid(csB, g, parse) && Declared(csA, h, parse) == Declared(csB, g, parse)
  }

  /** Neither server plans a call. */
  predicate Rests(
      rows: ServiceRows, a: string, csA: Containers, orderA: seq<string>, b: string, csB: Containers, orderB: seq<string>,
      parse: Parser) {
    Plan(rows, a, csA, orderA, parse) == [] && Plan(rows, b, csB, orderB, parse) == []
  }

  lemma HomeIsPlace(m: ServiceMap, me: string, cs: Containers, parse: Parser, key: Addr)
    requires Home(m, me, cs, parse) && Own(m, me, key)
    ensures Valid(cs, m[key].local.host, parse) && Declared(cs, m[key].local.host, parse) == key
  {
    assert !Misplaced(m, me, cs, key, parse);
  }

  lemma HomeStays(m: ServiceMap, m': ServiceMap, me: string, cs: Containers, parse: Parser)
    requires RoundEffect(m, m', me, cs, parse) && Home(m, me, cs, parse)
    ensures Home(m', me, cs, parse)
  {
    RoundMisplacesNone(m, m', me, cs, parse);
    hide RoundEffect;
    forall key
      ensures !Misplaced(m', me, cs, key, parse)
    {
      assert key in MisplacedKeys(m', me, cs, parse) ==> key in MisplacedKeys(m, me, cs, parse);
    }
  }

  lemma HomeElsewhere(m: ServiceMap, m': ServiceMap, me: string, cs: Containers, other: string, csO: Containers, parse: Parser)
    requires me != other && RoundEffect(m, m', other, csO, parse) && Home(m, me, cs, parse)
    ensures Home(m', me, cs, parse)
  {
    forall key
      ensures !Misplaced(m', me, cs, key, parse)
    {
      if Own(m', me, key) {
        ForeignAfterRound(m, m', other, csO, parse, key);
        assert !Misplaced(m, me, cs, key, parse);
      }
    }
  }

  lemma HomeRoundSettles(m: ServiceMap, m': ServiceMap, me: string, cs: Containers, parse: Parser)
    requires RoundEffect(m, m', me, cs, parse) && Home(m, me, cs, parse) && DistinctDeclared(cs, parse)
    ensures Settled(m', me, cs, parse)
  {
    hide RoundEffect;
    forall key
      ensures !Orphaned(m, me, cs, key)
    {
      if Own(m, me, key) {
        HomeIsPlace(m, me, cs, parse, key);
      }
    }
    forall key | Own(m, me, key)
      ensures !Claimed(m, me, cs, key, parse)
    {
      HomeIsPlace(m, me, cs, parse, key);
      assert HasHost(m, me, m[key].local.host);
    }
    QuietRoundSettles(m, m', me, cs, parse);
  }

  lemma SettledElsewhere(m: ServiceMap, m': ServiceMap, me: string, cs: Containers, other: string, csO: Containers, parse: Parser)
    requires me != other && RoundEffect(m, m', other, csO, parse) && Home(m, me, cs, parse) && Settled(m, me, cs, parse)
    requires !Contested(cs, csO, parse)
    ensures Settled(m', me, cs, parse)
  {
    forall key | Own(m, me, key)
      ensures key in m' && m'[key] == m[key]
    {
      HomeIsPlace(m, me, cs, parse, key);
      assert !Claimed(m, other, csO, key, parse);
    }
    forall key | Own(m', me, key)
      ensures Own(m, me, key) && m[key] == m'[key]
    {
      ForeignAfterRound(m, m', other, csO, parse, key);
    }
    hide RoundEffect, Home, Contested;
    forall key
      ensures !Orphaned(m', me, cs, key)
    {
      assert !Orphaned(m, me, cs, key);
    }
    forall host
      ensures !NewHost(m', me, cs, host, parse)
    {
      assert !NewHost(m, me, cs, host, parse);
      if HasHost(m, me, host) {
        var key :| Own(m, me, key) && m[key].local.host == host;
        assert Own(m', me, key) && m'[key].local.host == host;
      }
    }
  }

  lemma SettledContradict(m: ServiceMap, a: string, csA: Containers, b: string, csB: Containers, parse: Parser)
    requires a != b && Home(m, a, csA, parse) && Home(m, b, csB, parse) && Contested(csA, csB, parse)
    ensures !(Settled(m, a, csA, parse) && Settled(m, b, csB, parse))
  {
    if Settled(m, a, csA, parse) && Settled(m, b, csB, parse) {
      var h, g :| Valid(csA, h, parse) && Valid(csB, g, parse) && Declared(csA, h, parse) == Declared(csB, g, parse);
      assert !NewHost(m, a, csA, h, parse) && !NewHost(m, b, csB, g, parse);
      var k :| Own(m, a, k) && m[k].local.host == h;
      var l :| Own(m, b, l) && m[l].local.host == g;
      HomeIsPlace(m, a, csA, parse, k);
      HomeIsPlace(m, b, csB, parse, l);
    }
  }

  lemma ContestedSwaps(csA: Containers, csB: Containers, parse: Parser)
    requires Contested(csA, csB, parse)
    ensures Contested(csB, csA, parse)
  {
  }

  /** From tables where everything of the two is at home, a contested address keeps them busy for ever. */
  lemma {:induction false} ContestedNeverRests(
      rows: ServiceRows, n: nat, a: string, csA: Containers, orderA: seq<string>,
      b: string, csB: Containers, orderB: seq<string>, parse: Parser)
    requires a != b && UniqueKeys(rows) && Enumerates(orderA, csA) && Enumerates(orderB, csB)
    requires DistinctDeclared(csA, parse) && DistinctDeclared(csB, parse) && Contested(csA, csB, parse)
    requires Home(View(rows), a, csA, parse) && Home(View(rows), b, csB, parse)
    ensures !Rests(Alternate(rows, n, a, csA, orderA, b, csB, orderB, parse), a, csA, orderA, b, csB, orderB, parse)
    decreases n
  {
    hide View, UniqueKeys, Enumerates, DistinctDeclared, Contested, Home, Plan, Round, Settled;
    if n == 0 {
      SettledMeansIdle(rows, a, csA, orderA, parse);
      SettledMeansIdle(rows, b, csB, orderB, parse);
      SettledContradict(View(rows), a, csA, b, csB, parse);
    } else {
      var next := Round(rows, b, csB, orderB, parse);
      RoundHasEffect(rows, b, csB, orderB, parse);
      RoundUnique(rows, b, csB, orderB, parse);
      hide RoundEffect;
      HomeStays(View(rows), View(next), b, csB, parse);
      HomeElsewhere(View(rows), View(next), a, csA, b, csB, parse);
      ContestedSwaps(csA, csB, parse);
      ContestedNeverRests(next, n - 1, b, csB, orderB, a, csA, orderA, parse);
    }
  }

  lemma RoundUnique(rows: ServiceRows, me: string, cs: Containers, order: seq<string>, parse: Parser)
    requires UniqueKeys(rows)
    ensures UniqueKeys(Round(rows, me, cs, order, parse))
  {
    PerformAllUnique(rows, Plan(rows, me, cs, order, parse));
  }

  /** Without one, a round of each is enough. */
  lemma UncontestedRests(
      rows: ServiceRows, a: string, csA: Containers, orderA: seq<string>,
      b: string, csB: Containers, orderB: seq<string>, parse: Parser)
    requires a != b && UniqueKeys(rows) && Enumerates(orderA, csA) && Enumerates(orderB, csB)
    requires DistinctDeclared(csA, parse) && DistinctDeclared(csB, parse) && !Contested(csA, csB, parse)
    requires Home(View(rows), a, csA, parse) && Home(View(rows), b, csB, parse)
    ensures var last := Round(Round(rows, b, csB, orderB, parse), a, csA, orderA, parse);
            Rests(last, a, csA, orderA, b, csB, orderB, parse)
  {
    hide View, UniqueKeys, Enumerates, DistinctDeclared, Home, Plan, Round, Settled;
    var next := Round(rows, b, csB, orderB, parse);
    var last := Round(next, a, csA, orderA, parse);
    if Contested(csB, csA, parse) {
      ContestedSwaps(csB, csA, parse);
    }
    hide Contested;
    RoundHasEffect(rows, b, csB, orderB, parse);
    RoundUnique(rows, b, csB, orderB, parse);
    RoundHasEffect(next, a, csA, orderA, parse);
    RoundUnique(next, a, csA, orderA, parse);
    hide RoundEffect;
    HomeRoundSettles(View(rows), View(next), b, csB, parse);
    HomeStays(View(rows), View(next), b, csB, parse);
    HomeElsewhere(View(rows), View(next), a, csA, b, csB, parse);
    HomeRoundSettles(View(next), View(last), a, csA, parse);
    SettledElsewhere(View(next), View(last), b, csB, a, csA, parse);
    SettledMeansIdle(last, a, csA, orderA, parse);
    SettledMeansIdle(last, b, csB, orderB, parse);
  }

  /**
   * Two servers reconciling in turn, starting where nothing of either is misplaced, for instance with nothing
   * published: they come to rest if and only if no valid containers of the two declare one address; and then
   * after one round each.
   */
  lemma {:induction false} AlternationRestsExactly(
      rows: ServiceRows, a: string, csA: Containers, orderA: seq<string>,
      b: string, csB: Containers, orderB: seq<string>, parse: Parser)
    requires a != b && UniqueKeys(rows) && Enumerates(orderA, csA) && Enumerates(orderB, csB)
    requires DistinctDeclared(csA, parse) && DistinctDeclared(csB, parse)
    requires Home(View(rows), a, csA, parse) && Home(View(rows), b, csB, parse)
    ensures (exists n :: Rests(Alternate(rows, n, a, csA, orderA, b, csB, orderB, parse), a, csA, orderA, b, csB, orderB, parse))
            <==> !Contested(csA, csB, parse)
    ensures !Contested(csA, csB, parse) ==>
              Rests(Alternate(rows, 2, a, csA, orderA, b, csB, orderB, parse), a, csA, orderA, b, csB, orderB, parse)
  {
    hide View, UniqueKeys, Enumerates, DistinctDeclared, Contested, Home, Rests, Round;
    if Contested(csA, csB, parse) {
      forall n: nat
        ensures !Rests(Alternate(rows, n, a, csA, orderA, b, csB, orderB, parse), a, csA, orderA, b, csB, orderB, parse)
      {
        ContestedNeverRests(rows, n, a, csA, orderA, b, csB, orderB, parse);
      }
    } else {
      UncontestedRests(rows, a, csA, orderA, b, csB, orderB, parse);
      var next := Round(rows, b, csB, orderB, parse);
      var last := Round(next, a, csA, orderA, parse);
      assert Alternate(next, 1, b, csB, orderB, a, csA, orderA, parse)
          == Alternate(last, 0, a, csA, orderA, b, csB, orderB, parse) == last;
      var two: nat := 2;
      assert Alternate(rows, two, a, csA, orderA, b, csB, orderB, parse) == last;
      assert Rests(Alternate(rows, two, a, csA, orderA, b, csB, orderB, parse), a, csA, orderA, b, csB, orderB, parse);
    }
  }

  /** At rest is for good. */
  lemma {:induction false} RestLasts(
      rows: ServiceRows, n: nat, a: string, csA: Containers, orderA: seq<string>,
      b: string, csB: Containers, orderB: seq<string>, parse: Parser)
    requires Rests(rows, a, csA, orderA, b, csB, orderB, parse)
    ensures Alternate(rows, n, a, csA, orderA, b, csB, orderB, parse) == rows
    decreases n
  {
    hide Plan;
    if n > 0 {
      RestLasts(rows, n - 1, b, csB, orderB, a, csA, orderA, parse);
    }
  }
}
