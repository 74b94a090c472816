/** The table of published services: upsert by public address, deletion, and service parameters. */
module Services {
  import opened Common

  datatype Addr = Addr(protocol: string, host: string, port: nat)

  datatype Param = Param(kind: string, value: string)

  /** owner is the publishing node's ID, absent for services published on the gateway itself. */
  datatype Service = Service(owner: Option<string>, local: Addr, public: Addr, params: seq<Param>)

  type ServiceRows = seq<Service>

  function Find(rows: ServiceRows, key: Addr): Option<Service> {
    if rows == [] then None else if rows[0].public == key then Some(rows[0]) else Find(rows[1..], key)
  }

  /** Save: replaces the row with that public address, owner and parameters included, or appends. */
  function Save(rows: ServiceRows, s: Service): ServiceRows {
    if rows == [] then [s]
    else if rows[0].public == s.public then [s] + rows[1..]
    else [rows[0]] + Save(rows[1..], s)
  }

  function Delete(rows: ServiceRows, key: Addr): ServiceRows {
    if rows == [] then []
    else if rows[0].public == key then Delete(rows[1..], key)
    else [rows[0]] + Delete(rows[1..], key)
  }

  function WithoutParam(params: seq<Param>, p: Param): seq<Param> {
    if params == [] then []
    else WithoutParam(params[..|params| - 1], p) + if params[|params| - 1] == p then [] else [params[|params| - 1]]
  }

  function AddParam(rows: ServiceRows, key: Addr, p: Param): (ServiceRows, bool) {
    match Find(rows, key)
    case None => (rows, false)
    case Some(s) => if p in s.params then (rows, false) else (Save(rows, s.(params := s.params + [p])), true)
  }

  function RemoveParam(rows: ServiceRows, key: Addr, p: Param): (ServiceRows, bool) {
    match Find(rows, key)
    case None => (rows, false)
    case Some(s) =>
      if p !in s.params then (rows, false) else (Save(rows, s.(params := WithoutParam(s.params, p))), true)
  }

  // ---- the table as a map

  function Keys(rows: ServiceRows): set<Addr> {
    set i | 0 <= i < |rows| :: rows[i].public
  }

  function View(rows: ServiceRows): (m: map<Addr, Service>) {
    map key | key in Keys(rows) && Find(rows, key).Some? :: Find(rows, key).value
  }

  ghost predicate UniqueKeys(rows: ServiceRows) {
    forall i, j :: 0 <= i < j < |rows| ==> rows[i].public != rows[j].public
  }

  lemma {:induction false} FindMeans(rows: ServiceRows, key: Addr)
    ensures match Find(rows, key)
            case None => key !in Keys(rows)
            case Some(s) => s in rows && s.public == key && key in Keys(rows)
  {
    if rows != [] && rows[0].public != key {
      FindMeans(rows[1..], key);
      if key in Keys(rows) {
        var i :| 0 <= i < |rows| && rows[i].public == key;
        assert rows[1..][i - 1].public == key;
      }
    }
  }

  lemma {:induction false} FindUnique(rows: ServiceRows, s: Service)
    requires UniqueKeys(rows) && s in rows
    ensures Find(rows, s.public) == Some(s)
  {
    if rows[0].public != s.public {
      assert s in rows[1..];
      FindUnique(rows[1..], s);
    } else {
      var i :| 0 <= i < |rows| && rows[i] == s;
    }
  }

  lemma {:induction false} FindAfterSave(rows: ServiceRows, s: Service, key: Addr)
    ensures Find(Save(rows, s), key) == if key == s.public then Some(s) else Find(rows, key)
  {
    if rows != [] && rows[0].public != s.public {
      FindAfterSave(rows[1..], s, key);
    }
  }

  lemma {:induction false} FindAfterDelete(rows: ServiceRows, gone: Addr, key: Addr)
    ensures Find(Delete(rows, gone), key) == if key == gone then None else Find(rows, key)
  {
    if rows != [] {
      FindAfterDelete(rows[1..], gone, key);
    }
  }

  lemma ViewIsFind(rows: ServiceRows, key: Addr)
    ensures key in View(rows) <==> Find(rows, key).Some?
    ensures key in View(rows) ==> View(rows)[key] == Find(rows, key).value && View(rows)[key].public == key
  {
    FindMeans(rows, key);
  }

  /** Two tables with the same look-ups have the same view. */
  lemma SameView(a: ServiceRows, m: map<Addr, Service>)
    requires forall key :: key in m <==> Find(a, key).Some?
    requires forall key :: key in m ==> Find(a, key) == Some(m[key])
    ensures View(a) == m
  {
    forall key
      ensures key in View(a) <==> key in m
      ensures key in m ==> View(a)[key] == m[key]
    {
      ViewIsFind(a, key);
    }
  }

  /** As a map, publishing is an update. */
  lemma ViewAfterSave(rows: ServiceRows, s: Service)
    ensures View(Save(rows, s)) == View(rows)[s.public := s]
  {
    var m := View(rows)[s.public := s];
    forall key
      ensures key in m <==> Find(Save(rows, s), key).Some?
      ensures key in m ==> Find(Save(rows, s), key) == Some(m[key])
    {
      FindAfterSave(rows, s, key);
      ViewIsFind(rows, key);
    }
    SameView(Save(rows, s), m);
  }

  /** As a map, unpublishing removes a key. */
  lemma ViewAfterDelete(rows: ServiceRows, gone: Addr)
    ensures View(Delete(rows, gone)) == View(rows) - {gone}
  {
    var m := View(rows) - {gone};
    forall key
      ensures key in m <==> Find(Delete(rows, gone), key).Some?
      ensures key in m ==> Find(Delete(rows, gone), key) == Some(m[key])
    {
      FindAfterDelete(rows, gone, key);
      ViewIsFind(rows, key);
    }
    SameView(Delete(rows, gone), m);
  }

  // ---- invariants

  lemma {:induction false} SaveKeys(rows: ServiceRows, s: Service)
    ensures Keys(Save(rows, s)) == Keys(rows) + {s.public}
    ensures UniqueKeys(rows) ==> UniqueKeys(Save(rows, s))
    ensures forall t :: t in Save(rows, s) ==> t == s || t in rows
  {
    if rows != [] && rows[0].public != s.public {
      var rest, saved := rows[1..], Save(rows, s);
      SaveKeys(rest, s);
      KeysCons(rows[0], rest);
      KeysCons(rows[0], Save(rest, s));
      assert rows == [rows[0]] + rest;
      if UniqueKeys(rows) {
        assert rows[0].public !in Keys(rest);
        assert rows[0].public !in Keys(Save(rest, s));
      }
    } else if rows != [] {
      KeysCons(rows[0], rows[1..]);
      KeysCons(s, rows[1..]);
      assert rows == [rows[0]] + rows[1..];
    } else {
      KeysCons(s, []);
      assert [s] + [] == [s];
    }
  }

  lemma KeysCons(s: Service, rows: ServiceRows)
    ensures Keys([s] + rows) == {s.public} + Keys(rows)
    ensures s.public !in Keys(rows) && UniqueKeys(rows) ==> UniqueKeys([s] + rows)
  {
    var all := [s] + rows;
    assert all[0] == s;
    forall i | 0 <= i < |rows|
      ensures rows[i].public in Keys(all)
    {
      assert all[i + 1] == rows[i];
    }
    if s.public !in Keys(rows) && UniqueKeys(rows) {
      forall i, j | 0 <= i < j < |all|
        ensures all[i].public != all[j].public
      {
        assert rows[j - 1].public in Keys(rows);
      }
    }
  }

  lemma {:induction false} DeleteKeys(rows: ServiceRows, key: Addr)
    ensures Keys(Delete(rows, key)) == Keys(rows) - {key}
    ensures UniqueKeys(rows) ==> UniqueKeys(Delete(rows, key))
    ensures forall t :: t in Delete(rows, key) ==> t in rows
  {
    if rows != [] {
      DeleteKeys(rows[1..], key);
      assert rows == [rows[0]] + rows[1..];
      KeysCons(rows[0], rows[1..]);
      KeysCons(rows[0], Delete(rows[1..], key));
    }
  }

  lemma {:induction false} WithoutParamKeeps(params: seq<Param>, p: Param)
    requires Distinct(params)
    ensures Distinct(WithoutParam(params, p)) && p !in WithoutParam(params, p)
    ensures forall q :: q in WithoutParam(params, p) <==> q in params && q != p
    ensures p !in params ==> WithoutParam(params, p) == params
  {
    if params != [] {
      var n := |params| - 1;
      WithoutParamKeeps(params[..n], p);
      assert params == params[..n] + [params[n]];
      assert params[n] !in params[..n];
    }
  }

  datatype Command =
    | Publish(service: Service)
    | Unpublish(key: Addr)
    | NewParam(key: Addr, param: Param)
    | DropParam(key: Addr, param: Param)

  /** A published service starts without parameters, also when it replaces another. */
  function Perform(rows: ServiceRows, c: Command): ServiceRows {
    match c
    case Publish(s) => Save(rows, s.(params := []))
    case Unpublish(key) => Delete(rows, key)
    case NewParam(key, p) => AddParam(rows, key, p).0
    case DropParam(key, p) => RemoveParam(rows, key, p).0
  }

  function PerformAll(rows: ServiceRows, cs: seq<Command>): ServiceRows
    decreases |cs|
  {
    if cs == [] then rows else PerformAll(Perform(rows, cs[0]), cs[1..])
  }

  ghost predicate WellKept(rows: ServiceRows) {
    UniqueKeys(rows) && forall s :: s in rows ==> Distinct(s.params)
  }

  lemma PerformKeeps(rows: ServiceRows, c: Command)
    requires WellKept(rows)
    ensures WellKept(Perform(rows, c))
  {
    match c
    case Publish(s) => SaveKeys(rows, s.(params := []));
    case Unpublish(key) => DeleteKeys(rows, key);
    case NewParam(key, p) =>
      FindMeans(rows, key);
      if AddParam(rows, key, p).1 {
        var s := Find(rows, key).value;
        SaveKeys(rows, s.(params := s.params + [p]));
      }
    case DropParam(key, p) =>
      FindMeans(rows, key);
      if RemoveParam(rows, key, p).1 {
        var s := Find(rows, key).value;
        WithoutParamKeeps(s.params, p);
        SaveKeys(rows, s.(params := WithoutParam(s.params, p)));
      }
  }

  /** Over every sequence of commands public addresses stay unique and no service holds a parameter twice. */
  lemma {:induction false} TableInvariant(rows: ServiceRows, cs: seq<Command>)
    requires WellKept(rows)
    ensures WellKept(PerformAll(rows, cs))
    decreases |cs|
  {
    if cs != [] {
      PerformKeeps(rows, cs[0]);
      TableInvariant(Perform(rows, cs[0]), cs[1..]);
    }
  }

  lemma {:induction false} SaveTwice(rows: ServiceRows, s: Service, t: Service)
    requires s.public == t.public
    ensures Save(Save(rows, s), t) == Save(rows, t)
  {
    if rows != [] && rows[0].public != s.public {
      SaveTwice(rows[1..], s, t);
    }
  }

  lemma {:induction false} SaveFound(rows: ServiceRows, key: Addr)
    requires Find(rows, key).Some?
    ensures Save(rows, Find(rows, key).value) == rows
  {
    FindMeans(rows, key);
    if rows[0].public != key {
      SaveFound(rows[1..], key);
    }
  }

  /** A successful add is undone, table and all, by removing the same parameter. */
  lemma AddThenRemove(rows: ServiceRows, key: Addr, p: Param)
    requires WellKept(rows) && AddParam(rows, key, p).1
    ensures RemoveParam(AddParam(rows, key, p).0, key, p) == (rows, true)
  {
    FindMeans(rows, key);
    var s := Find(rows, key).value;
    var added := s.(params := s.params + [p]);
    FindAfterSave(rows, added, key);
    assert added.params[..|s.params|] == s.params;
    WithoutParamKeeps(s.params, p);
    assert WithoutParam(added.params, p) == s.params;
    SaveTwice(rows, added, s);
    SaveFound(rows, key);
  }

  /** Publishing makes the given owner's row, without parameters, whoever held the address before; other keys stay. */
  lemma PublishMeans(rows: ServiceRows, s: Service, key: Addr)
    ensures Find(Perform(rows, Publish(s)), key) ==
              if key == s.public then Some(Service(s.owner, s.local, s.public, [])) else Find(rows, key)
  {
    FindAfterSave(rows, s.(params := []), key);
  }

  /**
   * Adding succeeds exactly when there is a service without that parameter; then it stands last in the list, and
   * nothing else has changed.
   */
  lemma AddParamExactly(rows: ServiceRows, key: Addr, p: Param, other: Addr)
    ensures var (after, added) := AddParam(rows, key, p);
            && (added <==> Find(rows, key).Some? && p !in Find(rows, key).value.params)
            && (!added ==> after == rows)
            && (added ==>
                  var s := Find(rows, key).value;
                  && Find(after, key) == Some(Service(s.owner, s.local, s.public, s.params + [p]))
                  && Keys(after) == Keys(rows) && |after| == |rows|
                  && (other != key ==> Find(after, other) == Find(rows, other)))
  {
    FindMeans(rows, key);
    if AddParam(rows, key, p).1 {
      var s := Find(rows, key).value;
      var edited := s.(params := s.params + [p]);
      FindAfterSave(rows, edited, key);
      FindAfterSave(rows, edited, other);
      SaveInPlace(rows, edited);
    }
  }

  /** Saving at a held address replaces a row and adds none. */
  lemma {:induction false} SaveInPlace(rows: ServiceRows, s: Service)
    requires Find(rows, s.public).Some?
    ensures |Save(rows, s)| == |rows| && Keys(Save(rows, s)) == Keys(rows)
  {
    SaveKeys(rows, s);
    FindMeans(rows, s.public);
    if rows[0].public != s.public {
      SaveInPlace(rows[1..], s);
    }
    assert Keys(rows) + {s.public} == Keys(rows);
  }

  lemma {:induction false} WithoutParamAt(params: seq<Param>, k: nat)
    requires Distinct(params) && k < |params|
    ensures WithoutParam(params, params[k]) == params[..k] + params[k + 1..]
  {
    var n := |params| - 1;
    if k == n {
      WithoutParamKeeps(params[..n], params[n]);
      assert params[n + 1..] == [];
    } else {
      WithoutParamAt(params[..n], k);
      assert params[..n][..k] == params[..k] && params[..n][k + 1..] + [params[n]] == params[k + 1..];
    }
  }

  /**
   * Removing succeeds exactly when there is a service with that parameter, wherever it stands; then the list is the
   * old one without it, in the same order, and nothing else has changed.
   */
  lemma RemoveParamExactly(rows: ServiceRows, key: Addr, p: Param, other: Addr)
    requires WellKept(rows)
    ensures var (after, removed) := RemoveParam(rows, key, p);
            && (removed <==> Find(rows, key).Some? && p in Find(rows, key).value.params)
            && (!removed ==> after == rows)
            && (removed ==>
                  var s := Find(rows, key).value;
                  && Find(after, key).Some?
                  && (exists k :: 0 <= k < |s.params| && s.params[k] == p
                        && Find(after, key).value == Service(s.owner, s.local, s.public, s.params[..k] + s.params[k + 1..]))
                  && p !in Find(after, key).value.params
                  && Keys(after) == Keys(rows) && |after| == |rows|
                  && (other != key ==> Find(after, other) == Find(rows, other)))
  {
    FindMeans(rows, key);
    if RemoveParam(rows, key, p).1 {
      var s := Find(rows, key).value;
      var edited := s.(params := WithoutParam(s.params, p));
      var k :| 0 <= k < |s.params| && s.params[k] == p;
      WithoutParamAt(s.params, k);
      WithoutParamKeeps(s.params, p);
      FindAfterSave(rows, edited, key);
      FindAfterSave(rows, edited, other);
      SaveInPlace(rows, edited);
      assert edited == Service(s.owner, s.local, s.public, s.params[..k] + s.params[k + 1..]);
    }
  }

  // ---- the repository

  class ServiceTable {
    var rows: ServiceRows

    constructor ()
      ensures rows == []
    {
      rows := [];
    }

    /** First the existing row is looked up, then it is created or overwritten. */
    method SaveService(s: Service)
      modifies this
      ensures rows == Save(old(rows), s)
    {
      var existing := Find(rows, s.public);
      if existing.None? {
        SaveMissing(rows, s);
        rows := rows + [s];
      } else {
        rows := Save(rows, s);
      }
    }

    lemma {:induction false} SaveMissing(t: ServiceRows, s: Service)
      requires Find(t, s.public).None?
      ensures Save(t, s) == t + [s]
    {
      if t != [] {
        SaveMissing(t[1..], s);
        assert t + [s] == [t[0]] + (t[1..] + [s]);
      }
    }

    method DeleteService(key: Addr) returns (deleted: bool)
      modifies this
      ensures rows == Delete(old(rows), key)
      ensures deleted <==> key in Keys(old(rows))
    {
      FindMeans(rows, key);
      deleted := Find(rows, key).Some?;
      rows := Delete(rows, key);
    }

    method AddServiceParam(key: Addr, p: Param) returns (added: bool)
      modifies this
      ensures (rows, added) == AddParam(old(rows), key, p)
    {
      var found := Find(rows, key);
      if found.None? {
        return false;
      }
      var service := found.value;
      for i := 0 to |service.params|
        invariant rows == old(rows) && p !in service.params[..i]
      {
        if service.params[i] == p {
          return false;
        }
      }
      service := service.(params := service.params + [p]);
      rows := Save(rows, service);
      added := true;
    }

    method RemoveServiceParam(key: Addr, p: Param) returns (removed: bool)
      modifies this
      ensures (rows, removed) == RemoveParam(old(rows), key, p)
    {
      var found := Find(rows, key);
      if found.None? {
        return false;
      }
      var service := found.value;
      var newParams: seq<Param> := [];
      var paramFound := false;
      for i := 0 to |service.params|
        invariant newParams == WithoutParam(service.params[..i], p)
        invariant paramFound <==> p in service.params[..i]
      {
        assert service.params[..i + 1][..i] == service.params[..i];
        if service.params[i] == p {
          paramFound := true;
          continue;
        }
        newParams := newParams + [service.params[i]];
      }
      assert service.params[..|service.params|] == service.params;
      if !paramFound {
        return false;
      }
      rows := Save(rows, service.(params := newParams));
      removed := true;
    }
  }
}
