/**
 * Declarative publication: a server compares the services it published with its containers' labels,
 * unpublishes what lost its labels and publishes what is not published yet.
 */
module Reconcile {
  import opened Common
  import opened Services

  const LOCAL_LABEL := "wireport.service.local"
  const PUBLIC_LABEL := "wireport.service.public"

  type Labels = map<string, string>

  /** Container names with their labels; a container without labels has the empty map. */
  type Containers = map<string, Labels>

  /** utils.ParseAddress, whose URL parsing is library code. */
  type Parser = string -> Option<Addr>

  /** A missing label reads as the empty string. */
  function LabelOf(labels: Labels, key: string): string {
    if key in labels then labels[key] else ""
  }

  predicate Labelled(cs: Containers, host: string) {
    host in cs && LabelOf(cs[host], LOCAL_LABEL) != "" && LabelOf(cs[host], PUBLIC_LABEL) != ""
  }

  /** Both addresses parse and the local one names the container itself. */
  predicate Valid(cs: Containers, host: string, parse: Parser) {
    && Labelled(cs, host)
    && var local := parse(LabelOf(cs[host], LOCAL_LABEL));
       && local.Some? && local.value.host == host
       && parse(LabelOf(cs[host], PUBLIC_LABEL)).Some?
  }

  function Declared(cs: Containers, host: string, parse: Parser): Addr
    requires Valid(cs, host, parse)
  {
    parse(LabelOf(cs[host], PUBLIC_LABEL)).value
  }

  function Publication(me: string, cs: Containers, host: string, parse: Parser): Service
    requires Valid(cs, host, parse)
  {
    Service(Some(me), parse(LabelOf(cs[host], LOCAL_LABEL)).value, Declared(cs, host, parse), [])
  }

  /** A listing of the containers in some order, each once; map iteration promises no more. */
  ghost predicate Enumerates(order: seq<string>, cs: Containers) {
    && (forall i, j :: 0 <= i < j < |order| ==> order[i] != order[j])
    && (forall host :: host in order <==> host in cs)
  }

  // ---- one round

  function PublishedBy(rows: ServiceRows, me: string): seq<Service> {
    if rows == [] then []
    else PublishedBy(rows[..|rows| - 1], me)
         + if rows[|rows| - 1].owner == Some(me) then [rows[|rows| - 1]] else []
  }

  function UnpublishCalls(published: seq<Service>, cs: Containers): seq<Command> {
    if published == [] then []
    else
      var n := |published| - 1;
      UnpublishCalls(published[..n], cs)
      + if Labelled(cs, published[n].local.host) then [] else [Unpublish(published[n].public)]
  }

  predicate HostPublished(published: seq<Service>, host: string) {
    exists i :: 0 <= i < |published| && published[i].local.host == host
  }

  /** A valid container none of the node's services points at. */
  predicate IsNew(published: seq<Service>, cs: Containers, host: string, parse: Parser) {
    Valid(cs, host, parse) && !HostPublished(published, host)
  }

  function PublishCalls(published: seq<Service>, me: string, cs: Containers, order: seq<string>, parse: Parser): seq<Command> {
    if order == [] then []
    else
      var n := |order| - 1;
      PublishCalls(published, me, cs, order[..n], parse)
      + if IsNew(published, cs, order[n], parse) then [Publish(Publication(me, cs, order[n], parse))] else []
  }

  /** The calls of one round, decided on one snapshot of the table. */
  function Plan(rows: ServiceRows, me: string, cs: Containers, order: seq<string>, parse: Parser): seq<Command> {
    var published := PublishedBy(rows, me);
    UnpublishCalls(published, cs) + PublishCalls(published, me, cs, order, parse)
  }

  /** A round that nobody interrupts and in which every call succeeds. */
  function Round(rows: ServiceRows, me: string, cs: Containers, order: seq<string>, parse: Parser): ServiceRows {
    PerformAll(rows, Plan(rows, me, cs, order, parse))
  }

  // ---- the loops

  method FilterServicesPublishedByNode(all: ServiceRows, nodeID: string) returns (out: seq<Service>)
    ensures out == PublishedBy(all, nodeID)
  {
    out := [];
    for i := 0 to |all|
      invariant out == PublishedBy(all[..i], nodeID)
    {
      assert all[..i + 1][..i] == all[..i];
      if all[i].owner.Some? && all[i].owner.value == nodeID {
        out := out + [all[i]];
      }
    }
    assert all[..|all|] == all;
  }

  method ServicesToUnpublish(published: seq<Service>, cs: Containers) returns (calls: seq<Command>)
    ensures calls == UnpublishCalls(published, cs)
  {
    calls := [];
    for i := 0 to |published|
      invariant calls == UnpublishCalls(published[..i], cs)
    {
      assert published[..i + 1][..i] == published[..i];
      var host := published[i].local.host;
      var missingLabels := host !in cs || LabelOf(cs[host], LOCAL_LABEL) == "" || LabelOf(cs[host], PUBLIC_LABEL) == "";
      if !missingLabels {
        continue;
      }
      calls := calls + [Unpublish(published[i].public)];
    }
    assert published[..|published|] == published;
  }

  method ServicesToPublish(published: seq<Service>, me: string, cs: Containers, order: seq<string>, parse: Parser)
    returns (calls: seq<Command>)
    requires Enumerates(order, cs)
    ensures calls == PublishCalls(published, me, cs, order, parse)
  {
    calls := [];
    for i := 0 to |order|
      invariant calls == PublishCalls(published, me, cs, order[..i], parse)
    {
      assert order[..i + 1][..i] == order[..i];
      var containerName := order[i];
      assert containerName in order;
      var alreadyPublished := false;
      for k := 0 to |published|
        invariant !alreadyPublished
        invariant forall j :: 0 <= j < k ==> published[j].local.host != containerName
      {
        if published[k].local.host == containerName {
          alreadyPublished := true;
          break;
        }
      }
      assert alreadyPublished <==> HostPublished(published, containerName);
      if alreadyPublished {
        continue;
      }
      var localAddress := LabelOf(cs[containerName], LOCAL_LABEL);
      var publicAddress := LabelOf(cs[containerName], PUBLIC_LABEL);
      if localAddress == "" || publicAddress == "" {
        continue;
      }
      var local := parse(localAddress);
      if local.None? {
        continue;
      }
      if local.value.host != containerName {
        continue;
      }
      var public := parse(publicAddress);
      if public.None? {
        continue;
      }
      calls := calls + [Publish(Service(Some(me), local.value, public.value, []))];
    }
    assert order[..|order|] == order;
  }

  /** One whole round against the table. */
  method ReconcileGatewayServicesWithDockerLabels(
      table: ServiceTable, me: string, cs: Containers, order: seq<string>, parse: Parser)
    requires Enumerates(order, cs)
    modifies table
    ensures table.rows == Round(old(table.rows), me, cs, order, parse)
  {
    hide PublishedBy, UnpublishCalls, PublishCalls, Save, Delete, Find, Keys, Enumerates, Valid;
    var snapshot := table.rows;
    var publishedHere := FilterServicesPublishedByNode(snapshot, me);
    var servicesToUnpublish := ServicesToUnpublish(publishedHere, cs);
    var servicesToPublish := ServicesToPublish(publishedHere, me, cs, order, parse);
    for i := 0 to |servicesToUnpublish|
      invariant table.rows == PerformAll(snapshot, servicesToUnpublish[..i])
    {
      PerformAllLast(snapshot, servicesToUnpublish[..i + 1]);
      assert servicesToUnpublish[..i + 1][..i] == servicesToUnpublish[..i];
      UnpublishOnly(publishedHere, cs, i);
      var deleted := table.DeleteService(servicesToUnpublish[i].key);
    }
    assert servicesToUnpublish[..|servicesToUnpublish|] == servicesToUnpublish;
    ghost var cleaned := table.rows;
    for i := 0 to |servicesToPublish|
      invariant table.rows == PerformAll(cleaned, servicesToPublish[..i])
    {
      PerformAllLast(cleaned, servicesToPublish[..i + 1]);
      assert servicesToPublish[..i + 1][..i] == servicesToPublish[..i];
      PublishOnly(publishedHere, me, cs, order, parse, i);
      table.SaveService(servicesToPublish[i].service);
    }
    assert servicesToPublish[..|servicesToPublish|] == servicesToPublish;
    PerformAllSplit(snapshot, servicesToUnpublish, servicesToPublish);
  }

  lemma {:induction false} UnpublishOnly(published: seq<Service>, cs: Containers, i: nat)
    requires i < |UnpublishCalls(published, cs)|
    ensures UnpublishCalls(published, cs)[i].Unpublish?
  {
    var n := |published| - 1;
    if i < |UnpublishCalls(published[..n], cs)| {
      UnpublishOnly(published[..n], cs, i);
    }
  }

  lemma {:induction false} PublishOnly(published: seq<Service>, me: string, cs: Containers, order: seq<string>, parse: Parser, i: nat)
    requires i < |PublishCalls(published, me, cs, order, parse)|
    ensures var call := PublishCalls(published, me, cs, order, parse)[i]; call.Publish? && call.service.params == []
    ensures var call := PublishCalls(published, me, cs, order, parse)[i];
            exists host :: Valid(cs, host, parse) && call.service == Publication(me, cs, host, parse)
  {
    var n := |order| - 1;
    if i < |PublishCalls(published, me, cs, order[..n], parse)| {
      PublishOnly(published, me, cs, order[..n], parse, i);
    }
  }

  lemma {:induction false} PerformAllSplit(rows: ServiceRows, a: seq<Command>, b: seq<Command>)
    ensures PerformAll(rows, a + b) == PerformAll(PerformAll(rows, a), b)
    decreases |a|
  {
    hide Perform;
    if a == [] {
      assert a + b == b;
    } else {
      PerformAllSplit(Perform(rows, a[0]), a[1..], b);
      assert (a + b)[1..] == a[1..] + b;
    }
  }

  lemma PerformAllLast(rows: ServiceRows, a: seq<Command>)
    requires a != []
    ensures PerformAll(rows, a) == Perform(PerformAll(rows, a[..|a| - 1]), a[|a| - 1])
  {
    var front, last := a[..|a| - 1], a[|a| - 1];
    assert a == front + [last];
    PerformAllSplit(rows, front, [last]);
    assert PerformAll(PerformAll(rows, front), [last]) == Perform(PerformAll(rows, front), last);
  }

  // ---- rounds as maps

  type ServiceMap = map<Addr, Service>

  /** The declared public addresses of different containers differ. */
  ghost predicate DistinctDeclared(cs: Containers, parse: Parser) {
    forall h, g :: Valid(cs, h, parse) && Valid(cs, g, parse) && Declared(cs, h, parse) == Declared(cs, g, parse) ==> h == g
  }

  predicate Own(m: ServiceMap, me: string, key: Addr) {
    key in m && m[key].owner == Some(me)
  }

  ghost predicate HasHost(m: ServiceMap, me: string, host: string) {
    exists key :: Own(m, me, key) && m[key].local.host == host
  }

  ghost predicate NewHost(m: ServiceMap, me: string, cs: Containers, host: string, parse: Parser) {
    Valid(cs, host, parse) && !HasHost(m, me, host)
  }

  /** key is the declared address of a container that is about to be published. */
  ghost predicate Claimed(m: ServiceMap, me: string, cs: Containers, key: Addr, parse: Parser) {
    exists host :: NewHost(m, me, cs, host, parse) && Declared(cs, host, parse) == key
  }

  predicate Orphaned(m: ServiceMap, me: string, cs: Containers, key: Addr) {
    Own(m, me, key) && !Labelled(cs, m[key].local.host)
  }

  /** What a round does, address by address: new containers take theirs, orphans go, the rest stays. */
  ghost predicate RoundEffect(m: ServiceMap, m': ServiceMap, me: string, cs: Containers, parse: Parser) {
    && (forall host :: NewHost(m, me, cs, host, parse) ==>
          var key := Declared(cs, host, parse); key in m' && m'[key] == Publication(me, cs, host, parse))
    && (forall key :: !Claimed(m, me, cs, key, parse) ==>
          && (key in m' <==> key in m && !Orphaned(m, me, cs, key))
          && (key in m' ==> m'[key] == m[key]))
  }

  lemma {:induction false} PublishedMeans(rows: ServiceRows, me: string)
    ensures forall s :: s in PublishedBy(rows, me) <==> s in rows && s.owner == Some(me)
  {
    if rows != [] {
      var n := |rows| - 1;
      PublishedMeans(rows[..n], me);
      assert rows == rows[..n] + [rows[n]];
    }
  }

  /** Under unique public addresses the node's services are its entries of the view. */
  lemma PublishedInView(rows: ServiceRows, me: string, key: Addr)
    requires UniqueKeys(rows)
    ensures Own(View(rows), me, key) ==> View(rows)[key] in PublishedBy(rows, me) && View(rows)[key].public == key
    ensures forall s :: s in PublishedBy(rows, me) ==> Own(View(rows), me, s.public) && View(rows)[s.public] == s
  {
    PublishedMeans(rows, me);
    ViewIsFind(rows, key);
    FindMeans(rows, key);
    forall s | s in PublishedBy(rows, me)
      ensures Own(View(rows), me, s.public) && View(rows)[s.public] == s
    {
      FindUnique(rows, s);
      ViewIsFind(rows, s.public);
    }
  }

  lemma HostsAgree(rows: ServiceRows, me: string, host: string)
    requires UniqueKeys(rows)
    ensures HostPublished(PublishedBy(rows, me), host) <==> HasHost(View(rows), me, host)
  {
    var published, m := PublishedBy(rows, me), View(rows);
    if i :| 0 <= i < |published| && published[i].local.host == host {
      PublishedInView(rows, me, published[i].public);
      assert Own(m, me, published[i].public);
    }
    if key :| Own(m, me, key) && m[key].local.host == host {
      PublishedInView(rows, me, key);
      var i :| 0 <= i < |published| && published[i] == m[key];
    }
  }

  function UnlabelledKeys(published: seq<Service>, cs: Containers): set<Addr> {
    if published == [] then {}
    else
      var n := |published| - 1;
      UnlabelledKeys(published[..n], cs) + if Labelled(cs, published[n].local.host) then {} else {published[n].public}
  }

  lemma {:induction false} UnlabelledMeans(published: seq<Service>, cs: Containers, key: Addr)
    ensures key in UnlabelledKeys(published, cs) <==>
            exists i :: 0 <= i < |published| && !Labelled(cs, published[i].local.host) && published[i].public == key
  {
    if published != [] {
      var n := |published| - 1;
      UnlabelledMeans(published[..n], cs, key);
      if i :| 0 <= i < |published| && !Labelled(cs, published[i].local.host) && published[i].public == key {
        assert i < n ==> published[..n][i] == published[i];
      }
    }
  }

  /** The unpublish phase removes exactly the listed services that lack labels. */
  lemma {:induction false} ViewAfterUnpublish(rows: ServiceRows, published: seq<Service>, cs: Containers)
    ensures View(PerformAll(rows, UnpublishCalls(published, cs))) == View(rows) - UnlabelledKeys(published, cs)
  {
    if published != [] {
      var n := |published| - 1;
      var front, calls := UnpublishCalls(published[..n], cs), UnpublishCalls(published, cs);
      ViewAfterUnpublish(rows, published[..n], cs);
      hide View;
      if !Labelled(cs, published[n].local.host) {
        PerformAllSplit(rows, front, [Unpublish(published[n].public)]);
        var mid := PerformAll(rows, front);
        assert PerformAll(mid, [Unpublish(published[n].public)]) == Delete(mid, published[n].public);
        ViewAfterDelete(mid, published[n].public);
      } else {
        assert calls == front;
      }
    }
  }

  ghost predicate PublishedFrom(
      published: seq<Service>, cs: Containers, order: seq<string>, parse: Parser, key: Addr) {
    exists host :: host in order && IsNew(published, cs, host, parse) && Declared(cs, host, parse) == key
  }

  /** The publish phase gives every new container its address and leaves other addresses alone. */
  lemma {:induction false} ViewAfterPublish(
      rows: ServiceRows, published: seq<Service>, me: string, cs: Containers, order: seq<string>, parse: Parser)
    requires DistinctDeclared(cs, parse)
    requires forall i, j :: 0 <= i < j < |order| ==> order[i] != order[j]
    ensures var m, m' := View(rows), View(PerformAll(rows, PublishCalls(published, me, cs, order, parse)));
            && (forall host :: host in order && IsNew(published, cs, host, parse) ==>
                  var key := Declared(cs, host, parse); key in m' && m'[key] == Publication(me, cs, host, parse))
            && (forall key :: !PublishedFrom(published, cs, order, parse, key) ==>
                  (key in m' <==> key in m) && (key in m' ==> m'[key] == m[key]))
  {
    if order != [] {
      var n := |order| - 1;
      var front, last := order[..n], order[n];
      ViewAfterPublish(rows, published, me, cs, front, parse);
      var before := PublishCalls(published, me, cs, front, parse);
      assert forall host :: host in order <==> host in front || host == last;
      if IsNew(published, cs, last, parse) {
        var s := Publication(me, cs, last, parse);
        PerformAllSplit(rows, before, [Publish(s)]);
        var mid := PerformAll(rows, before);
        assert PerformAll(mid, [Publish(s)]) == Save(mid, s);
        ViewAfterSave(mid, s);
        PublishStep(View(rows), View(mid), published, me, cs, order, parse);
      } else {
        assert PublishCalls(published, me, cs, order, parse) == before;
        forall key | PublishedFrom(published, cs, front, parse, key)
          ensures PublishedFrom(published, cs, order, parse, key)
        {
          var host :| host in front && IsNew(published, cs, host, parse) && Declared(cs, host, parse) == key;
          assert host in order;
        }
      }
    }
  }

  lemma PublishStep(
      m: ServiceMap, mid: ServiceMap, published: seq<Service>, me: string, cs: Containers, order: seq<string>, parse: Parser)
    requires DistinctDeclared(cs, parse) && order != []
    requires var last := order[|order| - 1]; last !in order[..|order| - 1] && IsNew(published, cs, last, parse)
    requires var front := order[..|order| - 1];
             && (forall host :: host in front && IsNew(published, cs, host, parse) ==>
                   var key := Declared(cs, host, parse); key in mid && mid[key] == Publication(me, cs, host, parse))
             && (forall key :: !PublishedFrom(published, cs, front, parse, key) ==>
                   (key in mid <==> key in m) && (key in mid ==> mid[key] == m[key]))
    ensures var s := Publication(me, cs, order[|order| - 1], parse);
            var m' := mid[s.public := s];
            && (forall host :: host in order && IsNew(published, cs, host, parse) ==>
                  var key := Declared(cs, host, parse); key in m' && m'[key] == Publication(me, cs, host, parse))
            && (forall key :: !PublishedFrom(published, cs, order, parse, key) ==>
                  (key in m' <==> key in m) && (key in m' ==> m'[key] == m[key]))
  {
    var n := |order| - 1;
    var front, last := order[..n], order[n];
    assert order == front + [last];
    assert last in order;
    forall key | !PublishedFrom(published, cs, order, parse, key)
      ensures !PublishedFrom(published, cs, front, parse, key) && key != Declared(cs, last, parse)
    {
    }
  }

  lemma NewAgrees(rows: ServiceRows, me: string, cs: Containers, host: string, parse: Parser)
    requires UniqueKeys(rows)
    ensures IsNew(PublishedBy(rows, me), cs, host, parse) <==> NewHost(View(rows), me, cs, host, parse)
  {
    HostsAgree(rows, me, host);
  }

  lemma ClaimAgrees(rows: ServiceRows, me: string, cs: Containers, order: seq<string>, parse: Parser, key: Addr)
    requires UniqueKeys(rows) && Enumerates(order, cs)
    ensures PublishedFrom(PublishedBy(rows, me), cs, order, parse, key) ==> Claimed(View(rows), me, cs, key, parse)
  {
    var published := PublishedBy(rows, me);
    if PublishedFrom(published, cs, order, parse, key) {
      var host :| host in order && IsNew(published, cs, host, parse) && Declared(cs, host, parse) == key;
      NewAgrees(rows, me, cs, host, parse);
    }
  }

  lemma EffectOnNew(rows: ServiceRows, me: string, cs: Containers, order: seq<string>, parse: Parser, host: string)
    requires UniqueKeys(rows) && Enumerates(order, cs) && DistinctDeclared(cs, parse)
    requires NewHost(View(rows), me, cs, host, parse)
    ensures var key, m' := Declared(cs, host, parse), View(Round(rows, me, cs, order, parse));
            key in m' && m'[key] == Publication(me, cs, host, parse)
  {
    var published := PublishedBy(rows, me);
    var unpublish, publish := UnpublishCalls(published, cs), PublishCalls(published, me, cs, order, parse);
    NewAgrees(rows, me, cs, host, parse);
    PerformAllSplit(rows, unpublish, publish);
    ViewAfterPublish(PerformAll(rows, unpublish), published, me, cs, order, parse);
    assert host in order;
  }

  lemma EffectElsewhere(rows: ServiceRows, me: string, cs: Containers, order: seq<string>, parse: Parser, key: Addr)
    requires UniqueKeys(rows) && Enumerates(order, cs) && DistinctDeclared(cs, parse)
    requires !Claimed(View(rows), me, cs, key, parse)
    ensures var m, m' := View(rows), View(Round(rows, me, cs, order, parse));
            && (key in m' <==> key in m && !Orphaned(m, me, cs, key))
            && (key in m' ==> m'[key] == m[key])
  {
    var published := PublishedBy(rows, me);
    var unpublish, publish := UnpublishCalls(published, cs), PublishCalls(published, me, cs, order, parse);
    ClaimAgrees(rows, me, cs, order, parse, key);
    PerformAllSplit(rows, unpublish, publish);
    ViewAfterPublish(PerformAll(rows, unpublish), published, me, cs, order, parse);
    OrphansLeave(rows, me, cs, key);
    hide UnpublishCalls, PublishCalls, PerformAll, View, PublishedBy, Orphaned, Claimed, PublishedFrom;
  }

  /** The loops, the snapshot and the calls together have the effect stated address by address. */
  lemma RoundHasEffect(rows: ServiceRows, me: string, cs: Containers, order: seq<string>, parse: Parser)
    requires UniqueKeys(rows) && Enumerates(order, cs) && DistinctDeclared(cs, parse)
    ensures RoundEffect(View(rows), View(Round(rows, me, cs, order, parse)), me, cs, parse)
  {
    hide View, Round, DistinctDeclared, Enumerates, UniqueKeys, Orphaned, Claimed;
    var m, m' := View(rows), View(Round(rows, me, cs, order, parse));
    forall host | NewHost(m, me, cs, host, parse)
      ensures var key := Declared(cs, host, parse); key in m' && m'[key] == Publication(me, cs, host, parse)
    {
      EffectOnNew(rows, me, cs, order, parse, host);
    }
    forall key | !Claimed(m, me, cs, key, parse)
      ensures key in m' <==> key in m && !Orphaned(m, me, cs, key)
      ensures key in m' ==> m'[key] == m[key]
    {
      EffectElsewhere(rows, me, cs, order, parse, key);
    }
  }

  /** After the unpublish phase exactly the node's orphans are gone; rows of others are untouched. */
  lemma OrphansLeave(rows: ServiceRows, me: string, cs: Containers, key: Addr)
    requires UniqueKeys(rows)
    ensures var m, m' := View(rows), View(PerformAll(rows, UnpublishCalls(PublishedBy(rows, me), cs)));
            && (key in m' <==> key in m && !Orphaned(m, me, cs, key))
            && (key in m' ==> m'[key] == m[key])
  {
    var published, m := PublishedBy(rows, me), View(rows);
    ViewAfterUnpublish(rows, published, cs);
    PublishedInView(rows, me, key);
    UnlabelledMeans(published, cs, key);
    hide PublishedBy, View, PerformAll, UnpublishCalls;
    if Orphaned(m, me, cs, key) {
      var i :| 0 <= i < |published| && published[i] == m[key];
      assert published[i].public == key;
    }
  }

  lemma {:induction false} PerformAllUnique(rows: ServiceRows, calls: seq<Command>)
    requires UniqueKeys(rows)
    ensures UniqueKeys(PerformAll(rows, calls))
    decreases |calls|
  {
    if calls != [] {
      PerformUnique(rows, calls[0]);
      PerformAllUnique(Perform(rows, calls[0]), calls[1..]);
    }
  }

  lemma PerformUnique(rows: ServiceRows, c: Command)
    requires UniqueKeys(rows)
    ensures UniqueKeys(Perform(rows, c))
  {
    match c
    case Publish(s) => SaveKeys(rows, s.(params := []));
    case Unpublish(key) => DeleteKeys(rows, key);
    case NewParam(key, p) =>
      if AddParam(rows, key, p).1 {
        SaveKeys(rows, Find(rows, key).value.(params := Find(rows, key).value.params + [p]));
      }
    case DropParam(key, p) =>
      if RemoveParam(rows, key, p).1 {
        SaveKeys(rows, Find(rows, key).value.(params := WithoutParam(Find(rows, key).value.params, p)));
      }
  }

  // ---- the round in terms of labels and rows

  /** The container carries both labels, they parse, and the local one names the container itself. */
  predicate Declares(cs: Containers, host: string, parse: Parser, local: Addr, public: Addr) {
    && host in cs && "wireport.service.local" in cs[host] && "wireport.service.public" in cs[host]
    && cs[host]["wireport.service.local"] != "" && cs[host]["wireport.service.public"] != ""
    && parse(cs[host]["wireport.service.local"]) == Some(local) && parse(cs[host]["wireport.service.public"]) == Some(public)
    && local.host == host
  }

  /** The container is gone, or one of its labels is missing or empty. */
  predicate LabelsLost(cs: Containers, host: string) {
    || host !in cs
    || "wireport.service.local" !in cs[host] || cs[host]["wireport.service.local"] == ""
    || "wireport.service.public" !in cs[host] || cs[host]["wireport.service.public"] == ""
  }

  /** The node has published a service for the container. */
  ghost predicate Published(rows: ServiceRows, me: string, host: string) {
    exists s :: s in rows && s.owner == Some(me) && s.local.host == host
  }

  lemma DeclaresIsValid(cs: Containers, host: string, parse: Parser, local: Addr, public: Addr)
    ensures Declares(cs, host, parse, local, public) <==>
            Valid(cs, host, parse) && Declared(cs, host, parse) == public && parse(LabelOf(cs[host], LOCAL_LABEL)) == Some(local)
    ensures LabelsLost(cs, host) <==> !Labelled(cs, host)
  {
  }

  lemma PublishedIsHost(rows: ServiceRows, me: string, host: string)
    requires UniqueKeys(rows)
    ensures Published(rows, me, host) <==> HasHost(View(rows), me, host)
  {
    var m := View(rows);
    if s :| s in rows && s.owner == Some(me) && s.local.host == host {
      FindUnique(rows, s);
      ViewIsFind(rows, s.public);
      assert Own(m, me, s.public);
    }
    if key :| Own(m, me, key) && m[key].local.host == host {
      ViewIsFind(rows, key);
      FindMeans(rows, key);
      assert m[key] in rows;
    }
  }

  /**
   * After a round a container that was not published yet has its service, field by field: owned by the node, at
   * the address of its public label, forwarding to the address of its local label, without parameters.
   */
  lemma NewContainerPublished(
      rows: ServiceRows, me: string, cs: Containers, order: seq<string>, parse: Parser, host: string, local: Addr, public: Addr)
    requires UniqueKeys(rows) && Enumerates(order, cs) && DistinctDeclared(cs, parse)
    requires Declares(cs, host, parse, local, public) && !Published(rows, me, host)
    ensures Find(Round(rows, me, cs, order, parse), public) == Some(Service(Some(me), local, public, []))
  {
    DeclaresIsValid(cs, host, parse, local, public);
    PublishedIsHost(rows, me, host);
    EffectOnNew(rows, me, cs, order, parse, host);
    hide View, Round, HasHost, Published;
    ViewIsFind(Round(rows, me, cs, order, parse), public);
  }

  /** At every other address the node's services that lost their labels are gone, and all else is as it was. */
  lemma OtherAddressesKept(rows: ServiceRows, me: string, cs: Containers, order: seq<string>, parse: Parser, key: Addr)
    requires UniqueKeys(rows) && Enumerates(order, cs) && DistinctDeclared(cs, parse)
    requires forall host, local :: Declares(cs, host, parse, local, key) ==> Published(rows, me, host)
    ensures Find(Round(rows, me, cs, order, parse), key) ==
              match Find(rows, key)
              case None => None
              case Some(s) => if s.owner == Some(me) && LabelsLost(cs, s.local.host) then None else Some(s)
  {
    if Claimed(View(rows), me, cs, key, parse) {
      var host :| NewHost(View(rows), me, cs, host, parse) && Declared(cs, host, parse) == key;
      var local := parse(LabelOf(cs[host], LOCAL_LABEL)).value;
      DeclaresIsValid(cs, host, parse, local, key);
      PublishedIsHost(rows, me, host);
    }
    hide Declares, Published, Claimed;
    EffectElsewhere(rows, me, cs, order, parse, key);
    ViewIsFind(rows, key);
    ViewIsFind(Round(rows, me, cs, order, parse), key);
    hide View, Round, Find;
    if Find(rows, key).Some? {
      var s := Find(rows, key).value;
      DeclaresIsValid(cs, s.local.host, parse, key, key);
    }
  }
}
