/** Repeated rounds of one node against fixed labels: what they settle on and how fast. */
module Convergence {
  import opened Common
  import opened Services
  import opened Reconcile

  /** The node's service sits at the address its container declares. */
  predicate AtHome(s: Service, cs: Containers, parse: Parser) {
    Valid(cs, s.local.host, parse) && Declared(cs, s.local.host, parse) == s.public
  }

  predicate Misplaced(m: ServiceMap, me: string, cs: Containers, key: Addr, parse: Parser) {
    Own(m, me, key) && !AtHome(m[key].(public := key), cs, parse)
  }

  /** The measure: the node's services that are not at their declared address. */
  ghost function MisplacedKeys(m: ServiceMap, me: string, cs: Containers, parse: Parser): set<Addr> {
    set key | key in m && Misplaced(m, me, cs, key, parse)
  }

  ghost predicate AllLabelled(m: ServiceMap, me: string, cs: Containers) {
    forall key :: !Orphaned(m, me, cs, key)
  }

  /** Every own service has its labels and every valid container has an own service. */
  ghost predicate Settled(m: ServiceMap, me: string, cs: Containers, parse: Parser) {
    AllLabelled(m, me, cs) && forall host :: !NewHost(m, me, cs, host, parse)
  }

  ghost predicate OnePerHost(m: ServiceMap, me: string) {
    forall k, l :: Own(m, me, k) && Own(m, me, l) && m[k].local.host == m[l].local.host ==> k == l
  }

  /** After any round every service of the node has its labels. */
  lemma RoundLabels(m: ServiceMap, m': ServiceMap, me: string, cs: Containers, parse: Parser)
    requires RoundEffect(m, m', me, cs, parse)
    ensures AllLabelled(m', me, cs)
  {
    forall key
      ensures !Orphaned(m', me, cs, key)
    {
      if Claimed(m, me, cs, key, parse) {
        var host :| NewHost(m, me, cs, host, parse) && Declared(cs, host, parse) == key;
        assert m'[key] == Publication(me, cs, host, parse);
      }
    }
  }

  /** A round never misplaces a service. */
  lemma RoundMisplacesNone(m: ServiceMap, m': ServiceMap, me: string, cs: Containers, parse: Parser)
    requires RoundEffect(m, m', me, cs, parse)
    ensures MisplacedKeys(m', me, cs, parse) <= MisplacedKeys(m, me, cs, parse)
    ensures forall key :: Claimed(m, me, cs, key, parse) ==> key !in MisplacedKeys(m', me, cs, parse)
  {
    forall key | Claimed(m, me, cs, key, parse)
      ensures !Misplaced(m', me, cs, key, parse)
    {
      var host :| NewHost(m, me, cs, host, parse) && Declared(cs, host, parse) == key;
      assert m'[key] == Publication(me, cs, host, parse);
    }
    forall key | !Claimed(m, me, cs, key, parse) && Misplaced(m', me, cs, key, parse)
      ensures Misplaced(m, me, cs, key, parse)
    {
    }
  }

  /** What a new container overwrites is a misplaced service of this node, or not this node's. */
  lemma OverwritesMisplaced(m: ServiceMap, me: string, cs: Containers, parse: Parser, key: Addr)
    requires DistinctDeclared(cs, parse) && Claimed(m, me, cs, key, parse) && Own(m, me, key)
    ensures key in MisplacedKeys(m, me, cs, parse)
  {
    var host :| NewHost(m, me, cs, host, parse) && Declared(cs, host, parse) == key;
    assert m[key].local.host != host;
  }

  /** If no own service is overwritten, the round settles the table. */
  lemma QuietRoundSettles(m: ServiceMap, m': ServiceMap, me: string, cs: Containers, parse: Parser)
    requires RoundEffect(m, m', me, cs, parse) && AllLabelled(m, me, cs)
    requires forall key :: Own(m, me, key) ==> !Claimed(m, me, cs, key, parse)
    ensures Settled(m', me, cs, parse)
  {
    RoundLabels(m, m', me, cs, parse);
    forall host
      ensures !NewHost(m', me, cs, host, parse)
    {
      if Valid(cs, host, parse) {
        if HasHost(m, me, host) {
          var key :| Own(m, me, key) && m[key].local.host == host;
          assert !Orphaned(m, me, cs, key);
          assert Own(m', me, key) && m'[key].local.host == host;
        } else {
          assert NewHost(m, me, cs, host, parse);
          assert Own(m', me, Declared(cs, host, parse));
        }
      }
    }
  }

  /** From the second round on, a round strictly lowers the measure or settles the table. */
  lemma RoundProgress(m: ServiceMap, m': ServiceMap, me: string, cs: Containers, parse: Parser)
    requires DistinctDeclared(cs, parse) && RoundEffect(m, m', me, cs, parse) && AllLabelled(m, me, cs)
    ensures || Settled(m', me, cs, parse)
            || |MisplacedKeys(m', me, cs, parse)| < |MisplacedKeys(m, me, cs, parse)|
  {
    var before, after := MisplacedKeys(m, me, cs, parse), MisplacedKeys(m', me, cs, parse);
    RoundMisplacesNone(m, m', me, cs, parse);
    if key :| Own(m, me, key) && Claimed(m, me, cs, key, parse) {
      OverwritesMisplaced(m, me, cs, parse, key);
      assert after <= before - {key};
      SubsetSize(after, before - {key});
    } else {
      QuietRoundSettles(m, m', me, cs, parse);
    }
  }

  /** Settled is the same as: the round plans no call at all. */
  lemma SettledMeansIdle(rows: ServiceRows, me: string, cs: Containers, order: seq<string>, parse: Parser)
    requires UniqueKeys(rows) && Enumerates(order, cs)
    ensures Settled(View(rows), me, cs, parse) <==> Plan(rows, me, cs, order, parse) == []
  {
    var published := PublishedBy(rows, me);
    NoOrphansNoCalls(rows, me, cs);
    NoNewNoCalls(published, me, cs, order, parse);
    hide UnpublishCalls, PublishCalls, View;
    if UnpublishCalls(published, cs) == [] && PublishCalls(published, me, cs, order, parse) == [] {
      forall host
        ensures !NewHost(View(rows), me, cs, host, parse)
      {
        NewAgrees(rows, me, cs, host, parse);
        assert Valid(cs, host, parse) ==> host in order;
      }
    }
    if Settled(View(rows), me, cs, parse) {
      forall host | host in order
        ensures !IsNew(published, cs, host, parse)
      {
        NewAgrees(rows, me, cs, host, parse);
      }
    }
  }

  lemma NoOrphansNoCalls(rows: ServiceRows, me: string, cs: Containers)
    requires UniqueKeys(rows)
    ensures AllLabelled(View(rows), me, cs) <==> UnpublishCalls(PublishedBy(rows, me), cs) == []
  {
    var published, m := PublishedBy(rows, me), View(rows);
    LabelledNoCalls(published, cs);
    if AllLabelled(m, me, cs) {
      forall i | 0 <= i < |published|
        ensures Labelled(cs, published[i].local.host)
      {
        PublishedInView(rows, me, published[i].public);
        assert published[i] in published && !Orphaned(m, me, cs, published[i].public);
      }
    }
    if UnpublishCalls(published, cs) == [] {
      forall key
        ensures !Orphaned(m, me, cs, key)
      {
        PublishedInView(rows, me, key);
        if Own(m, me, key) {
          var i :| 0 <= i < |published| && published[i] == m[key];
        }
      }
    }
  }

  lemma {:induction false} LabelledNoCalls(published: seq<Service>, cs: Containers)
    ensures UnpublishCalls(published, cs) == [] <==>
            forall i :: 0 <= i < |published| ==> Labelled(cs, published[i].local.host)
  {
    if published != [] {
      LabelledNoCalls(published[..|published| - 1], cs);
    }
  }

  lemma {:induction false} NoNewNoCalls(published: seq<Service>, me: string, cs: Containers, order: seq<string>, parse: Parser)
    ensures PublishCalls(published, me, cs, order, parse) == [] <==>
            forall host :: host in order ==> !IsNew(published, cs, host, parse)
  {
    if order != [] {
      var n := |order| - 1;
      NoNewNoCalls(published, me, cs, order[..n], parse);
      assert order == order[..n] + [order[n]];
    }
  }

  // ---- many rounds

  /** One round per listing; the listing order may differ from round to round. */
  function Rounds(rows: ServiceRows, me: string, cs: Containers, orders: seq<seq<string>>, parse: Parser): ServiceRows {
    if orders == [] then rows
    else
      var n := |orders| - 1;
      Round(Rounds(rows, me, cs, orders[..n], parse), me, cs, orders[n], parse)
  }

  ghost predicate AllEnumerate(orders: seq<seq<string>>, cs: Containers) {
    forall i :: 0 <= i < |orders| ==> Enumerates(orders[i], cs)
  }

  lemma {:induction false} RoundsUnique(rows: ServiceRows, me: string, cs: Containers, orders: seq<seq<string>>, parse: Parser)
    requires UniqueKeys(rows)
    ensures UniqueKeys(Rounds(rows, me, cs, orders, parse))
  {
    if orders != [] {
      var n := |orders| - 1;
      RoundsUnique(rows, me, cs, orders[..n], parse);
      var mid := Rounds(rows, me, cs, orders[..n], parse);
      PerformAllUnique(mid, Plan(mid, me, cs, orders[n], parse));
    }
  }

  /** After k rounds the table is settled, or at least k - 1 misplaced services have been put right. */
  lemma {:induction false} RoundsProgress(rows: ServiceRows, me: string, cs: Containers, orders: seq<seq<string>>, parse: Parser)
    requires UniqueKeys(rows) && DistinctDeclared(cs, parse) && AllEnumerate(orders, cs) && orders != []
    ensures var m := View(Rounds(rows, me, cs, orders, parse));
            && AllLabelled(m, me, cs)
            && (Settled(m, me, cs, parse)
                || |MisplacedKeys(m, me, cs, parse)| + |orders| - 1 <= |MisplacedKeys(View(rows), me, cs, parse)|)
  {
    var n := |orders| - 1;
    var mid := Rounds(rows, me, cs, orders[..n], parse);
    var m, m' := View(mid), View(Rounds(rows, me, cs, orders, parse));
    RoundsUnique(rows, me, cs, orders[..n], parse);
    RoundHasEffect(mid, me, cs, orders[n], parse);
    hide View, Round, DistinctDeclared, RoundEffect, AllLabelled, Settled, MisplacedKeys, UniqueKeys, Enumerates;
    RoundLabels(m, m', me, cs, parse);
    RoundMisplacesNone(m, m', me, cs, parse);
    SubsetSize(MisplacedKeys(m', me, cs, parse), MisplacedKeys(m, me, cs, parse));
    if n > 0 {
      RoundsProgress(rows, me, cs, orders[..n], parse);
      if Settled(m, me, cs, parse) {
        SettledStays(mid, me, cs, orders[n], parse);
      } else {
        RoundProgress(m, m', me, cs, parse);
      }
    } else {
      assert orders[..n] == [];
    }
  }

  lemma SettledStays(rows: ServiceRows, me: string, cs: Containers, order: seq<string>, parse: Parser)
    requires UniqueKeys(rows) && Enumerates(order, cs) && Settled(View(rows), me, cs, parse)
    ensures Round(rows, me, cs, order, parse) == rows
  {
    SettledMeansIdle(rows, me, cs, order, parse);
  }

  /**
   * Convergence: with fixed labels that declare pairwise distinct public addresses, after two rounds more
   * than there were misplaced services the table no longer changes, whatever order the containers are
   * listed in; every valid container then has an own service and every own service its labels.
   */
  lemma RoundsConverge(
      rows: ServiceRows, me: string, cs: Containers, orders: seq<seq<string>>, next: seq<string>, parse: Parser)
    requires UniqueKeys(rows) && DistinctDeclared(cs, parse) && AllEnumerate(orders, cs) && Enumerates(next, cs)
    requires |orders| >= |MisplacedKeys(View(rows), me, cs, parse)| + 2
    ensures var last := Rounds(rows, me, cs, orders, parse);
            && Settled(View(last), me, cs, parse)
            && Round(last, me, cs, next, parse) == last
  {
    RoundsProgress(rows, me, cs, orders, parse);
    RoundsUnique(rows, me, cs, orders, parse);
    SettledStays(Rounds(rows, me, cs, orders, parse), me, cs, next, parse);
  }

  /** One service per container stays one service per container. */
  lemma RoundKeepsOnePerHost(m: ServiceMap, m': ServiceMap, me: string, cs: Containers, parse: Parser)
    requires DistinctDeclared(cs, parse) && RoundEffect(m, m', me, cs, parse) && OnePerHost(m, me)
    ensures OnePerHost(m', me)
  {
    forall k, l | Own(m', me, k) && Own(m', me, l) && m'[k].local.host == m'[l].local.host
      ensures k == l
    {
      var host := m'[k].local.host;
      OwnAfterRound(m, m', me, cs, parse, k);
      OwnAfterRound(m, m', me, cs, parse, l);
      hide RoundEffect, Claimed;
      if NewHost(m, me, cs, host, parse) {
        assert !HasHost(m, me, host);
      } else {
        assert Own(m, me, k) && Own(m, me, l);
      }
    }
  }

  /** An own service after a round was there before, or belongs to a new container at its declared address. */
  lemma OwnAfterRound(m: ServiceMap, m': ServiceMap, me: string, cs: Containers, parse: Parser, key: Addr)
    requires RoundEffect(m, m', me, cs, parse) && Own(m', me, key)
    ensures var host := m'[key].local.host;
            || (NewHost(m, me, cs, host, parse) && Declared(cs, host, parse) == key)
            || (Own(m, me, key) && m[key] == m'[key])
  {
    if Claimed(m, me, cs, key, parse) {
      var host :| NewHost(m, me, cs, host, parse) && Declared(cs, host, parse) == key;
      assert m'[key] == Publication(me, cs, host, parse);
    }
  }

  /** So at the fixpoint a container has exactly one service, if it had at most one to begin with. */
  lemma {:induction false} RoundsKeepOnePerHost(
      rows: ServiceRows, me: string, cs: Containers, orders: seq<seq<string>>, parse: Parser)
    requires UniqueKeys(rows) && DistinctDeclared(cs, parse) && AllEnumerate(orders, cs) && OnePerHost(View(rows), me)
    ensures OnePerHost(View(Rounds(rows, me, cs, orders, parse)), me)
  {
    if orders != [] {
      var n := |orders| - 1;
      RoundsKeepOnePerHost(rows, me, cs, orders[..n], parse);
      var mid := Rounds(rows, me, cs, orders[..n], parse);
      RoundsUnique(rows, me, cs, orders[..n], parse);
      RoundHasEffect(mid, me, cs, orders[n], parse);
      hide View, Round, DistinctDeclared, RoundEffect, OnePerHost, UniqueKeys, Enumerates;
      RoundKeepsOnePerHost(View(mid), View(Rounds(rows, me, cs, orders, parse)), me, cs, parse);
    }
  }

  /**
   * Hand-over: if a service lost its container and exactly its public address is declared by a new container
   * of the same node, one round leaves the address with the new container's own local address.
   */
  lemma Handover(
      rows: ServiceRows, me: string, cs: Containers, order: seq<string>, parse: Parser, lost: Service, heir: string, local: Addr)
    requires UniqueKeys(rows) && Enumerates(order, cs) && DistinctDeclared(cs, parse)
    requires lost in rows && lost.owner == Some(me) && lost.local.host !in cs
    requires Declares(cs, heir, parse, local, lost.public) && !Published(rows, me, heir)
    ensures Find(Round(rows, me, cs, order, parse), lost.public) == Some(Service(Some(me), local, lost.public, []))
  {
    NewContainerPublished(rows, me, cs, order, parse, heir, local, lost.public);
  }

  /**
   * Matching is by container name only: a published service whose container keeps its labels stays where
   * it is, for ever, however the declared public address is edited, unless another container declares
   * the address it occupies.
   */
  lemma {:induction false} LabelChangeIgnored(
      rows: ServiceRows, me: string, cs: Containers, orders: seq<seq<string>>, parse: Parser, key: Addr)
    requires UniqueKeys(rows) && DistinctDeclared(cs, parse) && AllEnumerate(orders, cs)
    requires Own(View(rows), me, key) && Labelled(cs, View(rows)[key].local.host)
    requires forall host :: Valid(cs, host, parse) && Declared(cs, host, parse) == key ==> host == View(rows)[key].local.host
    ensures var m := View(Rounds(rows, me, cs, orders, parse)); key in m && m[key] == View(rows)[key]
  {
    if orders != [] {
      var n := |orders| - 1;
      LabelChangeIgnored(rows, me, cs, orders[..n], parse, key);
      var mid := Rounds(rows, me, cs, orders[..n], parse);
      RoundsUnique(rows, me, cs, orders[..n], parse);
      RoundHasEffect(mid, me, cs, orders[n], parse);
      hide View, Round, DistinctDeclared, Enumerates, UniqueKeys;
      assert !Claimed(View(mid), me, cs, key, parse) by {
        var m := View(mid);
        assert Own(m, me, key);
        forall host | Valid(cs, host, parse) && Declared(cs, host, parse) == key
          ensures HasHost(m, me, host)
        {
          assert m[key].local.host == host;
        }
      }
    }
  }
}
