/** The upstream list of the gateway's DNS server, rendered from the registry's DNS entries. */
module Resolver {
  import opened Common
  import opened Text
  import opened Addresses
  import opened Registry
  import opened Routing
  import opened Admission
  import opened Runs
  import opened Guarantees

  /** The addresses to ask, in order, without the ignored ones. */
  function Upstreams(dns: seq<IPNet>, ignored: seq<string>): seq<string> {
    if dns == [] then []
    else
      var ip := PrintIPv4(dns[|dns| - 1].ip);
      Upstreams(dns[..|dns| - 1], ignored) + if ip in ignored then [] else [ip]
  }

  /** The helper that renders the list, joined by blanks. */
  method IpsToDNS(dns: seq<IPNet>, ignoreIps: string, separator: char) returns (r: string)
    ensures r == Join(Upstreams(dns, Split(ignoreIps, separator)), ' ')
  {
    var stringifiedIps := MapIPNetMarshablesToStrings(dns, false);
    var ignoredIps := Split(ignoreIps, separator);
    var finalIps: seq<string> := [];
    for i := 0 to |stringifiedIps|
      invariant finalIps == Upstreams(dns[..i], ignoredIps)
    {
      assert dns[..i + 1][..i] == dns[..i];
      if stringifiedIps[i] in ignoredIps {
        continue;
      }
      finalIps := finalIps + [stringifiedIps[i]];
    }
    assert dns[..|dns|] == dns;
    r := Join(finalIps, ' ');
  }

  /** The live servers' addresses in table order. */
  function ServerTexts(nodes: Table): seq<string> {
    if nodes == [] then []
    else ServerTexts(nodes[..|nodes| - 1])
         + if nodes[|nodes| - 1].role == Server then [PrintIPv4(nodes[|nodes| - 1].address.ip)] else []
  }

  lemma {:induction false} UpstreamsSplit(a: seq<IPNet>, b: seq<IPNet>, ignored: seq<string>)
    ensures Upstreams(a + b, ignored) == Upstreams(a, ignored) + Upstreams(b, ignored)
  {
    if b == [] {
      assert a + b == a;
    } else {
      var n := |b| - 1;
      UpstreamsSplit(a, b[..n], ignored);
      assert (a + b)[..|a + b| - 1] == a + b[..n];
    }
  }

  lemma DockerDNSText()
    ensures PrintIPv4(DOCKER_DNS) == "127.0.0.11" && Split("127.0.0.11", ',') == ["127.0.0.11"]
  {
    hide Split;
    assert PrintNat(0) == "0" && PrintNat(11) == "11" && PrintNat(127) == "127";
    SplitWhole("127.0.0.11", ',');
  }

  lemma {:induction false} ServersAreUpstreams(nodes: Table)
    requires forall i :: 0 <= i < |nodes| ==> WellFormed(nodes[i])
    ensures Upstreams(ServerAddresses(nodes), ["127.0.0.11"]) == ServerTexts(nodes)
  {
    if nodes != [] {
      var n := |nodes| - 1;
      ServersAreUpstreams(nodes[..n]);
      if nodes[n].role == Server {
        var one := [HostNet(nodes[n])];
        UpstreamsSplit(ServerAddresses(nodes[..n]), one, ["127.0.0.11"]);
        DockerDNSText();
        PrintIPv4Injective(nodes[n].address.ip, DOCKER_DNS);
        assert one[..0] == [];
        assert Upstreams(one, ["127.0.0.11"]) == [PrintIPv4(nodes[n].address.ip)];
      } else {
        assert ServerAddresses(nodes) == ServerAddresses(nodes[..n]);
      }
    }
  }

  lemma {:induction false} ServerTextsDistinct(nodes: Table)
    requires Consistent(nodes)
    ensures Distinct(ServerTexts(nodes))
    ensures forall t :: t in ServerTexts(nodes) ==> exists i :: 0 <= i < |nodes| && t == PrintIPv4(nodes[i].address.ip)
  {
    if nodes != [] {
      var n := |nodes| - 1;
      ConsistentFront(nodes);
      ServerTextsDistinct(nodes[..n]);
      var front, last := ServerTexts(nodes[..n]), PrintIPv4(nodes[n].address.ip);
      forall k | 0 <= k < |front|
        ensures front[k] != last
      {
        assert front[k] in front;
        var i :| 0 <= i < n && front[k] == PrintIPv4(nodes[..n][i].address.ip);
        assert Apart(nodes[i], nodes[n]);
        PrintIPv4Injective(nodes[i].address.ip, nodes[n].address.ip);
      }
      hide Consistent;
      forall t | t in ServerTexts(nodes)
        ensures exists i :: 0 <= i < |nodes| && t == PrintIPv4(nodes[i].address.ip)
      {
        if t in front {
          var i :| 0 <= i < n && t == PrintIPv4(nodes[..n][i].address.ip);
          assert nodes[..n][i] == nodes[i];
        } else {
          assert t == last;
        }
      }
    }
  }

  lemma ConsistentFront(nodes: Table)
    requires Consistent(nodes) && nodes != []
    ensures Consistent(nodes[..|nodes| - 1])
  {
    var front := nodes[..|nodes| - 1];
    forall i, j | 0 <= i < j < |front|
      ensures Apart(front[i], front[j])
    {
      assert Apart(nodes[i], nodes[j]);
    }
  }

  /**
   * DNS agreement: after every run the list rendered for the gateway, ignoring Docker's own resolver, is
   * exactly the addresses of the servers of the last refresh, in table order, each once.
   */
  lemma UpstreamsAgree(cs: seq<Command>)
    requires FreshRun(EMPTY, cs) && Exec(EMPTY, cs).db.nodes != []
    ensures var w := Exec(EMPTY, cs);
            && Upstreams(w.db.nodes[0].dns, Split("127.0.0.11", ',')) == ServerTexts(w.snapshot)
            && Distinct(ServerTexts(w.snapshot))
  {
    Reached(cs);
    var w := Exec(EMPTY, cs);
    hide Exec, FreshRun, Pending, Reserved, Ledger, Live;
    var snapshot := w.snapshot;
    assert Consistent(snapshot) && w.db.nodes[0].dns == GatewayDNS(snapshot);
    hide Meshed, Inv;
    ServersAreUpstreams(snapshot);
    ServerTextsDistinct(snapshot);
    DockerDNSText();
    var own := [IPNet(DOCKER_DNS, 32)];
    UpstreamsSplit(own, ServerAddresses(snapshot), ["127.0.0.11"]);
    assert own[..0] == [];
    assert Upstreams(own, ["127.0.0.11"]) == [];
  }

  /** Right after a creation the rendered list is exactly the live servers' addresses. */
  lemma UpstreamsAfterCreation(cs: seq<Command>, c: Command)
    requires FreshRun(EMPTY, cs + [c]) && FreshRun(EMPTY, cs)
    requires var o := Perform(Exec(EMPTY, cs).db, c).1; o.Created? || o.Joined?
    ensures var nodes := Exec(EMPTY, cs + [c]).db.nodes;
            && nodes != []
            && Upstreams(nodes[0].dns, Split("127.0.0.11", ',')) == ServerTexts(nodes)
            && Distinct(ServerTexts(nodes))
  {
    ExecAppend(EMPTY, cs, c);
    CreationLeavesRows(cs, c);
    UpstreamsAgree(cs + [c]);
    hide Exec, FreshRun, Perform, Upstreams, ServerTexts;
  }
}
