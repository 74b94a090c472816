/** IPv4 addresses and networks: printing, parsing and prefix containment. */
module Addresses {
  import opened Common
  import opened Text

  type Octet = x: int | 0 <= x <= 255
  type PrefixLength = x: int | 0 <= x <= 32

  datatype IPv4 = IPv4(o0: Octet, o1: Octet, o2: Octet, o3: Octet)

  /** IPNetMarshable: an address with a mask length; the host bits are kept, as in the source. */
  datatype IPNet = IPNet(ip: IPv4, ones: PrefixLength)

  datatype AddressError = EmptyText | InvalidAddress | MaskMissing | MaskNotANumber | MaskOutOfRange

  // ---- text

  /** IPToString */
  function PrintIPv4(ip: IPv4): string {
    PrintNat(ip.o0) + "." + PrintNat(ip.o1) + "." + PrintNat(ip.o2) + "." + PrintNat(ip.o3)
  }

  /** net.IPNet.String */
  function PrintNet(net: IPNet): string {
    PrintIPv4(net.ip) + "/" + PrintNat(net.ones)
  }

  function ParseOctet(s: string): Option<Octet> {
    if Canonical(s) && Value(s) <= 255 then Some(Value(s)) else None
  }

  /** net.ParseIP, for texts in dotted form. */
  function ParseIPv4(s: string): Option<IPv4> {
    var parts := Split(s, '.');
    if |parts| != 4 then None
    else
      match (ParseOctet(parts[0]), ParseOctet(parts[1]), ParseOctet(parts[2]), ParseOctet(parts[3]))
      case (Some(a), Some(b), Some(c), Some(d)) => Some(IPv4(a, b, c, d))
      case _ => None
  }

  /** ParseIPNetMarshable: text after a second slash is ignored. */
  function ParseNet(s: string, maskMustBeSpecified: bool): Result<IPNet, AddressError> {
    if s == [] then Failure(EmptyText)
    else
      var parts := Split(s, '/');
      match ParseIPv4(parts[0])
      case None => Failure(InvalidAddress)
      case Some(ip) =>
        if |parts| == 1 then
          if maskMustBeSpecified then Failure(MaskMissing) else Success(IPNet(ip, 32))
        else
          match Atoi(parts[1])
          case None => Failure(MaskNotANumber)
          case Some(ones) =>
            if 0 <= ones <= 32 then Success(IPNet(ip, ones)) else Failure(MaskOutOfRange)
  }

  lemma OctetRoundTrip(o: Octet)
    ensures ParseOctet(PrintNat(o)) == Some(o)
  {
    ValueOfPrint(o);
  }

  lemma FieldsOfPrinted(ip: IPv4)
    ensures Split(PrintIPv4(ip), '.') == [PrintNat(ip.o0), PrintNat(ip.o1), PrintNat(ip.o2), PrintNat(ip.o3)]
  {
    PrintFreeOf(ip.o0, '.');
    PrintFreeOf(ip.o1, '.');
    PrintFreeOf(ip.o2, '.');
    PrintFreeOf(ip.o3, '.');
    SplitFour(PrintNat(ip.o0), PrintNat(ip.o1), PrintNat(ip.o2), PrintNat(ip.o3), '.');
  }

  lemma PrintThenParse(ip: IPv4)
    ensures ParseIPv4(PrintIPv4(ip)) == Some(ip)
  {
    FieldsOfPrinted(ip);
    OctetRoundTrip(ip.o0);
    OctetRoundTrip(ip.o1);
    OctetRoundTrip(ip.o2);
    OctetRoundTrip(ip.o3);
  }

  lemma OctetPrinted(s: string)
    requires ParseOctet(s).Some?
    ensures PrintNat(ParseOctet(s).value) == s
  {
    PrintOfValue(s);
  }

  lemma ParseThenPrint(s: string)
    requires ParseIPv4(s).Some?
    ensures PrintIPv4(ParseIPv4(s).value) == s
  {
    var parts := Split(s, '.');
    OctetPrinted(parts[0]);
    OctetPrinted(parts[1]);
    OctetPrinted(parts[2]);
    OctetPrinted(parts[3]);
    JoinSplit(s, '.');
    JoinFour(parts, '.');
  }

  /** A dotted text is accepted as an address exactly when it is the printed form of that address. */
  lemma AddressRoundTrip(s: string, ip: IPv4)
    ensures ParseIPv4(s) == Some(ip) <==> s == PrintIPv4(ip)
  {
    PrintThenParse(ip);
    if ParseIPv4(s) == Some(ip) {
      ParseThenPrint(s);
    }
  }

  lemma PrintedFreeOf(ip: IPv4, c: char)
    requires !IsDigit(c) && c != '.'
    ensures c !in PrintIPv4(ip)
  {
    PrintFreeOf(ip.o0, c);
    PrintFreeOf(ip.o1, c);
    PrintFreeOf(ip.o2, c);
    PrintFreeOf(ip.o3, c);
  }

  /** Printing a network and parsing it back restores it, whether or not a mask is demanded. */
  lemma NetRoundTrip(net: IPNet, maskMustBeSpecified: bool)
    ensures ParseNet(PrintNet(net), maskMustBeSpecified) == Success(net)
  {
    var host, mask := PrintIPv4(net.ip), PrintNat(net.ones);
    PrintedFreeOf(net.ip, '/');
    PrintFreeOf(net.ones, '/');
    SplitWhole(mask, '/');
    SplitFirst(host, mask, '/');
    AddressRoundTrip(host, net.ip);
    AtoiOfPrint(net.ones);
  }

  /** A bare address reads back as a /32 network, and is refused where a mask is demanded. */
  lemma BareAddressRoundTrip(ip: IPv4)
    ensures ParseNet(PrintIPv4(ip), false) == Success(IPNet(ip, 32))
    ensures ParseNet(PrintIPv4(ip), true) == Failure(MaskMissing)
  {
    PrintedFreeOf(ip, '/');
    SplitWhole(PrintIPv4(ip), '/');
    AddressRoundTrip(PrintIPv4(ip), ip);
    ValueOfPrint(ip.o0);
  }

  /** host, a slash, a mask text, and possibly another slash with anything behind it. */
  predicate Slashed(s: string, host: string, mask: string, tail: string) {
    s == host + "/" + mask + tail && '/' !in mask && (tail == "" || tail[0] == '/')
  }

  lemma SplitSlashed(s: string, host: string, mask: string, tail: string)
    requires Slashed(s, host, mask, tail) && '/' !in host
    ensures |Split(s, '/')| >= 2 && Split(s, '/')[0] == host && Split(s, '/')[1] == mask
  {
    assert s == host + ['/'] + (mask + tail);
    SplitFirst(host, mask + tail, '/');
    if tail == "" {
      assert mask + tail == mask;
      SplitWhole(mask, '/');
    } else {
      assert mask + tail == mask + ['/'] + tail[1..];
      SplitFirst(mask, tail[1..], '/');
    }
  }

  lemma SlashedParts(s: string) returns (tail: string)
    requires |Split(s, '/')| >= 2
    ensures Slashed(s, Split(s, '/')[0], Split(s, '/')[1], tail)
  {
    hide Split;
    var parts := Split(s, '/');
    SplitInverse(s, '/');
    var rest := s[|parts[0]| + 1..];
    assert s == parts[0] + ['/'] + rest;
    SplitInverse(rest, '/');
    assert Split(rest, '/') == parts[1..] && parts[1..][0] == parts[1];
    tail := if |parts| == 2 then "" else ['/'] + rest[|parts[1]| + 1..];
    assert rest == parts[1] + tail;
    assert s == parts[0] + "/" + (parts[1] + tail);
  }

  /**
   * Exactly which texts are read as a network, among those of dotted form: a bare address, where no mask is
   * demanded, as a /32; or an address, a slash and a number from 0 to 32, which may carry a sign or leading
   * zeros, whatever follows a second slash.
   */
  lemma NetAcceptedExactly(s: string, maskMustBeSpecified: bool, net: IPNet)
    ensures ParseNet(s, maskMustBeSpecified) == Success(net) <==>
            || (s == PrintIPv4(net.ip) && net.ones == 32 && !maskMustBeSpecified)
            || (exists mask, tail :: Slashed(s, PrintIPv4(net.ip), mask, tail) && Atoi(mask) == Some(net.ones))
  {
    hide Atoi, ParseIPv4, PrintIPv4;
    var parts, host := Split(s, '/'), PrintIPv4(net.ip);
    BareAddressRoundTrip(net.ip);
    PrintedFreeOf(net.ip, '/');
    if ParseNet(s, maskMustBeSpecified) == Success(net) {
      AddressRoundTrip(parts[0], net.ip);
      SplitInverse(s, '/');
      if |parts| >= 2 {
        var tail := SlashedParts(s);
      }
    }
    if mask, tail :| Slashed(s, host, mask, tail) && Atoi(mask) == Some(net.ones) {
      SplitSlashed(s, host, mask, tail);
      AddressRoundTrip(host, net.ip);
    }
  }

  /** Why a text is not read as a network, from left to right. */
  lemma NetRefusedExactly(s: string, maskMustBeSpecified: bool, host: string, mask: string, tail: string)
    ensures s == "" ==> ParseNet(s, maskMustBeSpecified) == Failure(EmptyText)
    ensures s != "" && '/' !in s ==>
              ParseNet(s, maskMustBeSpecified) ==
                match ParseIPv4(s)
                case None => Failure(InvalidAddress)
                case Some(ip) => if maskMustBeSpecified then Failure(MaskMissing) else Success(IPNet(ip, 32))
    ensures Slashed(s, host, mask, tail) && '/' !in host ==>
              ParseNet(s, maskMustBeSpecified) ==
                match ParseIPv4(host)
                case None => Failure(InvalidAddress)
                case Some(ip) =>
                  match Atoi(mask)
                  case None => Failure(MaskNotANumber)
                  case Some(n) => if 0 <= n <= 32 then Success(IPNet(ip, n)) else Failure(MaskOutOfRange)
  {
    hide Atoi, ParseIPv4;
    if '/' !in s {
      SplitWhole(s, '/');
    }
    if Slashed(s, host, mask, tail) && '/' !in host {
      SplitSlashed(s, host, mask, tail);
    }
    hide Split;
  }

  /** The source compares networks by their text; that is the same as comparing the networks. */
  lemma PrintNetInjective(m: IPNet, n: IPNet)
    ensures PrintNet(m) == PrintNet(n) <==> m == n
  {
    NetRoundTrip(m, true);
    NetRoundTrip(n, true);
  }

  lemma PrintIPv4Injective(m: IPv4, n: IPv4)
    ensures PrintIPv4(m) == PrintIPv4(n) <==> m == n
  {
    AddressRoundTrip(PrintIPv4(m), m);
    AddressRoundTrip(PrintIPv4(m), n);
  }

  // ---- lists of networks

  /** What MapStringsToIPNetMarshables keeps: entries that are blank or do not parse are dropped. */
  function ParsedNets(strs: seq<string>): seq<IPNet> {
    if strs == [] then []
    else
      var front := ParsedNets(strs[..|strs| - 1]);
      match ParseNet(TrimSpace(strs[|strs| - 1]), false)
      case Success(net) => front + [net]
      case Failure(_) => front
  }

  method MapStringsToIPNetMarshables(strs: seq<string>) returns (result: seq<IPNet>)
    ensures result == ParsedNets(strs)
  {
    result := [];
    for i := 0 to |strs|
      invariant result == ParsedNets(strs[..i])
    {
      assert strs[..i + 1][..i] == strs[..i];
      var s := TrimSpace(strs[i]);
      if s == "" {
        continue;
      }
      var net := ParseNet(s, false);
      if net.Failure? {
        continue;
      }
      result := result + [net.value];
    }
    assert strs[..|strs|] == strs;
  }

  /** Entry by entry: each text is trimmed and parsed on its own, in order. */
  lemma {:induction false} ParsedNetsMeans(a: seq<string>, b: seq<string>, s: string)
    ensures ParsedNets(a + b) == ParsedNets(a) + ParsedNets(b)
    ensures ParsedNets([s]) == match ParseNet(TrimSpace(s), false) case Success(net) => [net] case Failure(_) => []
  {
    hide ParseNet, TrimSpace;
    assert [s][..0] == [] && ParsedNets([]) == [];
    if b == [] {
      assert a + b == a;
    } else {
      var n := |b| - 1;
      ParsedNetsMeans(a, b[..n], s);
      assert (a + b)[..|a + b| - 1] == a + b[..n];
    }
  }

  /** MapIPNetMarshablesToStrings */
  method MapIPNetMarshablesToStrings(nets: seq<IPNet>, includeMask: bool) returns (result: seq<string>)
    ensures |result| == |nets|
    ensures forall i :: 0 <= i < |nets| ==> result[i] == if includeMask then PrintNet(nets[i]) else PrintIPv4(nets[i].ip)
  {
    var buffer := new string[|nets|](_ => "");
    for i := 0 to |nets|
      invariant forall k :: 0 <= k < i ==>
        buffer[k] == if includeMask then PrintNet(nets[k]) else PrintIPv4(nets[k].ip)
    {
      if includeMask {
        buffer[i] := PrintNet(nets[i]);
      } else {
        buffer[i] := PrintIPv4(nets[i].ip);
      }
    }
    result := buffer[..];
  }

  /** The text of a network in one of the two forms the registry writes. */
  predicate Denotes(s: string, net: IPNet) {
    s == PrintNet(net) || (net.ones == 32 && s == PrintIPv4(net.ip))
  }

  lemma PrintedEnds(ip: IPv4)
    ensures var s := PrintIPv4(ip); s != [] && IsDigit(s[0]) && IsDigit(s[|s| - 1])
  {
    ValueOfPrint(ip.o0);
    ValueOfPrint(ip.o3);
    var s, last := PrintIPv4(ip), PrintNat(ip.o3);
    assert s[|s| - 1] == last[|last| - 1];
  }

  lemma TrimKeepsPrinted(s: string, net: IPNet)
    requires Denotes(s, net)
    ensures TrimSpace(s) == s && ParseNet(s, false) == Success(net)
  {
    PrintedEnds(net.ip);
    assert IsDigit(s[0]) && IsDigit(s[|s| - 1]) by {
      ValueOfPrint(net.ones);
      var mask := PrintNat(net.ones);
      if s == PrintNet(net) {
        assert s[|s| - 1] == mask[|mask| - 1];
      }
    }
    TrimIdle(s);
    NetRoundTrip(net, false);
    BareAddressRoundTrip(net.ip);
  }

  lemma ParsedNetsStep(strs: seq<string>, net: IPNet)
    requires strs != [] && Denotes(strs[|strs| - 1], net)
    ensures ParsedNets(strs) == ParsedNets(strs[..|strs| - 1]) + [net]
  {
    TrimKeepsPrinted(strs[|strs| - 1], net);
  }

  /** No silent loss: a list of printed networks is read back entry by entry. */
  lemma {:induction false} NothingDropped(strs: seq<string>, nets: seq<IPNet>)
    requires |strs| == |nets|
    requires forall i :: 0 <= i < |nets| ==> Denotes(strs[i], nets[i])
    ensures ParsedNets(strs) == nets
  {
    if strs != [] {
      var n := |strs| - 1;
      forall i | 0 <= i < n
        ensures Denotes(strs[..n][i], nets[..n][i])
      {
        assert Denotes(strs[i], nets[i]);
      }
      NothingDropped(strs[..n], nets[..n]);
      ParsedNetsStep(strs, nets[n]);
      assert nets == nets[..n] + [nets[n]];
    }
  }

  // ---- prefixes (section 3.1 of RFC 4632)

  function Number(ip: IPv4): nat {
    ((ip.o0 * 256 + ip.o1) * 256 + ip.o2) * 256 + ip.o3
  }

  /** n without its k lowest bits. */
  function ShiftRight(n: nat, k: nat): nat
    decreases k
  {
    if k == 0 then n else ShiftRight(n / 2, k - 1)
  }

  /** ip agrees with the network on the first `ones` bits. */
  predicate Contains(net: IPNet, ip: IPv4) {
    ShiftRight(Number(net.ip), 32 - net.ones) == ShiftRight(Number(ip), 32 - net.ones)
  }

  lemma {:induction false} ShiftTwice(n: nat, j: nat, k: nat)
    ensures ShiftRight(n, j + k) == ShiftRight(ShiftRight(n, j), k)
    decreases j
  {
    if j > 0 {
      ShiftTwice(n / 2, j - 1, k);
    }
  }

  lemma ShiftNibble(n: nat)
    ensures ShiftRight(n, 4) == n / 16
  {
    assert ShiftRight(n, 4) == ShiftRight(n / 2, 3) == ShiftRight(n / 2 / 2, 2);
    assert ShiftRight(n / 2 / 2, 2) == ShiftRight(n / 2 / 2 / 2, 1) == ShiftRight(n / 2 / 2 / 2 / 2, 0);
  }

  lemma ShiftByte(n: nat)
    ensures ShiftRight(n, 8) == n / 256
  {
    ShiftTwice(n, 4, 4);
    ShiftNibble(n);
    ShiftNibble(n / 16);
  }

  lemma ShiftNumber(ip: IPv4)
    ensures ShiftRight(Number(ip), 8) == (ip.o0 * 256 + ip.o1) * 256 + ip.o2
    ensures ShiftRight(Number(ip), 16) == ip.o0 * 256 + ip.o1
    ensures ShiftRight(Number(ip), 20) == ip.o0 * 16 + ip.o1 / 16
  {
    var n := Number(ip);
    ShiftByte(n);
    ShiftTwice(n, 8, 8);
    ShiftByte(n / 256);
    ShiftTwice(n, 16, 4);
    ShiftNibble(n / 256 / 256);
  }

  lemma ByteSplit(h: nat, l: Octet, h': nat, l': Octet)
    requires h * 256 + l == h' * 256 + l'
    ensures h == h' && l == l'
  {
  }

  lemma ContainsHost(net: IPv4, ip: IPv4)
    ensures Contains(IPNet(net, 32), ip) <==> net == ip
  {
    assert ShiftRight(Number(net), 0) == Number(net) && ShiftRight(Number(ip), 0) == Number(ip);
    if Number(net) == Number(ip) {
      ByteSplit((net.o0 * 256 + net.o1) * 256 + net.o2, net.o3, (ip.o0 * 256 + ip.o1) * 256 + ip.o2, ip.o3);
      ByteSplit(net.o0 * 256 + net.o1, net.o2, ip.o0 * 256 + ip.o1, ip.o2);
      ByteSplit(net.o0, net.o1, ip.o0, ip.o1);
    }
    hide ShiftRight, Number;
  }

  lemma Contains24(net: IPv4, ip: IPv4)
    ensures Contains(IPNet(net, 24), ip) <==> net.o0 == ip.o0 && net.o1 == ip.o1 && net.o2 == ip.o2
  {
    ShiftNumber(net);
    ShiftNumber(ip);
    hide ShiftRight, Number;
  }

  lemma Contains16(net: IPv4, ip: IPv4)
    ensures Contains(IPNet(net, 16), ip) <==> net.o0 == ip.o0 && net.o1 == ip.o1
  {
    ShiftNumber(net);
    ShiftNumber(ip);
  }

  lemma Contains12(net: IPv4, ip: IPv4)
    ensures Contains(IPNet(net, 12), ip) <==> net.o0 == ip.o0 && net.o1 / 16 == ip.o1 / 16
  {
    ShiftNumber(net);
    ShiftNumber(ip);
    hide ShiftRight, Number;
  }
}
