/** SSH addresses of the form user@host:port. */
module Ssh {
  import opened Common
  import opened Text

  datatype SSHError = BadFormat | BadPort | PortTooLarge | UserRequired | EmptyUser | EmptyHost

  datatype Target = Target(user: string, host: string, port: nat)

  const DEFAULT_PORT := 22

  /** strconv.ParseUint(s, 10, 32) */
  function ParseUint32(s: string): Option<nat> {
    if s == [] || !AllDigits(s) then None
    else if Value(s) < 0x1_0000_0000 then Some(Value(s)) else None
  }

  function ParsePort(s: string): Result<nat, SSHError> {
    if s == "" then Success(DEFAULT_PORT)
    else
      match ParseUint32(s)
      case None => Failure(BadPort)
      case Some(p) => if p > 65535 then Failure(PortTooLarge) else Success(p)
  }

  function ParseLogin(s: string, port: nat): Result<Target, SSHError> {
    if '@' !in s then Failure(UserRequired)
    else
      var parts := Split(s, '@');
      if |parts| != 2 then Failure(BadFormat)
      else if parts[0] == "" then Failure(EmptyUser)
      else if parts[1] == "" then Failure(EmptyHost)
      else Success(Target(parts[0], parts[1], port))
  }

  /** parseSSHURL */
  function ParseSSHURL(sshURL: string): Result<Target, SSHError> {
    if ':' in sshURL then
      var parts := Split(sshURL, ':');
      if |parts| != 2 then Failure(BadFormat)
      else
        match ParsePort(parts[1])
        case Failure(e) => Failure(e)
        case Success(port) => ParseLogin(parts[0], port)
    else ParseLogin(sshURL, DEFAULT_PORT)
  }

  predicate Plain(s: string) {
    s != "" && ':' !in s && '@' !in s
  }

  lemma SplitPair(a: string, b: string, sep: char)
    requires sep !in a && sep !in b
    ensures Split(a + [sep] + b, sep) == [a, b]
  {
    SplitFirst(a, b, sep);
    SplitWhole(b, sep);
  }

  lemma PairSplit(s: string, sep: char)
    requires |Split(s, sep)| == 2
    ensures var p := Split(s, sep); s == p[0] + [sep] + p[1] && sep !in p[0] && sep !in p[1]
  {
    var p := Split(s, sep);
    JoinSplit(s, sep);
    SplitInverse(s, sep);
    SplitInverse(s[|p[0]| + 1..], sep);
  }

  /** A login text is accepted exactly when it is user@host with both parts non-empty and free of '@'. */
  lemma LoginExactly(s: string, port: nat, t: Target)
    requires ':' !in s
    ensures ParseLogin(s, port) == Success(t) <==>
            s == t.user + "@" + t.host && Plain(t.user) && Plain(t.host) && t.port == port
  {
    if ParseLogin(s, port) == Success(t) {
      PairSplit(s, '@');
      assert forall c :: c in t.user ==> c in s;
      assert forall c :: c in t.host ==> c in s;
    }
    if s == t.user + "@" + t.host && Plain(t.user) && Plain(t.host) {
      SplitPair(t.user, t.host, '@');
      assert s[|t.user|] == '@';
    }
  }

  /** A port text as the parser reads it: absent, or digits denoting at most 65535. */
  predicate PortText(s: string, port: nat) {
    if s == "" then port == DEFAULT_PORT else AllDigits(s) && Value(s) == port && port <= 65535
  }

  lemma PortExactly(s: string, port: nat)
    ensures ParsePort(s) == Success(port) <==> PortText(s, port)
  {
  }

  lemma NoColonNoPort(s: string, login: string)
    requires ':' !in s
    ensures forall port :: s != login + ":" + port
  {
    forall port: string
      ensures s != login + ":" + port
    {
      var full := login + ":" + port;
      assert full[|login|] == ':';
      assert ':' in full;
    }
  }

  /** Exactly which texts are accepted, and as what. */
  lemma AcceptedExactly(s: string, t: Target)
    ensures ParseSSHURL(s) == Success(t) <==>
            && Plain(t.user) && Plain(t.host)
            && ((s == t.user + "@" + t.host && t.port == DEFAULT_PORT)
                || exists port :: PortText(port, t.port) && s == t.user + "@" + t.host + ":" + port)
  {
    var login := t.user + "@" + t.host;
    if ':' in s {
      var parts := Split(s, ':');
      SplitSingle(s, ':');
      if |parts| == 2 {
        PairSplit(s, ':');
        PortExactly(parts[1], t.port);
        LoginExactly(parts[0], t.port, t);
        assert parts[0] + [':'] + parts[1] == parts[0] + ":" + parts[1];
      }
      if Plain(t.user) && Plain(t.host) {
        if port :| PortText(port, t.port) && s == login + ":" + port {
          assert ':' !in port;
          SplitPair(login, port, ':');
          PortExactly(port, t.port);
          LoginExactly(login, t.port, t);
        }
      }
    } else {
      LoginExactly(s, DEFAULT_PORT, t);
      NoColonNoPort(s, login);
    }
  }

  /** Whatever is accepted, printing it as the tool's own hint and parsing that gives it back. */
  lemma HintRoundTrip(s: string)
    requires ParseSSHURL(s).Success?
    ensures var t := ParseSSHURL(s).value;
            && ParseSSHURL(t.user + "@" + t.host + ":" + PrintNat(t.port)) == Success(t)
            && t.port <= 65535 && Plain(t.user) && Plain(t.host)
  {
    var t := ParseSSHURL(s).value;
    AcceptedExactly(s, t);
    ValueOfPrint(t.port);
    var hint := t.user + "@" + t.host + ":" + PrintNat(t.port);
    AcceptedExactly(hint, t);
    assert PortText(PrintNat(t.port), t.port);
  }

  /** Why a login without a colon is refused. */
  lemma LoginRefused(s: string, port: nat, user: string, host: string)
    ensures '@' !in s ==> ParseLogin(s, port) == Failure(UserRequired)
    ensures s == user + "@" + host && '@' !in user && '@' in host ==> ParseLogin(s, port) == Failure(BadFormat)
    ensures s == user + "@" + host && '@' !in user && '@' !in host ==>
              ParseLogin(s, port) ==
                if user == "" then Failure(EmptyUser) else if host == "" then Failure(EmptyHost)
                else Success(Target(user, host, port))
  {
    if s == user + "@" + host && '@' !in user {
      assert s[|user|] == '@';
      SplitFirst(user, host, '@');
      assert user + ['@'] + host == s;
      SplitSingle(host, '@');
      if '@' !in host {
        SplitWhole(host, '@');
      }
    }
    hide Split;
  }

  /** Which error each refused text gets, its parts taken from left to right. */
  lemma RefusedExactly(s: string, login: string, port: string)
    ensures ':' !in s ==> ParseSSHURL(s) == ParseLogin(s, 22)
    ensures s == login + ":" + port && ':' !in login && ':' in port ==> ParseSSHURL(s) == Failure(BadFormat)
    ensures s == login + ":" + port && ':' !in login && ':' !in port ==>
              ParseSSHURL(s) ==
                if port == "" then ParseLogin(login, 22)
                else if !AllDigits(port) || Value(port) >= 0x1_0000_0000 then Failure(BadPort)
                else if Value(port) > 65535 then Failure(PortTooLarge)
                else ParseLogin(login, Value(port))
  {
    hide ParseLogin, Value;
    if s == login + ":" + port && ':' !in login {
      assert s[|login|] == ':';
      SplitFirst(login, port, ':');
      assert login + [':'] + port == s;
      SplitSingle(port, ':');
      if ':' !in port {
        SplitWhole(port, ':');
      }
    }
    hide Split;
  }
}
