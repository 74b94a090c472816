/** Decimal printing and parsing, splitting and trimming, as the Go library does them. */
module Text {
  import opened Common

  predicate IsDigit(c: char) { '0' <= c <= '9' }

  predicate AllDigits(s: string) {
    forall i :: 0 <= i < |s| ==> IsDigit(s[i])
  }

  /** The number a string of decimal digits denotes. */
  function Value(s: string): nat
    requires AllDigits(s)
  {
    if s == [] then 0 else 10 * Value(s[..|s| - 1]) + (s[|s| - 1] as int - '0' as int)
  }

  /** fmt.Sprintf("%d", n) for n >= 0 */
  function PrintNat(n: nat): (s: string) {
    if n < 10 then [('0' as int + n) as char]
    else PrintNat(n / 10) + [('0' as int + n % 10) as char]
  }

  /** Digits without a superfluous leading zero. */
  predicate Canonical(s: string) {
    s != [] && AllDigits(s) && (|s| == 1 || s[0] != '0')
  }

  lemma {:induction false} ValueOfPrint(n: nat)
    ensures Canonical(PrintNat(n)) && Value(PrintNat(n)) == n
    ensures n > 0 ==> PrintNat(n)[0] != '0'
  {
    if n >= 10 {
      ValueOfPrint(n / 10);
      var s := PrintNat(n);
      assert s[..|s| - 1] == PrintNat(n / 10);
    }
  }

  lemma {:induction false} PrintOfValue(s: string)
    requires Canonical(s)
    ensures PrintNat(Value(s)) == s
    ensures s[0] != '0' ==> Value(s) > 0
  {
    var front := s[..|s| - 1];
    if front == [] {
      assert Value(front) == 0;
      assert s == [s[0]];
    } else {
      PrintOfValue(front);
      assert s == front + [s[|s| - 1]];
      assert Value(s) / 10 == Value(front);
    }
  }

  lemma PrintFreeOf(n: nat, c: char)
    requires !IsDigit(c)
    ensures c !in PrintNat(n)
  {
    ValueOfPrint(n);
  }

  /** strings.Split on a one-character separator. */
  function Split(s: string, sep: char): (parts: seq<string>)
    ensures parts != []
  {
    if s == [] then [[]]
    else
      var rest := Split(s[1..], sep);
      if s[0] == sep then [[]] + rest else [[s[0]] + rest[0]] + rest[1..]
  }

  lemma {:induction false} SplitWhole(a: string, sep: char)
    requires sep !in a
    ensures Split(a, sep) == [a]
  {
    if a != [] {
      SplitWhole(a[1..], sep);
      assert a == [a[0]] + a[1..];
    }
  }

  lemma {:induction false} SplitFirst(a: string, b: string, sep: char)
    requires sep !in a
    ensures Split(a + [sep] + b, sep) == [a] + Split(b, sep)
  {
    var s := a + [sep] + b;
    if a == [] {
      assert s[1..] == b;
    } else {
      SplitFirst(a[1..], b, sep);
      assert s[1..] == a[1..] + [sep] + b;
      assert a == [a[0]] + a[1..];
    }
  }

  /** Splitting loses nothing: the first part never holds the separator, and gluing the parts restores the text. */
  lemma {:induction false} SplitInverse(s: string, sep: char)
    ensures var parts := Split(s, sep);
            && sep !in parts[0]
            && (|parts| == 1 ==> s == parts[0])
            && (|parts| > 1 ==> |parts[0]| < |s| && s == parts[0] + [sep] + s[|parts[0]| + 1..]
                                && Split(s[|parts[0]| + 1..], sep) == parts[1..])
  {
    if s != [] && s[0] != sep {
      SplitInverse(s[1..], sep);
      var rest := Split(s[1..], sep);
      var parts := Split(s, sep);
      assert s == [s[0]] + s[1..];
      if |rest| > 1 {
        assert s[|parts[0]| + 1..] == s[1..][|rest[0]| + 1..];
      }
    }
  }

  lemma SplitFour(a: string, b: string, c: string, d: string, sep: char)
    requires sep !in a && sep !in b && sep !in c && sep !in d
    ensures Split(a + [sep] + b + [sep] + c + [sep] + d, sep) == [a, b, c, d]
  {
    hide Split;
    var cd := c + [sep] + d;
    var bcd := b + [sep] + cd;
    SplitWhole(d, sep);
    SplitFirst(c, d, sep);
    SplitFirst(b, cd, sep);
    SplitFirst(a, bcd, sep);
    assert a + [sep] + b + [sep] + c + [sep] + d == a + [sep] + bcd;
  }

  /** strings.Join */
  function Join(parts: seq<string>, sep: char): string {
    if parts == [] then [] else if |parts| == 1 then parts[0] else parts[0] + [sep] + Join(parts[1..], sep)
  }

  lemma {:induction false} JoinSplit(s: string, sep: char)
    ensures Join(Split(s, sep), sep) == s
  {
    if s != [] {
      JoinSplit(s[1..], sep);
      var rest, parts := Split(s[1..], sep), Split(s, sep);
      assert s == [s[0]] + s[1..];
      if s[0] == sep {
        assert parts[1..] == rest;
      } else {
        assert parts[1..] == rest[1..];
      }
    }
  }

  lemma JoinFour(p: seq<string>, sep: char)
    requires |p| == 4
    ensures Join(p, sep) == p[0] + [sep] + p[1] + [sep] + p[2] + [sep] + p[3]
  {
    assert p[1..][1..] == p[2..] && p[2..][1..] == p[3..];
    assert Join(p[3..], sep) == p[3];
    assert Join(p[2..], sep) == p[2] + [sep] + p[3];
    assert Join(p[1..], sep) == p[1] + [sep] + (p[2] + [sep] + p[3]);
    assert Join(p, sep) == p[0] + [sep] + (p[1] + [sep] + (p[2] + [sep] + p[3]));
  }

  lemma SplitSingle(s: string, sep: char)
    ensures |Split(s, sep)| == 1 <==> sep !in s
  {
    SplitInverse(s, sep);
    if sep !in s { SplitWhole(s, sep); }
  }

  /** unicode.IsSpace */
  predicate IsSpace(c: char) {
    c in {'\t', '\n', '\U{0B}', '\U{0C}', '\r', ' ', '\U{85}', '\U{A0}', '\U{1680}',
          '\U{2028}', '\U{2029}', '\U{202F}', '\U{205F}', '\U{3000}'}
    || '\U{2000}' <= c <= '\U{200A}'
  }

  /** strings.TrimSpace */
  function TrimSpace(s: string): string {
    if s == [] then []
    else if IsSpace(s[0]) then TrimSpace(s[1..])
    else if IsSpace(s[|s| - 1]) then TrimSpace(s[..|s| - 1])
    else s
  }

  lemma TrimIdle(s: string)
    requires s != [] && !IsSpace(s[0]) && !IsSpace(s[|s| - 1])
    ensures TrimSpace(s) == s
  {
  }

  /** strconv.Atoi on a 64-bit machine: an optional sign, digits, and the int64 range. */
  function Atoi(s: string): Option<int> {
    var digits := if s != [] && (s[0] == '-' || s[0] == '+') then s[1..] else s;
    if digits == [] || !AllDigits(digits) then None
    else
      var n: int := Value(digits);
      var v := if s[0] == '-' then -n else n;
      if -0x8000_0000_0000_0000 <= v < 0x8000_0000_0000_0000 then Some(v) else None
  }

  lemma AtoiOfPrint(n: nat)
    requires n < 0x8000_0000_0000_0000
    ensures Atoi(PrintNat(n)) == Some(n)
  {
    ValueOfPrint(n);
  }

  /** Exactly what is read as an integer: an optional sign and digits, within 64 bits. */
  lemma AtoiExactly(s: string, v: int)
    ensures Atoi(s) == Some(v) <==>
            && -0x8000_0000_0000_0000 <= v < 0x8000_0000_0000_0000
            && exists digits :: digits != "" && AllDigits(digits)
                 && ((v == Value(digits) && (s == digits || s == "+" + digits)) || (v + Value(digits) == 0 && s == "-" + digits))
  {
    var digits := if s != [] && (s[0] == '-' || s[0] == '+') then s[1..] else s;
    if s != [] && (s[0] == '-' || s[0] == '+') {
      assert s == [s[0]] + digits;
    }
    hide Value;
    if d :| d != "" && AllDigits(d)
            && ((v == Value(d) && (s == d || s == "+" + d)) || (v + Value(d) == 0 && s == "-" + d)) {
      assert IsDigit(d[0]);
      assert s[0] != d[0] ==> s[1..] == d;
    }
  }

  /** Leading zeros do not count. */
  lemma {:induction false} LeadingZero(s: string)
    requires AllDigits(s)
    ensures AllDigits("0" + s) && Value("0" + s) == Value(s)
  {
    if s != [] {
      LeadingZero(s[..|s| - 1]);
      assert ("0" + s)[..|s|] == "0" + s[..|s| - 1];
    } else {
      assert ("0" + s)[..0] == "";
    }
  }

  predicate AllSpaces(s: string) {
    forall i :: 0 <= i < |s| ==> IsSpace(s[i])
  }

  lemma SpacesCons(c: char, s: string)
    requires IsSpace(c) && AllSpaces(s)
    ensures AllSpaces([c] + s) && AllSpaces(s + [c])
  {
    hide IsSpace;
  }

  lemma TrimFront(s: string, before: string, after: string)
    requires s != "" && IsSpace(s[0]) && AllSpaces(before) && s[1..] == before + TrimSpace(s[1..]) + after
    ensures TrimSpace(s) == TrimSpace(s[1..]) && AllSpaces([s[0]] + before)
    ensures s == [s[0]] + before + TrimSpace(s) + after
  {
    assert TrimSpace(s) == TrimSpace(s[1..]);
    hide IsSpace, TrimSpace, AllSpaces;
    var t := TrimSpace(s);
    assert [s[0]] + (before + t + after) == [s[0]] + before + t + after;
    assert s == [s[0]] + s[1..];
    SpacesCons(s[0], before);
  }

  lemma TrimBack(s: string, before: string, after: string)
    requires s != "" && !IsSpace(s[0]) && IsSpace(s[|s| - 1]) && AllSpaces(after)
    requires var front := s[..|s| - 1]; front == before + TrimSpace(front) + after
    ensures TrimSpace(s) == TrimSpace(s[..|s| - 1]) && AllSpaces(after + [s[|s| - 1]])
    ensures s == before + TrimSpace(s) + (after + [s[|s| - 1]])
  {
    assert TrimSpace(s) == TrimSpace(s[..|s| - 1]);
    hide IsSpace, TrimSpace, AllSpaces;
    var t, last := TrimSpace(s), s[|s| - 1];
    assert (before + t + after) + [last] == before + t + (after + [last]);
    assert s == s[..|s| - 1] + [last];
    SpacesCons(last, after);
  }

  /** Trimming removes spaces at both ends, all of them and nothing else. */
  lemma {:induction false} TrimMeans(s: string) returns (before: string, after: string)
    ensures s == before + TrimSpace(s) + after && AllSpaces(before) && AllSpaces(after)
    ensures var t := TrimSpace(s); t != "" ==> !IsSpace(t[0]) && !IsSpace(t[|t| - 1])
    decreases |s|
  {
    hide IsSpace;
    before, after := "", "";
    if s != [] {
      if IsSpace(s[0]) {
        before, after := TrimMeans(s[1..]);
        hide AllSpaces, TrimSpace;
        TrimFront(s, before, after);
        before := [s[0]] + before;
      } else if IsSpace(s[|s| - 1]) {
        before, after := TrimMeans(s[..|s| - 1]);
        hide AllSpaces, TrimSpace;
        TrimBack(s, before, after);
        after := after + [s[|s| - 1]];
      }
    }
  }
}
