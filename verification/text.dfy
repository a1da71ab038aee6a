/** Text primitives of the Python runtime that the gateway's checks rest on. */
module Text {

  /** The characters that `str.strip` removes. */
  predicate IsSpace(c: char) {
    || '\U{0009}' <= c <= '\U{000D}'
    || '\U{001C}' <= c <= '\U{0020}'
    || c == '\U{0085}' || c == '\U{00A0}' || c == '\U{1680}'
    || '\U{2000}' <= c <= '\U{200A}'
    || c == '\U{2028}' || c == '\U{2029}' || c == '\U{202F}' || c == '\U{205F}' || c == '\U{3000}'
  }

  predicate AllSpaces(s: string) {
    forall c | c in s :: IsSpace(c)
  }

  predicate Trimmed(s: string) {
    s == "" || (!IsSpace(s[0]) && !IsSpace(s[|s| - 1]))
  }

  function TrimLeft(s: string): (r: string)
    ensures r == "" || !IsSpace(r[0])
  {
    if s != "" && IsSpace(s[0]) then TrimLeft(s[1..]) else s
  }

  function TrimRight(s: string): (r: string)
    ensures r <= s
    ensures r == "" || !IsSpace(r[|r| - 1])
  {
    if s != "" && IsSpace(s[|s| - 1]) then TrimRight(s[..|s| - 1]) else s
  }

  function Trim(s: string): (r: string)
    ensures Trimmed(r)
    ensures Trimmed(s) ==> r == s
  {
    TrimRight(TrimLeft(s))
  }

  lemma {:induction false} TrimLeftParts(s: string) returns (a: string)
    ensures s == a + TrimLeft(s) && AllSpaces(a)
  {
    a := "";
    if s != "" && IsSpace(s[0]) {
      var rest := TrimLeftParts(s[1..]);
      a := [s[0]] + rest;
      assert s == [s[0]] + s[1..];
    }
  }

  lemma {:induction false} TrimRightParts(s: string) returns (b: string)
    ensures s == TrimRight(s) + b && AllSpaces(b)
  {
    b := "";
    if s != "" && IsSpace(s[|s| - 1]) {
      var init, c := s[..|s| - 1], s[|s| - 1];
      var rest := TrimRightParts(init);
      b := rest + [c];
      assert TrimRight(s) == TrimRight(init);
      assert s == init + [c] == TrimRight(s) + rest + [c];
    }
  }

  lemma {:induction false} TrimLeftOf(a: string, s: string)
    requires AllSpaces(a) && s != "" && !IsSpace(s[0])
    ensures TrimLeft(a + s) == s
  {
    if a == "" {
      assert a + s == s;
    } else {
      var c, rest := a[0], a[1..];
      assert c in a && a == [c] + rest;
      TrimLeftOf(rest, s);
      assert (a + s)[0] == c && (a + s)[1..] == rest + s;
    }
  }

  lemma {:induction false} TrimRightOf(s: string, b: string)
    requires AllSpaces(b) && s != "" && !IsSpace(s[|s| - 1])
    ensures TrimRight(s + b) == s
  {
    if b == "" {
      assert s + b == s;
    } else {
      var n := |b| - 1;
      var c, rest := b[n], b[..n];
      assert c in b && b == rest + [c];
      TrimRightOf(s, rest);
      var t := s + b;
      assert t[|t| - 1] == c && t[..|t| - 1] == s + rest;
    }
  }

  /** Trimming takes spaces off both ends and nothing else. */
  lemma TrimParts(s: string) returns (a: string, b: string)
    ensures s == a + Trim(s) + b && AllSpaces(a) && AllSpaces(b)
  {
    a := TrimLeftParts(s);
    b := TrimRightParts(TrimLeft(s));
    assert s == a + (Trim(s) + b);
  }

  /** A trimmed text with spaces around it is what trimming leaves. */
  lemma TrimOf(a: string, s: string, b: string)
    requires AllSpaces(a) && AllSpaces(b) && Trimmed(s) && s != ""
    ensures Trim(a + s + b) == s
  {
    assert a + s + b == a + (s + b) && (s + b)[0] == s[0];
    TrimLeftOf(a, s + b);
    TrimRightOf(s, b);
  }

  predicate StartsWith(s: string, prefix: string) {
    prefix <= s
  }

  predicate OccursAt(s: string, sub: string, i: nat) {
    i + |sub| <= |s| && s[i..i + |sub|] == sub
  }

  /** `sub in s` on strings. */
  predicate Contains(s: string, sub: string) {
    exists i | 0 <= i <= |s| :: OccursAt(s, sub, i)
  }

  function Split(s: string, sep: char): (r: seq<string>)
    ensures |r| >= 1
    ensures forall p | p in r :: sep !in p
  {
    if s == "" then [""]
    else
      var rest := Split(s[1..], sep);
      if s[0] == sep then [""] + rest else [[s[0]] + rest[0]] + rest[1..]
  }

  function Join(parts: seq<string>, sep: char): string
    requires |parts| >= 1
  {
    if |parts| == 1 then parts[0] else parts[0] + [sep] + Join(parts[1..], sep)
  }

  /** Splitting loses nothing: joining the levels gives the string back. */
  lemma {:induction false} JoinSplit(s: string, sep: char)
    ensures Join(Split(s, sep), sep) == s
  {
    if s != "" {
      JoinSplit(s[1..], sep);
      var rest := Split(s[1..], sep);
      if s[0] == sep {
        assert Split(s, sep)[1..] == rest;
      } else {
        assert Split(s, sep)[1..] == rest[1..];
      }
    }
  }

  /** The parts once a character is put in front. */
  function Prepend(c: char, sep: char, parts: seq<string>): seq<string>
    requires parts != []
  {
    if c == sep then [""] + parts else [[c] + parts[0]] + parts[1..]
  }

  lemma SplitCons(c: char, s: string, sep: char)
    ensures Split([c] + s, sep) == Prepend(c, sep, Split(s, sep))
  {
    assert ([c] + s)[1..] == s;
  }

  lemma Glue(c: char, sep: char, parts: seq<string>, more: seq<string>)
    requires parts != []
    ensures Prepend(c, sep, parts + more) == Prepend(c, sep, parts) + more
  {
    assert (parts + more)[1..] == parts[1..] + more;
  }

  lemma {:induction false} SplitAppend(a: string, sep: char, b: string)
    ensures Split(a + [sep] + b, sep) == Split(a, sep) + Split(b, sep)
  {
    if a == "" {
      assert a + [sep] + b == [sep] + b;
      SplitCons(sep, b, sep);
    } else {
      var c, rest := a[0], a[1..];
      SplitAppend(rest, sep, b);
      SplitCons(c, rest, sep);
      SplitCons(c, rest + [sep] + b, sep);
      assert a == [c] + rest && a + [sep] + b == [c] + (rest + [sep] + b);
      Glue(c, sep, Split(rest, sep), Split(b, sep));
    }
  }

  lemma {:induction false} SplitSingle(s: string, sep: char)
    requires sep !in s
    ensures Split(s, sep) == [s]
  {
    if s != "" {
      SplitSingle(s[1..], sep);
      assert s[0] in s;
      assert s == [s[0]] + s[1..];
    }
  }

  lemma {:induction false} JoinAppend(a: seq<string>, b: seq<string>, sep: char)
    requires a != [] && b != []
    ensures Join(a + b, sep) == Join(a, sep) + [sep] + Join(b, sep)
  {
    assert (a + b)[1..] == a[1..] + b;
    if |a| == 1 {
      assert a[1..] + b == b;
    } else {
      JoinAppend(a[1..], b, sep);
    }
  }

  /** Joining loses nothing either, if no part contains the separator. */
  lemma {:induction false} SplitJoin(parts: seq<string>, sep: char)
    requires parts != [] && forall p | p in parts :: sep !in p
    ensures Split(Join(parts, sep), sep) == parts
  {
    var head, rest := parts[0], parts[1..];
    assert head in parts && parts == [head] + rest;
    SplitSingle(head, sep);
    if |parts| > 1 {
      forall p | p in rest ensures sep !in p {
        assert p in parts;
      }
      SplitJoin(rest, sep);
      SplitAppend(head, sep, Join(rest, sep));
    }
  }

  /** Decimal text of a number, as `str(n)` gives it. */
  function Digits(n: nat): (r: string)
    ensures r != ""
    ensures forall c | c in r :: '0' <= c <= '9'
  {
    var d := ['0' + (n % 10) as char];
    if n < 10 then d else Digits(n / 10) + d
  }

  lemma {:induction false} DigitsInjective(m: nat, n: nat)
    requires Digits(m) == Digits(n)
    ensures m == n
  {
    var dm, dn := Digits(m), Digits(n);
    assert dm[|dm| - 1] == '0' + (m % 10) as char;
    assert dn[|dn| - 1] == '0' + (n % 10) as char;
    assert ('0' + (m % 10) as char) as int == 48 + m % 10;
    assert ('0' + (n % 10) as char) as int == 48 + n % 10;
    if m >= 10 && n >= 10 {
      assert Digits(m / 10) == dm[..|dm| - 1];
      assert Digits(n / 10) == dn[..|dn| - 1];
      DigitsInjective(m / 10, n / 10);
    }
  }

  /** The number that a decimal text stands for. */
  function Value(s: string): int {
    if s == "" then 0 else 10 * Value(s[..|s| - 1]) + (s[|s| - 1] as int - '0' as int)
  }

  lemma {:induction false} DigitsValue(n: nat)
    ensures Value(Digits(n)) == n
    ensures Digits(n)[0] == '0' ==> n == 0
  {
    var last := '0' + (n % 10) as char;
    assert last as int - '0' as int == n % 10;
    var r := Digits(n);
    assert r[|r| - 1] == last;
    if n < 10 {
      assert r[..|r| - 1] == "";
    } else {
      DigitsValue(n / 10);
      assert r[..|r| - 1] == Digits(n / 10);
    }
  }

  /** The text after the last separator is determined by the whole. */
  lemma LastFieldUnique(x: string, a: string, y: string, b: string, sep: char)
    requires sep !in a && sep !in b
    requires x + [sep] + a == y + [sep] + b
    ensures x == y && a == b
  {
    SplitAppend(x, sep, a);
    SplitAppend(y, sep, b);
    SplitSingle(a, sep);
    SplitSingle(b, sep);
    var levels := Split(x + [sep] + a, sep);
    assert levels[|levels| - 1] == a && levels[|levels| - 1] == b;
    assert x == (x + [sep] + a)[..|x + [sep] + a| - |a| - 1];
    assert y == (y + [sep] + b)[..|y + [sep] + b| - |b| - 1];
  }
}
