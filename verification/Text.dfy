/** Python string operations the codecs use, and decimal numerals. */
module Text {

  /** `s.replace(old, new)`: non-overlapping, left to right. */
  function Replace(s: string, old': string, new': string): string
    requires old' != []
  {
    if s == [] then []
    else if old' <= s then new' + Replace(s[|old'|..], old', new')
    else [s[0]] + Replace(s[1..], old', new')
  }

  /** `s.split("/")` */
  function Split(s: string): (parts: seq<string>)
    ensures parts != [] && forall i :: 0 <= i < |parts| ==> '/' !in parts[i]
  {
    if s == [] then [""]
    else
      var rest := Split(s[1..]);
      if s[0] == '/' then [""] + rest else [[s[0]] + rest[0]] + rest[1..]
  }

  function Join(parts: seq<string>): string
    requires parts != []
  {
    if |parts| == 1 then parts[0] else parts[0] + "/" + Join(parts[1..])
  }

  lemma {:induction false} JoinSplit(s: string)
    ensures Join(Split(s)) == s
  {
    if s != [] {
      JoinSplit(s[1..]);
      var rest := Split(s[1..]);
      if s[0] == '/' {
        assert ([""] + rest)[1..] == rest;
      } else {
        assert ([[s[0]] + rest[0]] + rest[1..])[1..] == rest[1..];
      }
    }
  }

  lemma {:induction false} SplitPlain(a: string)
    requires '/' !in a
    ensures Split(a) == [a]
  {
    if a != [] {
      SplitPlain(a[1..]);
      assert [a[0]] + a[1..] == a;
    }
  }

  lemma {:induction false} SplitAtSlash(a: string, b: string)
    requires '/' !in a
    ensures Split(a + "/" + b) == [a] + Split(b)
  {
    var s := a + "/" + b;
    if a == [] {
      assert s[1..] == b;
    } else {
      SplitAtSlash(a[1..], b);
      assert s[1..] == a[1..] + "/" + b;
      assert [a[0]] + a[1..] == a;
    }
  }

  lemma {:induction false} SplitJoin(parts: seq<string>)
    requires parts != [] && forall i :: 0 <= i < |parts| ==> '/' !in parts[i]
    ensures Split(Join(parts)) == parts
  {
    if |parts| == 1 {
      SplitPlain(parts[0]);
    } else {
      SplitJoin(parts[1..]);
      SplitAtSlash(parts[0], Join(parts[1..]));
    }
  }

  // ----- white space, as far as ASCII goes

  /** What the C library's `isspace` accepts. */
  predicate IsBlank(c: char) {
    c == ' ' || '\t' <= c <= '\r'
  }

  /** `c.isspace()`, which also accepts the four separators of ASCII. */
  predicate IsSpace(c: char) {
    IsBlank(c) || '\U{1c}' <= c <= '\U{1f}'
  }

  function Trim(s: string, space: char -> bool): string {
    if s == [] then s
    else if space(s[0]) then Trim(s[1..], space)
    else if space(s[|s| - 1]) then Trim(s[..|s| - 1], space)
    else s
  }

  ghost predicate AllOf(s: string, space: char -> bool) {
    forall c :: c in s ==> space(c)
  }

  lemma OneMoreInFront(x: char, s: string, a: string, t: string, b: string, space: char -> bool)
    requires s == a + t + b && AllOf(a, space) && space(x)
    ensures [x] + s == ([x] + a) + t + b && AllOf([x] + a, space)
  {
  }

  lemma OneMoreBehind(s: string, a: string, t: string, b: string, x: char, space: char -> bool)
    requires s == a + t + b && AllOf(b, space) && space(x)
    ensures s + [x] == a + t + (b + [x]) && AllOf(b + [x], space)
  {
  }

  /** Trimming removes white space at both ends, all of it and nothing else. */
  lemma {:induction false} TrimSplits(s: string, space: char -> bool) returns (a: string, b: string)
    ensures s == a + Trim(s, space) + b && AllOf(a, space) && AllOf(b, space)
    ensures var t := Trim(s, space); t != [] ==> !space(t[0]) && !space(t[|t| - 1])
  {
    var n := |s| - 1;
    if s != [] && space(s[0]) {
      a, b := TrimSplits(s[1..], space);
      assert s == [s[0]] + s[1..];
      OneMoreInFront(s[0], s[1..], a, Trim(s, space), b, space);
      a := [s[0]] + a;
    } else if s != [] && space(s[n]) {
      a, b := TrimSplits(s[..n], space);
      assert s == s[..n] + [s[n]];
      OneMoreBehind(s[..n], a, Trim(s, space), b, s[n], space);
      b := b + [s[n]];
    } else {
      a, b := [], [];
      assert s == [] + s + [];
    }
  }

  lemma {:induction false} TrimKeeps(a: string, t: string, b: string, space: char -> bool)
    requires AllOf(a, space) && AllOf(b, space) && t != [] && !space(t[0]) && !space(t[|t| - 1])
    ensures Trim(a + t + b, space) == t
    decreases |a| + |b|
  {
    var s := a + t + b;
    if a != [] {
      assert s[0] == a[0] && s[0] in a && s[1..] == a[1..] + t + b;
      TrimKeeps(a[1..], t, b, space);
    } else if b != [] {
      var n := |b| - 1;
      assert s[0] == t[0] && s[|s| - 1] == b[n] && b[n] in b && s[..|s| - 1] == a + t + b[..n];
      TrimKeeps(a, t, b[..n], space);
    } else {
      assert s == t;
    }
  }

  /** `s.strip()` */
  function Strip(s: string): string {
    Trim(s, IsSpace)
  }

  // ----- decimal numerals

  predicate IsDigit(c: char) {
    '0' <= c <= '9'
  }

  predicate Digits(s: string) {
    forall i :: 0 <= i < |s| ==> IsDigit(s[i])
  }

  /** `0|[1-9][0-9]*` */
  predicate Canonical(s: string) {
    s != [] && Digits(s) && (s[0] == '0' ==> |s| == 1)
  }

  function DigitOf(n: nat): (c: char)
    requires n < 10
    ensures IsDigit(c) && ValueOf(c) == n
  {
    '0' + n as char
  }

  function ValueOf(c: char): (n: nat)
    requires IsDigit(c)
    ensures n < 10
  {
    (c - '0') as nat
  }

  lemma DigitUnique(c: char)
    requires IsDigit(c)
    ensures DigitOf(ValueOf(c)) == c
  {
  }

  /** `str(n)` */
  function Str(n: nat): string {
    if n < 10 then [DigitOf(n)] else Str(n / 10) + [DigitOf(n % 10)]
  }

  /** `int(s)` for a string of digits. */
  function Nat(s: string): nat
    requires Digits(s)
  {
    if s == [] then 0 else 10 * Nat(s[..|s| - 1]) + ValueOf(s[|s| - 1])
  }

  lemma {:induction false} NatStr(n: nat)
    ensures Canonical(Str(n)) && Nat(Str(n)) == n && (n > 0 ==> Str(n)[0] != '0')
  {
    if n >= 10 {
      NatStr(n / 10);
      assert Str(n)[..|Str(n)| - 1] == Str(n / 10);
    }
  }

  lemma {:induction false} StrNat(s: string)
    requires Canonical(s)
    ensures Str(Nat(s)) == s && (s[0] != '0' ==> Nat(s) > 0)
  {
    var n := |s| - 1;
    DigitUnique(s[n]);
    if n > 0 {
      StrNat(s[..n]);
      assert Nat(s) / 10 == Nat(s[..n]) && Nat(s) % 10 == ValueOf(s[n]);
      assert s == s[..n] + [s[n]];
    } else {
      assert s[..n] == [];
    }
  }
}
