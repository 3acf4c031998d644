/** Names of the files and directories a review round writes, and their parsers. */
module ArtifactNames {
  import opened Text

  datatype Parsed = Number(value: int) | NotANumber

  datatype Cut = Cut(before: string, after: string) | NoSeparator

  const ROUND_SEPARATOR := "_round"

  const REVIEW_AUDIT_DIRECTORY_PREFIX := "review-audit-round-"

  // ----- Python's `str` and `int` on ASCII text

  /** `str(n)` */
  function Numeral(n: int): string {
    if n < 0 then "-" + Str(-n) else Str(n)
  }

  /** The numerals `str` writes: no plus sign, no leading zero, no minus zero. */
  predicate IsNumeral(s: string) {
    Canonical(s) || (|s| > 1 && s[0] == '-' && s[1] != '0' && Canonical(s[1..]))
  }

  /** Digits, with single underscores allowed between two of them. */
  predicate Grouped(s: string) {
    && s != [] && IsDigit(s[0]) && IsDigit(s[|s| - 1])
    && forall i :: 0 < i < |s| - 1 && !IsDigit(s[i]) ==> s[i] == '_' && IsDigit(s[i + 1])
  }

  function DigitsOf(s: string): (r: string)
    ensures Digits(r)
  {
    if s == [] then []
    else if IsDigit(s[0]) then [s[0]] + DigitsOf(s[1..])
    else DigitsOf(s[1..])
  }

  function Unsigned(s: string): Parsed {
    if Grouped(s) then Number(Nat(DigitsOf(s))) else NotANumber
  }

  function Trimmed(t: string): Parsed {
    if t != [] && t[0] == '-' then
      match Unsigned(t[1..])
      case Number(n) => Number(-n)
      case NotANumber => NotANumber
    else if t != [] && t[0] == '+' then Unsigned(t[1..])
    else Unsigned(t)
  }

  /** `int(s)`, which trims blanks only; `NotANumber` where it raises `ValueError`. */
  function ParseInt(s: string): Parsed {
    Trimmed(Trim(s, IsBlank))
  }

  lemma {:induction false} DigitsOfDigits(s: string)
    requires Digits(s)
    ensures DigitsOf(s) == s
  {
    if s != [] {
      DigitsOfDigits(s[1..]);
    }
  }

  /** Two groups of digits may be joined by an underscore, */
  lemma GroupsJoin(a: string, b: string)
    requires Grouped(a) && Grouped(b)
    ensures Grouped(a + "_" + b) && DigitsOf(a + "_" + b) == DigitsOf(a) + DigitsOf(b)
  {
    var s := a + "_" + b;
    forall i | 0 < i < |s| - 1 && !IsDigit(s[i])
      ensures s[i] == '_' && IsDigit(s[i + 1])
    {
      if i < |a| {
        assert s[i] == a[i] && i < |a| - 1 && s[i + 1] == a[i + 1];
      } else if i > |a| {
        assert s[i] == b[i - |a| - 1] && s[i + 1] == b[i - |a|];
      }
    }
    assert s[|s| - 1] == b[|b| - 1];
    DigitsOfJoined(a, b);
  }

  lemma {:induction false} DigitsOfJoined(a: string, b: string)
    ensures DigitsOf(a + "_" + b) == DigitsOf(a) + DigitsOf(b)
  {
    var s := a + "_" + b;
    if a == [] {
      assert s[0] == '_' && s[1..] == b;
    } else {
      assert s[0] == a[0] && s[1..] == a[1..] + "_" + b;
      DigitsOfJoined(a[1..], b);
    }
  }

  /** and every spelling with an underscore comes about in this way. */
  lemma GroupsSplit(s: string, i: nat)
    requires Grouped(s) && i < |s| && !IsDigit(s[i])
    ensures s == s[..i] + "_" + s[i + 1..] && Grouped(s[i + 1..]) && (Digits(s[..i]) ==> Grouped(s[..i]))
  {
    assert 0 < i < |s| - 1 && s[i] == '_';
    var rest := s[i + 1..];
    assert rest[0] == s[i + 1] && rest[|rest| - 1] == s[|s| - 1];
    forall j | 0 < j < |rest| - 1 && !IsDigit(rest[j])
      ensures rest[j] == '_' && IsDigit(rest[j + 1])
    {
      assert rest[j] == s[i + 1 + j] && rest[j + 1] == s[i + 2 + j];
    }
    assert s == s[..i] + [s[i]] + s[i + 1..];
  }

  function Signed(sign: string, n: nat): int {
    if sign == "-" then 0 - n else n
  }

  /** A sign or none, followed by grouped digits. */
  predicate Spelling(t: string, sign: string, body: string) {
    sign in {"", "+", "-"} && Grouped(body) && t == sign + body
  }

  lemma SpellingEnds(t: string, sign: string, body: string)
    requires Spelling(t, sign, body)
    ensures t != [] && !IsBlank(t[0]) && !IsBlank(t[|t| - 1])
    ensures if sign == "" then t == body && IsDigit(t[0]) else t[0] == sign[0] && t[1..] == body
  {
    assert t[|t| - 1] == body[|body| - 1] && t[0] == if sign == "" then body[0] else sign[0];
  }

  lemma ReadsTrimmed(t: string, sign: string, body: string)
    requires Spelling(t, sign, body)
    ensures Trimmed(t) == Number(Signed(sign, Nat(DigitsOf(body))))
  {
    SpellingEnds(t, sign, body);
    var n: int := Nat(DigitsOf(body));
    assert Unsigned(body) == Number(n);
    if sign == "-" {
      assert t[0] == '-' && Trimmed(t) == Number(0 - n);
    } else if sign == "+" {
      assert t[0] == '+' && Trimmed(t) == Number(n);
    } else {
      assert t == body && t[0] != '-' && t[0] != '+';
    }
  }

  /** `int` reads a sign or none before grouped digits, with blanks around them, */
  lemma ReadsSpelling(a: string, t: string, sign: string, body: string, b: string)
    requires AllOf(a, IsBlank) && AllOf(b, IsBlank) && Spelling(t, sign, body)
    ensures ParseInt(a + t + b) == Number(Signed(sign, Nat(DigitsOf(body))))
  {
    SpellingEnds(t, sign, body);
    TrimKeeps(a, t, b, IsBlank);
    ReadsTrimmed(t, sign, body);
  }

  lemma SignIs(t: string) returns (sign: string, body: string)
    requires t != []
    ensures t == sign + body && sign in {"", "+", "-"}
    ensures if t[0] == '-' || t[0] == '+' then sign == [t[0]] && body == t[1..] else sign == "" && body == t
  {
    if t[0] == '-' || t[0] == '+' {
      sign, body := [t[0]], t[1..];
      assert sign == "-" || sign == "+";
    } else {
      sign, body := "", t;
    }
  }

  /** and nothing else. */
  lemma SpellsNumber(s: string) returns (a: string, t: string, sign: string, body: string, b: string)
    requires ParseInt(s).Number?
    ensures s == a + t + b && AllOf(a, IsBlank) && AllOf(b, IsBlank) && Spelling(t, sign, body)
  {
    a, b := TrimSplits(s, IsBlank);
    t := Trim(s, IsBlank);
    sign, body := SignIs(t);
  }

  lemma ReadsPlain(s: string)
    requires Canonical(s)
    ensures ParseInt(s) == Number(Nat(s))
  {
    DigitsOfDigits(s);
    assert IsDigit(s[0]) && IsDigit(s[|s| - 1]);
    ReadsSpelling("", s, "", s, "");
    assert "" + s + "" == s;
  }

  lemma ReadsNegative(s: string)
    requires Canonical(s)
    ensures ParseInt("-" + s) == Number(0 - Nat(s))
  {
    DigitsOfDigits(s);
    assert IsDigit(s[0]) && IsDigit(s[|s| - 1]);
    ReadsSpelling("", "-" + s, "-", s, "");
    assert "" + ("-" + s) + "" == "-" + s;
  }

  lemma NumeralIsNumeral(n: int)
    ensures IsNumeral(Numeral(n))
  {
    if n < 0 {
      NatStr(-n);
      assert Numeral(n)[1..] == Str(-n);
    } else {
      NatStr(n);
    }
  }

  lemma ParseIntNumeral(n: int)
    ensures ParseInt(Numeral(n)) == Number(n)
  {
    if n < 0 {
      NatStr(-n);
      ReadsNegative(Str(-n));
    } else {
      NatStr(n);
      ReadsPlain(Str(n));
    }
  }

  lemma WrittenNumeral(s: string) returns (n: int)
    requires IsNumeral(s)
    ensures Numeral(n) == s
  {
    if Canonical(s) {
      n := Nat(s);
      StrNat(s);
    } else {
      n := 0 - Nat(s[1..]);
      StrNat(s[1..]);
      assert s == "-" + s[1..];
    }
  }

  /** `str` inverts `int` on the numerals `str` writes. */
  lemma NumeralParseInt(s: string)
    requires IsNumeral(s)
    ensures ParseInt(s).Number? && Numeral(ParseInt(s).value) == s
  {
    var n := WrittenNumeral(s);
    ParseIntNumeral(n);
  }

  // ----- task rounds

  /** `s.rsplit("_round", 1)` when the separator occurs: cut at its last occurrence. */
  function CutLast(s: string): Cut {
    var n := |s| - |ROUND_SEPARATOR|;
    if n < 0 then NoSeparator
    else if s[n..] == ROUND_SEPARATOR then Cut(s[..n], [])
    else
      match CutLast(s[..|s| - 1])
      case Cut(before, after) => Cut(before, after + [s[|s| - 1]])
      case NoSeparator => NoSeparator
  }

  lemma {:induction false} CutJoins(s: string)
    ensures CutLast(s).Cut? ==> s == CutLast(s).before + ROUND_SEPARATOR + CutLast(s).after
  {
    var n := |s| - |ROUND_SEPARATOR|;
    if n >= 0 {
      if s[n..] == ROUND_SEPARATOR {
        assert s == s[..n] + s[n..];
      } else {
        CutJoins(s[..|s| - 1]);
        assert s == s[..|s| - 1] + [s[|s| - 1]];
      }
    }
  }

  lemma CutSnoc(s: string, x: char)
    requires |s| >= |ROUND_SEPARATOR| && CutLast(s).Cut?
    requires (s + [x])[|s| + 1 - |ROUND_SEPARATOR|] != '_'
    ensures CutLast(s + [x]) == Cut(CutLast(s).before, CutLast(s).after + [x])
  {
    var t, n := s + [x], |s| + 1 - |ROUND_SEPARATOR|;
    assert t[n..][0] == t[n];
    assert t[..|t| - 1] == s;
  }

  /** The separator starts with its only underscore, so it cannot end inside `after`. */
  lemma NoLaterCut(front: string, after: string)
    requires '_' !in after && after != []
    ensures var s := front + ROUND_SEPARATOR + after; s[|s| - |ROUND_SEPARATOR|] != '_'
  {
    var s := front + ROUND_SEPARATOR + after;
    var n := |s| - |ROUND_SEPARATOR|;
    if |after| < |ROUND_SEPARATOR| {
      assert s[n] == ROUND_SEPARATOR[|after|];
    } else {
      assert s[n] == after[|after| - |ROUND_SEPARATOR|];
    }
  }

  lemma {:induction false} CutFinds(before: string, after: string)
    requires '_' !in after
    ensures CutLast(before + ROUND_SEPARATOR + after) == Cut(before, after)
  {
    var front := before + ROUND_SEPARATOR;
    if after == [] {
      assert front + after == front;
      assert front[|before|..] == ROUND_SEPARATOR && front[..|before|] == before;
    } else {
      var k := |after| - 1;
      CutFinds(before, after[..k]);
      NoLaterCut(before, after);
      assert front + after == (front + after[..k]) + [after[k]];
      assert after == after[..k] + [after[k]];
      CutSnoc(front + after[..k], after[k]);
    }
  }

  function TaskRoundStem(taskId: string, round: int): string {
    taskId + ROUND_SEPARATOR + Numeral(round)
  }

  function BuildTaskRoundFilename(taskId: string, round: int): string {
    TaskRoundStem(taskId, round) + ".md"
  }

  function ParseTaskRound(stem: string): (string, int) {
    match CutLast(stem)
    case NoSeparator => (stem, 0)
    case Cut(taskId, suffix) =>
      match ParseInt(suffix)
      case Number(round) => (taskId, round)
      case NotANumber => (stem, 0)
  }

  lemma NumeralHasNo(n: int, c: char)
    requires !IsDigit(c) && c != '-'
    ensures c !in Numeral(n)
  {
    NatStr(if n < 0 then -n else n);
    var digits := Str(if n < 0 then -n else n);
    assert c !in digits;
  }

  /** Whatever a task id contains, the parser recovers it and the round. */
  lemma ParseInvertsBuild(taskId: string, round: int)
    ensures ParseTaskRound(TaskRoundStem(taskId, round)) == (taskId, round)
  {
    NumeralHasNo(round, '_');
    CutFinds(taskId, Numeral(round));
    ParseIntNumeral(round);
  }

  /** The other direction holds exactly for the suffixes `str` writes: `t_round+2` parses
      as round 2 and is rebuilt as `t_round2`. */
  lemma BuildInvertsParseIff(stem: string)
    ensures var parsed := ParseTaskRound(stem);
            TaskRoundStem(parsed.0, parsed.1) == stem
            <==> CutLast(stem).Cut? && IsNumeral(CutLast(stem).after)
  {
    CutJoins(stem);
    var parsed := ParseTaskRound(stem);
    match CutLast(stem)
    case NoSeparator =>
    case Cut(taskId, suffix) =>
      if IsNumeral(suffix) {
        NumeralParseInt(suffix);
      } else if ParseInt(suffix).Number? {
        NumeralIsNumeral(parsed.1);
        SameTail(taskId + ROUND_SEPARATOR, suffix, Numeral(parsed.1));
      }
  }

  lemma SameTail(front: string, a: string, b: string)
    ensures front + a == front + b <==> a == b
  {
    if front + a == front + b {
      assert (front + a)[|front|..] == a && (front + b)[|front|..] == b;
    }
  }

  lemma PlusTwo()
    ensures ParseInt("+2") == Number(2)
  {
    ReadsSpelling("", "+2", "+", "2", "");
    DigitsOfDigits("2");
    assert "" + "+2" + "" == "+2" && "2"[..0] == "";
  }

  lemma SignedSuffixIsRewritten()
    ensures ParseTaskRound("t" + ROUND_SEPARATOR + "+2") == ("t", 2)
    ensures TaskRoundStem("t", 2) == "t" + ROUND_SEPARATOR + "2"
  {
    CutFinds("t", "+2");
    PlusTwo();
  }

  lemma FilenameDetermines(taskId: string, round: int, taskId': string, round': int)
    ensures BuildTaskRoundFilename(taskId, round) == BuildTaskRoundFilename(taskId', round')
            <==> taskId == taskId' && round == round'
  {
    ParseInvertsBuild(taskId, round);
    ParseInvertsBuild(taskId', round');
    var a, b := TaskRoundStem(taskId, round), TaskRoundStem(taskId', round');
    if a + ".md" == b + ".md" {
      assert (a + ".md")[..|a|] == a && (b + ".md")[..|b|] == b;
    }
  }

  // ----- audit directories

  function BuildReviewAuditDirectoryName(audit: int): string {
    REVIEW_AUDIT_DIRECTORY_PREFIX + Numeral(audit)
  }

  function ParseAuditRound(name: string): int {
    if !(REVIEW_AUDIT_DIRECTORY_PREFIX <= name) then 0
    else
      match ParseInt(name[|REVIEW_AUDIT_DIRECTORY_PREFIX|..])
      case Number(audit) => audit
      case NotANumber => 0
  }

  lemma ParseInvertsBuildAudit(audit: int)
    ensures ParseAuditRound(BuildReviewAuditDirectoryName(audit)) == audit
  {
    ParseIntNumeral(audit);
    assert BuildReviewAuditDirectoryName(audit)[|REVIEW_AUDIT_DIRECTORY_PREFIX|..] == Numeral(audit);
  }

  lemma BuildInvertsParseAuditIff(name: string)
    ensures BuildReviewAuditDirectoryName(ParseAuditRound(name)) == name
            <==> REVIEW_AUDIT_DIRECTORY_PREFIX <= name && IsNumeral(name[|REVIEW_AUDIT_DIRECTORY_PREFIX|..])
  {
    if REVIEW_AUDIT_DIRECTORY_PREFIX <= name {
      var suffix := name[|REVIEW_AUDIT_DIRECTORY_PREFIX|..];
      assert name == REVIEW_AUDIT_DIRECTORY_PREFIX + suffix;
      var audit := ParseAuditRound(name);
      NumeralIsNumeral(audit);
      SameTail(REVIEW_AUDIT_DIRECTORY_PREFIX, suffix, Numeral(audit));
      if IsNumeral(suffix) {
        NumeralParseInt(suffix);
      }
    }
  }
}
