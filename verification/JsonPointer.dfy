/**
  The JSON Pointer codec of `contracts/integration_secrets.py` (sections 3 and 4
  of RFC 6901): `~` is written `~0`, `/` is written `~1`.
 */
module JsonPointer {
  import opened Results
  import opened Text

  // ----- tokens

  /** `_encode_json_pointer_token` */
  function Encode(token: string): string {
    Replace(Replace(token, "~", "~0"), "/", "~1")
  }

  /** Every `~` is followed by `0` or `1`: the escape pattern finds nothing. */
  predicate ValidEscapes(token: string) {
    forall i {:trigger token[i]} :: 0 <= i < |token| && token[i] == '~' ==>
      i + 1 < |token| && (token[i + 1] == '0' || token[i + 1] == '1')
  }

  /** The two replacements of `_decode_json_pointer_token`. */
  function Decode(token: string): string {
    Replace(Replace(token, "~1", "/"), "~0", "~")
  }

  // One character at a time, in one pass, for reference.

  function Escape(token: string): string {
    if token == [] then []
    else (if token[0] == '~' then "~0" else if token[0] == '/' then "~1" else [token[0]]) + Escape(token[1..])
  }

  function Unescape(token: string): string {
    if token == [] then []
    else if token[0] == '~' && |token| > 1 then
      (if token[1] == '0' then "~" else if token[1] == '1' then "/" else token[..2]) + Unescape(token[2..])
    else [token[0]] + Unescape(token[1..])
  }

  /** The second replacement of `Encode`, one character at a time. */
  lemma SkipsOver(c: char, rest: string)
    ensures Replace([c] + rest, "/", "~1") == (if c == '/' then "~1" else [c]) + Replace(rest, "/", "~1")
  {
    var s := [c] + rest;
    assert s[0] == c && s[1..] == rest;
    assert "/" <= s <==> c == '/';
  }

  lemma {:induction false} EncodeIsEscape(token: string)
    ensures Encode(token) == Escape(token)
  {
    if token != [] {
      EncodeIsEscape(token[1..]);
      var rest := Replace(token[1..], "~", "~0");
      if token[0] == '~' {
        assert "~" <= token;
        assert "~0" + rest == ['~'] + (['0'] + rest);
        SkipsOver('~', ['0'] + rest);
        SkipsOver('0', rest);
        assert "~0" + Replace(rest, "/", "~1") == ['~'] + (['0'] + Replace(rest, "/", "~1"));
      } else {
        assert !("~" <= token);
        SkipsOver(token[0], rest);
      }
    }
  }

  lemma ValidTail(token: string, k: nat)
    requires ValidEscapes(token) && k <= |token|
    requires k > 0 ==> token[k - 1] != '~' || k == |token|
    ensures ValidEscapes(token[k..])
  {
    var tail := token[k..];
    forall i | 0 <= i < |tail| && tail[i] == '~'
      ensures i + 1 < |tail| && (tail[i + 1] == '0' || tail[i + 1] == '1')
    {
      assert token[k + i] == '~';
    }
  }

  /** On a valid token the two sequential replacements do not interfere. */
  lemma {:induction false} DecodeIsUnescape(token: string)
    requires ValidEscapes(token)
    ensures Decode(token) == Unescape(token)
  {
    if token != [] {
      if token[0] == '~' {
        ValidTail(token, 2);
        DecodeIsUnescape(token[2..]);
        var rest := Replace(token[2..], "~1", "/");
        if token[1] == '1' {
          assert "~1" <= token;
          var s := "/" + rest;
          assert s[1..] == rest;
        } else {
          assert token[1..][1..] == token[2..];
          assert Replace(token[1..], "~1", "/") == "0" + rest;
          var s := "~" + ("0" + rest);
          assert "~0" <= s && s[2..] == rest;
        }
      } else {
        ValidTail(token, 1);
        DecodeIsUnescape(token[1..]);
        var s := [token[0]] + Replace(token[1..], "~1", "/");
        assert s[1..] == Replace(token[1..], "~1", "/");
      }
    }
  }

  lemma {:induction false} EscapeShape(token: string)
    ensures ValidEscapes(Escape(token)) && '/' !in Escape(token)
  {
    if token != [] {
      EscapeShape(token[1..]);
      var rest := Escape(token[1..]);
      var head := if token[0] == '~' then "~0" else if token[0] == '/' then "~1" else [token[0]];
      forall i | 0 <= i < |head + rest| && (head + rest)[i] == '~'
        ensures i + 1 < |head + rest| && ((head + rest)[i + 1] == '0' || (head + rest)[i + 1] == '1')
      {
        if i >= |head| {
          assert rest[i - |head|] == '~';
        }
      }
    }
  }

  lemma {:induction false} UnescapeEscape(token: string)
    ensures Unescape(Escape(token)) == token
  {
    if token != [] {
      UnescapeEscape(token[1..]);
      var rest := Escape(token[1..]);
      if token[0] == '~' {
        assert ("~0" + rest)[2..] == rest;
      } else if token[0] == '/' {
        assert ("~1" + rest)[2..] == rest;
      } else {
        assert ([token[0]] + rest)[1..] == rest;
      }
    }
  }

  lemma {:induction false} EscapeUnescape(token: string)
    requires ValidEscapes(token) && '/' !in token
    ensures Escape(Unescape(token)) == token
  {
    if token != [] {
      if token[0] == '~' {
        ValidTail(token, 2);
        EscapeUnescape(token[2..]);
        var rest := Unescape(token[2..]);
        if token[1] == '0' {
          assert ("~" + rest)[1..] == rest;
        } else {
          assert ("/" + rest)[1..] == rest;
        }
        assert token[..2] + token[2..] == token;
      } else {
        ValidTail(token, 1);
        EscapeUnescape(token[1..]);
        assert ([token[0]] + Unescape(token[1..]))[1..] == Unescape(token[1..]);
      }
    }
  }

  /** Decoding undoes encoding on every token; an encoded token is valid and has
      no separator in it. */
  lemma DecodeEncode(token: string)
    ensures ValidEscapes(Encode(token)) && '/' !in Encode(token) && Decode(Encode(token)) == token
  {
    EncodeIsEscape(token);
    EscapeShape(token);
    DecodeIsUnescape(Escape(token));
    UnescapeEscape(token);
  }

  /** Encoding undoes decoding on every token the parser accepts. */
  lemma EncodeDecode(token: string)
    requires ValidEscapes(token) && '/' !in token
    ensures Encode(Decode(token)) == token
  {
    DecodeIsUnescape(token);
    EncodeIsEscape(Decode(token));
    EscapeUnescape(token);
  }

  // ----- pointers

  /** `json_pointer` over the segments' strings. */
  function Print(segments: seq<string>): string {
    if segments == [] then "" else "/" + Encode(segments[0]) + Print(segments[1..])
  }

  function DecodeAll(tokens: seq<string>): seq<string> {
    seq(|tokens|, i requires 0 <= i < |tokens| => Decode(tokens[i]))
  }

  function EncodeAll(segments: seq<string>): seq<string> {
    seq(|segments|, i requires 0 <= i < |segments| => Encode(segments[i]))
  }

  predicate AllValid(tokens: seq<string>) {
    forall i :: 0 <= i < |tokens| ==> ValidEscapes(tokens[i])
  }

  /** `parse_json_pointer` */
  function Parse(pointer: string): Result<seq<string>> {
    if pointer == [] || pointer[0] != '/' then Error("Canonical integration sensitive option JSON Pointer must start with '/'")
    else if !AllValid(Split(pointer[1..])) then Error("'~' must be followed by '0' or '1'")
    else Ok(DecodeAll(Split(pointer[1..])))
  }

  lemma {:induction false} PrintIsJoin(segments: seq<string>)
    requires segments != []
    ensures Print(segments) == "/" + Join(EncodeAll(segments))
  {
    var all, rest := EncodeAll(segments), segments[1..];
    assert all[0] == Encode(segments[0]) && all[1..] == EncodeAll(rest);
    if rest == [] {
      assert Print(rest) == "" && |all| == 1;
      assert "/" + all[0] + "" == "/" + all[0];
    } else {
      PrintIsJoin(rest);
      assert "/" + all[0] + ("/" + Join(all[1..])) == "/" + (all[0] + "/" + Join(all[1..]));
    }
  }

  /** Parsing inverts printing for every nonempty path; the root is refused. */
  lemma ParsePrint(segments: seq<string>)
    ensures segments != [] ==> Parse(Print(segments)) == Ok(segments)
    ensures segments == [] ==> Parse(Print(segments)).Error?
  {
    if segments != [] {
      var all := EncodeAll(segments);
      PrintIsJoin(segments);
      forall i | 0 <= i < |all|
        ensures ValidEscapes(all[i]) && '/' !in all[i] && Decode(all[i]) == segments[i]
      {
        DecodeEncode(segments[i]);
      }
      SplitJoin(all);
      assert Print(segments)[1..] == Join(all);
      assert DecodeAll(all) == segments;
    }
  }

  /** Printing inverts parsing on every accepted pointer. */
  lemma PrintParse(pointer: string)
    requires Parse(pointer).Ok?
    ensures Parse(pointer).value != [] && Print(Parse(pointer).value) == pointer
  {
    var tokens := Split(pointer[1..]);
    var segments := DecodeAll(tokens);
    PrintIsJoin(segments);
    forall i | 0 <= i < |tokens|
      ensures Encode(segments[i]) == tokens[i]
    {
      EncodeDecode(tokens[i]);
    }
    assert EncodeAll(segments) == tokens;
    JoinSplit(pointer[1..]);
    assert "/" + pointer[1..] == pointer;
  }

  lemma PrintInjective(a: seq<string>, b: seq<string>)
    requires Print(a) == Print(b)
    ensures a == b
  {
    ParsePrint(a);
    ParsePrint(b);
  }

  // ----- string prefix is path prefix

  lemma SlashBounds(e: string, x: string, f: string, y: string)
    requires '/' !in e && '/' !in f
    requires e + "/" + x <= f + y && (y == [] || y[0] == '/')
    ensures e == f && y != [] && "/" + x <= y
  {
    var left, right := e + "/" + x, f + y;
    assert left[|e|] == '/' && right[|e|] == '/';
    assert forall i :: 0 <= i < |f| ==> right[i] == f[i] && f[i] in f;
    assert forall i :: 0 <= i < |e| ==> left[i] == e[i] && e[i] in e;
    assert y != [] ==> right[|f|] == '/';
    assert |e| == |f|;
    assert left[..|e|] == e && right[..|e|] == f;
    assert left[|e|..] == "/" + x && right[|e|..] == y;
    forall i | 0 <= i < |"/" + x|
      ensures ("/" + x)[i] == y[i]
    {
      assert left[|e| + i] == right[|e| + i];
    }
  }

  /** "Pointer plus slash is a prefix" is exactly "is a proper ancestor". */
  lemma {:induction false} PrefixIff(a: seq<string>, b: seq<string>)
    ensures Print(a) + "/" <= Print(b) <==> a < b
  {
    if a == [] {
      assert Print(a) + "/" == "/";
    } else if b != [] {
      PrefixIff(a[1..], b[1..]);
      HeadsAndTails(a, b);
      DecodeEncode(a[0]);
      DecodeEncode(b[0]);
      var x, y := Print(a[1..]) + "/", Print(b[1..]);
      assert Print(a) + "/" == "/" + Encode(a[0]) + x;
      PrefixStep(Encode(a[0]), x, Encode(b[0]), y);
    }
  }

  lemma HeadsAndTails(a: seq<string>, b: seq<string>)
    requires a != [] && b != []
    ensures a < b <==> a[0] == b[0] && a[1..] < b[1..]
  {
    assert a == [a[0]] + a[1..] && b == [b[0]] + b[1..];
  }

  lemma PrefixStep(e: string, x: string, f: string, y: string)
    requires '/' !in e && '/' !in f && x != [] && x[0] == '/' && (y == [] || y[0] == '/')
    ensures "/" + e + x <= "/" + f + y <==> e == f && x <= y
  {
    if "/" + e + x <= "/" + f + y {
      assert x == "/" + x[1..];
      assert ("/" + e + x)[1..] == e + "/" + x[1..] && ("/" + f + y)[1..] == f + y;
      SlashBounds(e, x[1..], f, y);
    }
  }
}
