/** JSON values, typed paths into them, and how pointers resolve. */
module JsonTree {
  import opened Results
  import opened Text
  import opened JsonPointer

  datatype Atom = Null | Truth(b: bool) | Number(n: real) | Words(s: string)

  datatype Json = Scalar(atom: Atom) | List(items: seq<Json>) | Dict(fields: map<string, Json>)

  /** `JsonPathSegment`: a key or an array index. */
  datatype Segment = Key(name: string) | Index(at: nat)

  type Path = seq<Segment>

  function SegmentText(segment: Segment): string {
    match segment
    case Key(name) => name
    case Index(at) => Str(at)
  }

  function PathText(path: Path): (r: seq<string>)
    ensures |r| == |path|
  {
    if path == [] then [] else PathText(path[..|path| - 1]) + [SegmentText(path[|path| - 1])]
  }

  lemma LastText(path: Path, n: nat)
    requires |path| == n + 1
    ensures PathText(path)[..n] == PathText(path[..n]) && PathText(path)[n] == SegmentText(path[n])
    ensures path == path[..n] + [path[n]]
  {
    var up, last := PathText(path[..n]), SegmentText(path[n]);
    assert PathText(path) == up + [last];
    assert (up + [last])[..n] == up;
  }

  /** `json_pointer(path)` */
  function Pointer(path: Path): string {
    Print(PathText(path))
  }

  // ----- looking down a path

  function Child(v: Json, segment: Segment): Option<Json> {
    match segment
    case Key(name) => if v.Dict? && name in v.fields then Some(v.fields[name]) else None
    case Index(at) => if v.List? && at < |v.items| then Some(v.items[at]) else None
  }

  function At(v: Json, path: Path): Option<Json> {
    if path == [] then Some(v)
    else
      var up := At(v, path[..|path| - 1]);
      if up.None? then None else Child(up.value, path[|path| - 1])
  }

  lemma AtStep(v: Json, path: Path, segment: Segment)
    ensures At(v, path + [segment]) == if At(v, path).None? then None else Child(At(v, path).value, segment)
  {
    assert (path + [segment])[..|path|] == path;
  }

  lemma {:induction false} AtPrefix(v: Json, path: Path, k: nat)
    requires At(v, path).Some? && k <= |path|
    ensures At(v, path[..k]).Some?
    decreases |path|
  {
    if k == |path| {
      assert path[..k] == path;
    } else {
      var up := path[..|path| - 1];
      AtPrefix(v, up, k);
      assert up[..k] == path[..k];
    }
  }

  /** Below one value, paths that read the same are the same. */
  lemma {:induction false} SameTextSamePath(v: Json, p: Path, q: Path)
    requires At(v, p).Some? && At(v, q).Some? && PathText(p) == PathText(q)
    ensures p == q
  {
    if p != [] {
      var n := |p| - 1;
      assert |q| == |PathText(q)| == n + 1;
      LastText(p, n);
      LastText(q, n);
      SameTextSamePath(v, p[..n], q[..n]);
      SameTextSameChild(At(v, p[..n]).value, p[n], q[n]);
    }
  }

  lemma SameTextSameChild(v: Json, a: Segment, b: Segment)
    requires Child(v, a).Some? && Child(v, b).Some? && SegmentText(a) == SegmentText(b)
    ensures a == b
  {
    if a.Index? && b.Index? {
      NatStr(a.at);
      NatStr(b.at);
    }
  }

  lemma SamePointerSamePath(v: Json, p: Path, q: Path)
    requires At(v, p).Some? && At(v, q).Some? && Pointer(p) == Pointer(q)
    ensures p == q
  {
    PrintInjective(PathText(p), PathText(q));
    SameTextSamePath(v, p, q);
  }

  // ----- resolving a parsed pointer

  /** One step of `_json_path_exists`: which child a segment's text names. */
  function Step(v: Json, text: string): Option<Segment> {
    match v
    case Dict(fields) => if text in fields then Some(Key(text)) else None
    case List(items) => if Canonical(text) && Nat(text) < |items| then Some(Index(Nat(text))) else None
    case Scalar(_) => None
  }

  /** The typed path a sequence of segment texts resolves to. */
  function Resolve(v: Json, texts: seq<string>): Option<Path> {
    if texts == [] then Some([])
    else
      var up := Resolve(v, texts[..|texts| - 1]);
      if up.None? || At(v, up.value).None? then None
      else
        var step := Step(At(v, up.value).value, texts[|texts| - 1]);
        if step.None? then None else Some(up.value + [step.value])
  }

  lemma StepFits(v: Json, text: string)
    requires Step(v, text).Some?
    ensures Child(v, Step(v, text).value).Some? && SegmentText(Step(v, text).value) == text
  {
    if v.List? {
      StrNat(text);
    }
  }

  /** One more segment resolves exactly if it names a child of what the others
      resolved to. */
  lemma ResolveNext(v: Json, texts: seq<string>, n: nat)
    requires |texts| == n + 1 && Resolve(v, texts[..n]).Some? && At(v, Resolve(v, texts[..n]).value).Some?
    ensures
      var up := Resolve(v, texts[..n]).value;
      var step := Step(At(v, up).value, texts[n]);
      && Resolve(v, texts) == (if step.None? then None else Some(up + [step.value]))
      && (step.Some? ==> At(v, up + [step.value]) == Child(At(v, up).value, step.value) &&
                         At(v, up + [step.value]).Some? && PathText(up + [step.value]) == PathText(up) + [texts[n]])
  {
    var up := Resolve(v, texts[..n]).value;
    var step := Step(At(v, up).value, texts[n]);
    if step.Some? {
      StepFits(At(v, up).value, texts[n]);
      AtStep(v, up, step.value);
      assert (up + [step.value])[..|up|] == up;
    }
  }

  /** What resolves, resolves to a path that reads exactly like the pointer. */
  lemma {:induction false} ResolveReads(v: Json, texts: seq<string>)
    requires Resolve(v, texts).Some?
    ensures At(v, Resolve(v, texts).value).Some? && PathText(Resolve(v, texts).value) == texts
  {
    if texts != [] {
      var n := |texts| - 1;
      ResolveReads(v, texts[..n]);
      ResolveNext(v, texts, n);
      assert texts == texts[..n] + [texts[n]];
    }
  }

  lemma StepComplete(v: Json, segment: Segment)
    requires Child(v, segment).Some?
    ensures Step(v, SegmentText(segment)) == Some(segment)
  {
    if segment.Index? {
      NatStr(segment.at);
    }
  }

  /** Conversely every path into the value resolves from its own text. */
  lemma {:induction false} ResolveComplete(v: Json, path: Path)
    requires At(v, path).Some?
    ensures Resolve(v, PathText(path)) == Some(path)
  {
    if path != [] {
      var n := |path| - 1;
      ResolveComplete(v, path[..n]);
      LastText(path, n);
      StepComplete(At(v, path[..n]).value, path[n]);
      ResolveNext(v, PathText(path), n);
    }
  }

  /** `_json_path_exists` */
  method JsonPathExists(v: Json, texts: seq<string>) returns (exists': bool)
    ensures exists' <==> Resolve(v, texts).Some?
  {
    var current := v;
    ghost var path: Path := [];
    for i := 0 to |texts|
      invariant Resolve(v, texts[..i]) == Some(path) && At(v, path) == Some(current)
    {
      var text := texts[i];
      assert texts[..i + 1][..i] == texts[..i];
      ResolveNext(v, texts[..i + 1], i);
      ResolvePrefix(v, texts, i + 1);
      ghost var step := Step(current, text);
      match current {
      case Dict(fields) =>
        if text !in fields {
          return false;
        }
        current := fields[text];
      case List(items) =>
        if !Canonical(text) {
          return false;
        }
        var index := Nat(text);
        if index >= |items| {
          return false;
        }
        current := items[index];
      case Scalar(_) =>
        return false;
      }
      path := path + [step.value];
    }
    assert texts[..|texts|] == texts;
    return true;
  }

  lemma {:induction false} ResolvePrefix(v: Json, texts: seq<string>, k: nat)
    requires k <= |texts|
    ensures Resolve(v, texts).Some? ==> Resolve(v, texts[..k]).Some?
    decreases |texts|
  {
    if k == |texts| {
      assert texts[..k] == texts;
    } else {
      var up := texts[..|texts| - 1];
      ResolvePrefix(v, up, k);
      assert up[..k] == texts[..k];
    }
  }

  // ----- accepted pointers

  /** The pointer is well formed and resolves to an option. */
  predicate Accepted(v: Json, pointer: string) {
    Parse(pointer).Ok? && Resolve(v, Parse(pointer).value).Some?
  }

  /** An accepted pointer is the printed form of the path it resolves to. */
  lemma AcceptedIsPrinted(v: Json, pointer: string) returns (path: Path)
    requires Accepted(v, pointer)
    ensures path != [] && At(v, path).Some? && Pointer(path) == pointer
  {
    var texts := Parse(pointer).value;
    path := Resolve(v, texts).value;
    PrintParse(pointer);
    ResolveReads(v, texts);
  }

  /** And the printed form of any path below the root is accepted. */
  lemma PrintedIsAccepted(v: Json, path: Path)
    requires path != [] && At(v, path).Some?
    ensures Accepted(v, Pointer(path)) && Resolve(v, Parse(Pointer(path)).value) == Some(path)
  {
    ParsePrint(PathText(path));
    ResolveComplete(v, path);
  }

  /** A pointer string extends another by a slash exactly if its path is below. */
  lemma DescendantIff(p: Path, q: Path)
    ensures Pointer(p) + "/" <= Pointer(q) <==> PathText(p) < PathText(q)
  {
    PrefixIff(PathText(p), PathText(q));
  }
}
