/** What the sensitive-option walk finds and what it changes, for every options
    tree and every rule. */
module WalkerLaws {
  import opened Results
  import opened JsonTree
  import opened KeyOrder
  import opened OptionWalker

  // ----- which places match, told without the walk

  /** Some place strictly above is sensitively named. */
  ghost predicate Inherited(rule: Rule, path: Path) {
    exists k {:trigger path[..k]} :: 0 <= k < |path| && rule.named(path[..k])
  }

  ghost predicate MatchesAt(rule: Rule, root: Json, path: Path) {
    path != [] && At(root, path).Some? && rule.matches(At(root, path).value, path, Inherited(rule, path))
  }

  ghost predicate NoneAbove(rule: Rule, root: Json, path: Path) {
    forall k {:trigger path[..k]} :: 0 <= k < |path| ==> !MatchesAt(rule, root, path[..k])
  }

  /** The place matches and no place above it does. */
  ghost predicate FirstMatch(rule: Rule, root: Json, path: Path) {
    MatchesAt(rule, root, path) && NoneAbove(rule, root, path)
  }

  lemma PrefixOfLonger(path: Path, segment: Segment, k: nat)
    requires k <= |path|
    ensures (path + [segment])[..k] == path[..k]
  {
  }

  lemma InheritedStep(rule: Rule, path: Path, segment: Segment)
    ensures Inherited(rule, path + [segment]) <==> Inherited(rule, path) || rule.named(path)
  {
    var longer := path + [segment];
    assert longer[..|path|] == path;
    forall k | 0 <= k < |path|
      ensures longer[..k] == path[..k]
    {
      PrefixOfLonger(path, segment, k);
    }
  }

  lemma NoneAboveStep(rule: Rule, root: Json, path: Path, segment: Segment)
    ensures NoneAbove(rule, root, path + [segment]) <==> NoneAbove(rule, root, path) && !MatchesAt(rule, root, path)
  {
    var longer := path + [segment];
    assert longer[..|path|] == path;
    forall k | 0 <= k < |path|
      ensures longer[..k] == path[..k]
    {
      PrefixOfLonger(path, segment, k);
    }
  }

  /** Some place at or above a matching one is a first match. */
  lemma {:induction false} SomeFirstMatch(rule: Rule, root: Json, path: Path) returns (q: Path)
    requires MatchesAt(rule, root, path)
    ensures q <= path && FirstMatch(rule, root, q)
  {
    if NoneAbove(rule, root, path) {
      q := path;
    } else {
      var k :| 0 <= k < |path| && MatchesAt(rule, root, path[..k]);
      q := SomeFirstMatch(rule, root, path[..k]);
    }
  }

  // ----- the walk finds exactly the first matches

  ghost predicate UnderKey(rule: Rule, v: Json, base: Path, down: bool, p: Path, k: string) {
    v.Dict? && k in v.fields && p in WalkPaths(rule, v.fields[k], base + [Key(k)], down)
  }

  lemma {:induction false} InKeys(rule: Rule, v: Json, keys: seq<string>, base: Path, down: bool, p: Path)
    requires v.Dict? && forall k :: k in keys ==> k in v.fields
    ensures p in WalkKeys(rule, v, keys, base, down) <==> exists k :: k in keys && UnderKey(rule, v, base, down, p, k)
  {
    if keys != [] {
      var n := |keys| - 1;
      InKeys(rule, v, keys[..n], base, down, p);
      assert forall k :: k in keys <==> k in keys[..n] || k == keys[n];
      assert UnderKey(rule, v, base, down, p, keys[n]) <==> p in WalkPaths(rule, v.fields[keys[n]], base + [Key(keys[n])], down);
    }
  }

  lemma {:induction false} InItems(rule: Rule, v: Json, n: nat, base: Path, down: bool, p: Path)
    requires v.List? && n <= |v.items|
    ensures p in WalkItems(rule, v, n, base, down) <==>
            exists i :: 0 <= i < n && p in WalkPaths(rule, v.items[i], base + [Index(i)], down)
  {
    if n > 0 {
      InItems(rule, v, n - 1, base, down, p);
    }
  }

  /** `p` is found below the child that `seg` names. */
  ghost predicate FoundUnder(rule: Rule, v: Json, base: Path, down: bool, p: Path, seg: Segment) {
    Child(v, seg).Some? && p in WalkPaths(rule, Child(v, seg).value, base + [seg], down)
  }

  lemma InDict(rule: Rule, v: Json, base: Path, down: bool, p: Path)
    requires v.Dict?
    ensures p in WalkKeys(rule, v, SortedKeys(v.fields.Keys), base, down) <==> exists seg :: FoundUnder(rule, v, base, down, p, seg)
  {
    var keys := SortedKeys(v.fields.Keys);
    InKeys(rule, v, keys, base, down, p);
    if k :| k in keys && UnderKey(rule, v, base, down, p, k) {
      assert FoundUnder(rule, v, base, down, p, Key(k));
    }
    if seg :| FoundUnder(rule, v, base, down, p, seg) {
      assert seg.name in keys && UnderKey(rule, v, base, down, p, seg.name);
    }
  }

  lemma InList(rule: Rule, v: Json, base: Path, down: bool, p: Path)
    requires v.List?
    ensures p in WalkItems(rule, v, |v.items|, base, down) <==> exists seg :: FoundUnder(rule, v, base, down, p, seg)
  {
    InItems(rule, v, |v.items|, base, down, p);
    if i :| 0 <= i < |v.items| && p in WalkPaths(rule, v.items[i], base + [Index(i)], down) {
      assert FoundUnder(rule, v, base, down, p, Index(i));
    }
    if seg :| FoundUnder(rule, v, base, down, p, seg) {
      assert 0 <= seg.at < |v.items|;
    }
  }

  /** `p` is found below `v` exactly if it is found below one of its children. */
  lemma InChildren(rule: Rule, v: Json, base: Path, inherited: bool, p: Path)
    requires base == [] || !rule.matches(v, base, inherited)
    ensures
      var down := inherited || rule.named(base);
      p in WalkPaths(rule, v, base, inherited) <==> exists seg :: FoundUnder(rule, v, base, down, p, seg)
  {
    var down := inherited || rule.named(base);
    match v
    case Dict(_) => InDict(rule, v, base, down, p);
    case List(_) => InList(rule, v, base, down, p);
    case Scalar(_) =>
  }

  lemma ChildSmaller(v: Json, seg: Segment)
    requires Child(v, seg).Some?
    ensures v decreases to Child(v, seg).value
  {
  }

  lemma {:induction false} WalkSound(rule: Rule, root: Json, v: Json, base: Path, p: Path)
    requires At(root, base) == Some(v) && NoneAbove(rule, root, base)
    requires p in WalkPaths(rule, v, base, Inherited(rule, base))
    ensures base <= p && FirstMatch(rule, root, p)
    decreases v
  {
    if base == [] || !rule.matches(v, base, Inherited(rule, base)) {
      InChildren(rule, v, base, Inherited(rule, base), p);
      var seg :| FoundUnder(rule, v, base, Inherited(rule, base) || rule.named(base), p, seg);
      InheritedStep(rule, base, seg);
      NoneAboveStep(rule, root, base, seg);
      AtStep(root, base, seg);
      ChildSmaller(v, seg);
      WalkSound(rule, root, Child(v, seg).value, base + [seg], p);
    }
  }

  lemma {:induction false} WalkComplete(rule: Rule, root: Json, v: Json, base: Path, p: Path)
    requires At(root, base) == Some(v) && base <= p && FirstMatch(rule, root, p)
    ensures p in WalkPaths(rule, v, base, Inherited(rule, base))
    decreases |p| - |base|
  {
    assert p[..|base|] == base;
    if |base| < |p| {
      assert !MatchesAt(rule, root, base);
      var seg := p[|base|];
      assert p[..|base| + 1] == base + [seg];
      AtPrefix(root, p, |base| + 1);
      AtStep(root, base, seg);
      InheritedStep(rule, base, seg);
      WalkComplete(rule, root, Child(v, seg).value, base + [seg], p);
      InChildren(rule, v, base, Inherited(rule, base), p);
      assert FoundUnder(rule, v, base, Inherited(rule, base) || rule.named(base), p, seg);
    } else {
      assert p == base;
      assert WalkPaths(rule, v, base, Inherited(rule, base)) == [base];
    }
  }

  /** The paths the walk matches, from the root. */
  function Found(rule: Rule, root: Json): seq<Path> {
    WalkPaths(rule, root, [], false)
  }

  /** The walk finds a path exactly if it is a first match. */
  lemma FoundExactly(rule: Rule, root: Json, p: Path)
    ensures p in Found(rule, root) <==> FirstMatch(rule, root, p)
  {
    if p in Found(rule, root) {
      WalkSound(rule, root, root, [], p);
    }
    if FirstMatch(rule, root, p) {
      WalkComplete(rule, root, root, [], p);
    }
  }

  // ----- in which order they are found

  predicate SegmentBefore(a: Segment, b: Segment) {
    || (a.Key? && b.Key? && a.name != b.name && Leq(a.name, b.name))
    || (a.Index? && b.Index? && a.at < b.at)
  }

  /** The two paths part at some segment, and the first goes to the earlier child there. */
  ghost predicate Precedes(p: Path, q: Path) {
    exists k {:trigger p[k]} :: 0 <= k < |p| && k < |q| && p[..k] == q[..k] && SegmentBefore(p[k], q[k])
  }

  ghost predicate PrecedesAt(paths: seq<Path>, i: nat, j: nat)
    requires i < |paths| && j < |paths|
  {
    Precedes(paths[i], paths[j])
  }

  ghost predicate InOrder(paths: seq<Path>) {
    forall i, j {:trigger PrecedesAt(paths, i, j)} :: 0 <= i < j < |paths| ==> PrecedesAt(paths, i, j)
  }

  ghost predicate AllPrecede(a: seq<Path>, b: seq<Path>) {
    forall p, q {:trigger Precedes(p, q)} :: p in a && q in b ==> Precedes(p, q)
  }

  lemma ConcatInOrder(a: seq<Path>, b: seq<Path>)
    requires InOrder(a) && InOrder(b) && AllPrecede(a, b)
    ensures InOrder(a + b)
  {
    var r := a + b;
    forall i, j | 0 <= i < j < |r|
      ensures PrecedesAt(r, i, j)
    {
      if j < |a| {
        assert PrecedesAt(a, i, j);
      } else if i >= |a| {
        assert PrecedesAt(b, i - |a|, j - |a|);
      } else {
        assert r[i] in a && r[j] in b;
        assert Precedes(r[i], r[j]);
      }
    }
  }

  lemma {:induction false} WalkedBelow(rule: Rule, v: Json, base: Path, inherited: bool, p: Path)
    requires p in WalkPaths(rule, v, base, inherited)
    ensures base <= p
    decreases v
  {
    if base == [] || !rule.matches(v, base, inherited) {
      InChildren(rule, v, base, inherited, p);
      var seg :| FoundUnder(rule, v, base, inherited || rule.named(base), p, seg);
      ChildSmaller(v, seg);
      WalkedBelow(rule, Child(v, seg).value, base + [seg], inherited || rule.named(base), p);
    }
  }

  lemma NextSegment(a: Path, s: Segment, p: Path)
    requires a + [s] <= p
    ensures |a| < |p| && p[|a|] == s && p[..|a|] == a
  {
    assert p[|a|] == (a + [s])[|a|];
    assert p[..|a|] == (a + [s])[..|a|];
  }

  /** What lies below an earlier child precedes what lies below a later one. */
  lemma BelowPrecedes(a: Path, s: Segment, t: Segment, p: Path, q: Path)
    requires a + [s] <= p && a + [t] <= q && SegmentBefore(s, t)
    ensures Precedes(p, q)
  {
    NextSegment(a, s, p);
    NextSegment(a, t, q);
    assert p[|a|] == s;
  }

  ghost predicate AscendAt(keys: seq<string>, i: nat, j: nat)
    requires i < |keys| && j < |keys|
  {
    keys[i] != keys[j] && Leq(keys[i], keys[j])
  }

  ghost predicate Ascend(keys: seq<string>) {
    forall i, j {:trigger AscendAt(keys, i, j)} :: 0 <= i < j < |keys| ==> AscendAt(keys, i, j)
  }

  lemma AscendPrefix(keys: seq<string>, n: nat)
    requires Ascend(keys) && n < |keys|
    ensures Ascend(keys[..n]) && forall k :: k in keys[..n] ==> SegmentBefore(Key(k), Key(keys[n]))
  {
    forall i, j | 0 <= i < j < n
      ensures AscendAt(keys[..n], i, j)
    {
      assert AscendAt(keys, i, j);
    }
    forall k | k in keys[..n]
      ensures SegmentBefore(Key(k), Key(keys[n]))
    {
      var i :| 0 <= i < n && keys[i] == k;
      assert AscendAt(keys, i, n);
    }
  }

  lemma {:induction false} KeysInOrder(rule: Rule, v: Json, keys: seq<string>, base: Path, down: bool)
    requires v.Dict? && Ascend(keys) && forall k :: k in keys ==> k in v.fields
    ensures InOrder(WalkKeys(rule, v, keys, base, down))
    decreases v, |keys|
  {
    if keys != [] {
      var n := |keys| - 1;
      var k := keys[n];
      AscendPrefix(keys, n);
      KeysInOrder(rule, v, keys[..n], base, down);
      WalkInOrder(rule, v.fields[k], base + [Key(k)], down);
      var before, here := WalkKeys(rule, v, keys[..n], base, down), WalkPaths(rule, v.fields[k], base + [Key(k)], down);
      forall p, q | p in before && q in here
        ensures Precedes(p, q)
      {
        InKeys(rule, v, keys[..n], base, down, p);
        var j :| j in keys[..n] && UnderKey(rule, v, base, down, p, j);
        WalkedBelow(rule, v.fields[j], base + [Key(j)], down, p);
        WalkedBelow(rule, v.fields[k], base + [Key(k)], down, q);
        BelowPrecedes(base, Key(j), Key(k), p, q);
      }
      ConcatInOrder(before, here);
    }
  }

  lemma {:induction false} ItemsInOrder(rule: Rule, v: Json, n: nat, base: Path, down: bool)
    requires v.List? && n <= |v.items|
    ensures InOrder(WalkItems(rule, v, n, base, down))
    decreases v, n
  {
    if n > 0 {
      ItemsInOrder(rule, v, n - 1, base, down);
      WalkInOrder(rule, v.items[n - 1], base + [Index(n - 1)], down);
      var before, here := WalkItems(rule, v, n - 1, base, down), WalkPaths(rule, v.items[n - 1], base + [Index(n - 1)], down);
      forall p, q | p in before && q in here
        ensures Precedes(p, q)
      {
        InItems(rule, v, n - 1, base, down, p);
        var j :| 0 <= j < n - 1 && p in WalkPaths(rule, v.items[j], base + [Index(j)], down);
        WalkedBelow(rule, v.items[j], base + [Index(j)], down, p);
        WalkedBelow(rule, v.items[n - 1], base + [Index(n - 1)], down, q);
        BelowPrecedes(base, Index(j), Index(n - 1), p, q);
      }
      ConcatInOrder(before, here);
    }
  }

  lemma SortedAscend(keys: set<string>)
    ensures Ascend(SortedKeys(keys))
  {
    var r := SortedKeys(keys);
    forall i, j | 0 <= i < j < |r|
      ensures AscendAt(r, i, j)
    {
      SortedKeysAscend(keys, i, j);
    }
  }

  lemma {:induction false} WalkInOrder(rule: Rule, v: Json, base: Path, inherited: bool)
    ensures InOrder(WalkPaths(rule, v, base, inherited))
    decreases v
  {
    if base == [] || !rule.matches(v, base, inherited) {
      var down := inherited || rule.named(base);
      match v
      case Dict(fields) =>
        SortedAscend(fields.Keys);
        KeysInOrder(rule, v, SortedKeys(fields.Keys), base, down);
      case List(items) => ItemsInOrder(rule, v, |items|, base, down);
      case Scalar(_) =>
    }
  }

  /** The places are found in the order of keys and indices, depth first; so each is found, and
      transformed, once and none lies below another. */
  lemma FoundInOrder(rule: Rule, root: Json, i: nat, j: nat)
    requires i < j < |Found(rule, root)|
    ensures var p, q := Found(rule, root)[i], Found(rule, root)[j]; Precedes(p, q) && !(p <= q) && !(q <= p)
  {
    WalkInOrder(rule, root, [], false);
    assert PrecedesAt(Found(rule, root), i, j);
    var p, q := Found(rule, root)[i], Found(rule, root)[j];
    var k :| 0 <= k < |p| && k < |q| && p[..k] == q[..k] && SegmentBefore(p[k], q[k]);
    assert p[k] != q[k];
  }

  // ----- what the walk changes

  lemma {:induction false} FieldsAt(rule: Rule, transform: Transform, v: Json, keys: seq<string>, base: Path, down: bool)
    requires v.Dict? && forall k :: k in keys ==> k in v.fields
    ensures forall k :: k in WalkFields(rule, transform, v, keys, base, down) <==> k in keys
    ensures forall k :: k in keys ==>
              WalkFields(rule, transform, v, keys, base, down)[k] == WalkValue(rule, transform, v.fields[k], base + [Key(k)], down)
  {
    if keys != [] {
      var n := |keys| - 1;
      FieldsAt(rule, transform, v, keys[..n], base, down);
      assert keys == keys[..n] + [keys[n]];
    }
  }

  lemma {:induction false} ElementsAt(rule: Rule, transform: Transform, v: Json, n: nat, base: Path, down: bool, i: nat)
    requires v.List? && i < n <= |v.items|
    ensures WalkElements(rule, transform, v, n, base, down)[i] == WalkValue(rule, transform, v.items[i], base + [Index(i)], down)
  {
    if i < n - 1 {
      ElementsAt(rule, transform, v, n - 1, base, down, i);
    }
  }

  /** Below a place that does not match, the walk goes child by child. */
  lemma WalkChild(rule: Rule, transform: Transform, v: Json, base: Path, inherited: bool, seg: Segment)
    requires base == [] || !rule.matches(v, base, inherited)
    ensures Child(WalkValue(rule, transform, v, base, inherited), seg) ==
            if Child(v, seg).None? then None
            else Some(WalkValue(rule, transform, Child(v, seg).value, base + [seg], inherited || rule.named(base)))
  {
    var down := inherited || rule.named(base);
    match v
    case Dict(fields) => FieldsAt(rule, transform, v, SortedKeys(fields.Keys), base, down);
    case List(items) => if seg.Index? && seg.at < |items| { ElementsAt(rule, transform, v, |items|, base, down, seg.at); }
    case Scalar(_) =>
  }

  /** The walked tree. */
  function WalkedTree(rule: Rule, transform: Transform, root: Json): Json {
    WalkValue(rule, transform, root, [], false)
  }

  /** Down to the first match on its way, every path leads in the walked tree to
      the walk of what it led to. */
  lemma {:induction false} WalkCommutes(rule: Rule, transform: Transform, root: Json, p: Path)
    requires NoneAbove(rule, root, p)
    ensures At(WalkedTree(rule, transform, root), p) ==
            if At(root, p).None? then None
            else Some(WalkValue(rule, transform, At(root, p).value, p, Inherited(rule, p)))
  {
    if p != [] {
      var up, seg := p[..|p| - 1], p[|p| - 1];
      assert p == up + [seg];
      NoneAboveStep(rule, root, up, seg);
      InheritedStep(rule, up, seg);
      WalkCommutes(rule, transform, root, up);
      AtStep(root, up, seg);
      AtStep(WalkedTree(rule, transform, root), up, seg);
      if At(root, up).Some? {
        WalkChild(rule, transform, At(root, up).value, up, Inherited(rule, up), seg);
      }
    }
  }

  /** A found place holds the transformed value. */
  lemma FoundIsTransformed(rule: Rule, transform: Transform, root: Json, p: Path)
    requires p in Found(rule, root)
    ensures At(root, p).Some?
    ensures transform.Some? ==> At(WalkedTree(rule, transform, root), p) == Some(transform.value(rule.pointer(p), At(root, p).value))
    ensures transform.None? ==> At(WalkedTree(rule, transform, root), p) == At(root, p)
  {
    FoundExactly(rule, root, p);
    WalkCommutes(rule, transform, root, p);
  }

  /** Same scalar, same keys, same length. */
  predicate SameShape(a: Json, b: Json) {
    match a
    case Scalar(_) => a == b
    case Dict(fields) => b.Dict? && b.fields.Keys == fields.Keys
    case List(items) => b.List? && |b.items| == |items|
  }

  /** A place neither found nor below a found one keeps its shape, and a path that
      led nowhere still does. */
  lemma UnfoundKeepsShape(rule: Rule, transform: Transform, root: Json, p: Path)
    requires forall q :: q in Found(rule, root) ==> !(q <= p)
    ensures At(root, p).None? <==> At(WalkedTree(rule, transform, root), p).None?
    ensures At(root, p).Some? ==> SameShape(At(root, p).value, At(WalkedTree(rule, transform, root), p).value)
  {
    NothingAbove(rule, root, p);
    WalkCommutes(rule, transform, root, p);
    if At(root, p).Some? {
      var v := At(root, p).value;
      if v.Dict? {
        FieldsAt(rule, transform, v, SortedKeys(v.fields.Keys), p, Inherited(rule, p) || rule.named(p));
      }
    }
  }

  lemma NothingAbove(rule: Rule, root: Json, p: Path)
    requires forall q :: q in Found(rule, root) ==> !(q <= p)
    ensures NoneAbove(rule, root, p) && !MatchesAt(rule, root, p)
  {
    if MatchesAt(rule, root, p) {
      var q := SomeFirstMatch(rule, root, p);
      FoundExactly(rule, root, q);
    }
    forall k | 0 <= k < |p|
      ensures !MatchesAt(rule, root, p[..k])
    {
      if MatchesAt(rule, root, p[..k]) {
        var q := SomeFirstMatch(rule, root, p[..k]);
        FoundExactly(rule, root, q);
      }
    }
  }

  /** The walk leaves the child that `seg` names as it was. */
  ghost predicate ChildKept(rule: Rule, transform: Transform, v: Json, base: Path, down: bool, seg: Segment) {
    Child(v, seg).Some? ==> WalkValue(rule, transform, Child(v, seg).value, base + [seg], down) == Child(v, seg).value
  }

  lemma DictKept(rule: Rule, transform: Transform, v: Json, base: Path, down: bool)
    requires v.Dict? && forall seg :: ChildKept(rule, transform, v, base, down, seg)
    ensures WalkFields(rule, transform, v, SortedKeys(v.fields.Keys), base, down) == v.fields
  {
    FieldsAt(rule, transform, v, SortedKeys(v.fields.Keys), base, down);
    forall k | k in v.fields
      ensures WalkValue(rule, transform, v.fields[k], base + [Key(k)], down) == v.fields[k]
    {
      assert ChildKept(rule, transform, v, base, down, Key(k));
    }
  }

  lemma ListKept(rule: Rule, transform: Transform, v: Json, base: Path, down: bool)
    requires v.List? && forall seg :: ChildKept(rule, transform, v, base, down, seg)
    ensures WalkElements(rule, transform, v, |v.items|, base, down) == v.items
  {
    forall i | 0 <= i < |v.items|
      ensures WalkElements(rule, transform, v, |v.items|, base, down)[i] == v.items[i]
    {
      ElementsAt(rule, transform, v, |v.items|, base, down, i);
      assert ChildKept(rule, transform, v, base, down, Index(i));
    }
  }

  lemma ValueKept(rule: Rule, transform: Transform, v: Json, base: Path, inherited: bool)
    requires base == [] || !rule.matches(v, base, inherited)
    requires
      var down := inherited || rule.named(base);
      forall seg :: ChildKept(rule, transform, v, base, down, seg)
    ensures WalkValue(rule, transform, v, base, inherited) == v
  {
    match v
    case Dict(_) => DictKept(rule, transform, v, base, inherited || rule.named(base));
    case List(_) => ListKept(rule, transform, v, base, inherited || rule.named(base));
    case Scalar(_) =>
  }

  /** Where the walk finds nothing it changes nothing. */
  lemma {:induction false} NothingFoundNothingChanged(rule: Rule, transform: Transform, v: Json, base: Path, inherited: bool)
    requires WalkPaths(rule, v, base, inherited) == []
    ensures WalkValue(rule, transform, v, base, inherited) == v
    decreases v
  {
    var down := inherited || rule.named(base);
    forall seg
      ensures ChildKept(rule, transform, v, base, down, seg)
    {
      if Child(v, seg).Some? {
        EmptyBelow(rule, v, base, inherited, seg);
        ChildSmaller(v, seg);
        NothingFoundNothingChanged(rule, transform, Child(v, seg).value, base + [seg], down);
      }
    }
    ValueKept(rule, transform, v, base, inherited);
  }

  lemma EmptyBelow(rule: Rule, v: Json, base: Path, inherited: bool, seg: Segment)
    requires WalkPaths(rule, v, base, inherited) == [] && Child(v, seg).Some?
    ensures WalkPaths(rule, Child(v, seg).value, base + [seg], inherited || rule.named(base)) == []
  {
    var below := WalkPaths(rule, Child(v, seg).value, base + [seg], inherited || rule.named(base));
    if below != [] {
      InChildren(rule, v, base, inherited, below[0]);
      assert FoundUnder(rule, v, base, inherited || rule.named(base), below[0], seg);
    }
  }

  /** Everything outside the found places is unchanged. */
  lemma OutsideUnchanged(rule: Rule, transform: Transform, root: Json, p: Path)
    requires forall q :: q in Found(rule, root) ==> !(q <= p) && !(p <= q)
    ensures At(WalkedTree(rule, transform, root), p) == At(root, p)
  {
    NothingAbove(rule, root, p);
    WalkCommutes(rule, transform, root, p);
    if At(root, p).Some? {
      var v := At(root, p).value;
      var below := WalkPaths(rule, v, p, Inherited(rule, p));
      if below != [] {
        WalkSound(rule, root, v, p, below[0]);
        FoundExactly(rule, root, below[0]);
      }
      NothingFoundNothingChanged(rule, transform, v, p, Inherited(rule, p));
    }
  }

  /** Without a transform the walk returns the tree as it was. */
  lemma {:induction false} NoTransformIsIdentity(rule: Rule, v: Json, base: Path, inherited: bool)
    ensures WalkValue(rule, None, v, base, inherited) == v
    decreases v
  {
    if base == [] || !rule.matches(v, base, inherited) {
      var down := inherited || rule.named(base);
      forall seg
        ensures ChildKept(rule, None, v, base, down, seg)
      {
        if Child(v, seg).Some? {
          ChildSmaller(v, seg);
          NoTransformIsIdentity(rule, Child(v, seg).value, base + [seg], down);
        }
      }
      ValueKept(rule, None, v, base, inherited);
    }
  }
}
