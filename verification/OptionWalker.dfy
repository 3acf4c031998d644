/**
  The sensitive-option walker of `contracts/integration_secrets.py`: finds the
  values that must not be shown, by explicit pointer or by name, and replaces each.
  Whether a name is sensitive is a parameter.
 */
module OptionWalker {
  import opened Results
  import opened JsonTree
  import opened KeyOrder

  datatype Policy = Policy(explicit: set<string>, sensitive: string -> bool)

  type Transform = Option<(string, Json) -> Json>

  // ----- when a value matches

  predicate SensitiveSegment(policy: Policy, segment: Segment) {
    segment.Key? && policy.sensitive(segment.name)
  }

  /** `_is_sensitive_name`, false at the root. */
  predicate NameSensitive(policy: Policy, path: Path) {
    path != [] && SensitiveSegment(policy, path[|path| - 1])
  }

  /** `_has_explicit_descendant` */
  predicate HasExplicitDescendant(policy: Policy, pointer: string) {
    exists c :: c in policy.explicit && pointer + "/" <= c
  }

  /** `_matches_sensitive_option` */
  predicate Matches(policy: Policy, v: Json, path: Path, inherited: bool) {
    || Pointer(path) in policy.explicit
    || (inherited && v.Scalar?)
    || (NameSensitive(policy, path) && (v.Scalar? || !HasExplicitDescendant(policy, Pointer(path))))
  }

  /** What the walk asks about a place: does it match, is it sensitively named,
      and how its path prints. */
  datatype Rule = Rule(matches: (Json, Path, bool) -> bool, named: Path -> bool, pointer: Path -> string)

  function RuleOf(policy: Policy): Rule {
    Rule((v, path, inherited) => Matches(policy, v, path, inherited), path => NameSensitive(policy, path), path => Pointer(path))
  }

  // ----- the walk, as functions

  /** The paths `walk` matches below `base`, in the order it meets them. */
  function WalkPaths(rule: Rule, v: Json, base: Path, inherited: bool): seq<Path>
    decreases v
  {
    if base != [] && rule.matches(v, base, inherited) then [base]
    else
      var down := inherited || rule.named(base);
      match v
      case Dict(fields) => WalkKeys(rule, v, SortedKeys(fields.Keys), base, down)
      case List(items) => WalkItems(rule, v, |items|, base, down)
      case Scalar(_) => []
  }

  function WalkKeys(rule: Rule, v: Json, keys: seq<string>, base: Path, down: bool): seq<Path>
    requires v.Dict? && forall k :: k in keys ==> k in v.fields
    decreases v, |keys|
  {
    if keys == [] then []
    else
      var n := |keys| - 1;
      WalkKeys(rule, v, keys[..n], base, down) + WalkPaths(rule, v.fields[keys[n]], base + [Key(keys[n])], down)
  }

  function WalkItems(rule: Rule, v: Json, n: nat, base: Path, down: bool): seq<Path>
    requires v.List? && n <= |v.items|
    decreases v, n
  {
    if n == 0 then []
    else
      WalkItems(rule, v, n - 1, base, down) + WalkPaths(rule, v.items[n - 1], base + [Index(n - 1)], down)
  }

  function Transformed(transform: Transform, pointer: string, v: Json): Json {
    if transform.Some? then transform.value(pointer, v) else v
  }

  /** The value `walk` returns. */
  function WalkValue(rule: Rule, transform: Transform, v: Json, base: Path, inherited: bool): Json
    decreases v
  {
    if base != [] && rule.matches(v, base, inherited) then Transformed(transform, rule.pointer(base), v)
    else
      var down := inherited || rule.named(base);
      match v
      case Dict(fields) => Dict(WalkFields(rule, transform, v, SortedKeys(fields.Keys), base, down))
      case List(items) => List(WalkElements(rule, transform, v, |items|, base, down))
      case Scalar(_) => v
  }

  function WalkFields(rule: Rule, transform: Transform, v: Json, keys: seq<string>, base: Path, down: bool): map<string, Json>
    requires v.Dict? && forall k :: k in keys ==> k in v.fields
    decreases v, |keys|
  {
    if keys == [] then map[]
    else
      var n := |keys| - 1;
      WalkFields(rule, transform, v, keys[..n], base, down)
        [keys[n] := WalkValue(rule, transform, v.fields[keys[n]], base + [Key(keys[n])], down)]
  }

  function WalkElements(rule: Rule, transform: Transform, v: Json, n: nat, base: Path, down: bool): (r: seq<Json>)
    requires v.List? && n <= |v.items|
    ensures |r| == n
    decreases v, n
  {
    if n == 0 then []
    else
      WalkElements(rule, transform, v, n - 1, base, down) +
      [WalkValue(rule, transform, v.items[n - 1], base + [Index(n - 1)], down)]
  }

  function Pointers(rule: Rule, paths: seq<Path>): (r: seq<string>)
    ensures |r| == |paths|
  {
    seq(|paths|, i requires 0 <= i < |paths| => rule.pointer(paths[i]))
  }

  lemma PointersAppend(rule: Rule, a: seq<Path>, b: seq<Path>)
    ensures Pointers(rule, a + b) == Pointers(rule, a) + Pointers(rule, b)
  {
  }

  lemma Associative<T>(a: seq<T>, b: seq<T>, c: seq<T>)
    ensures a + b + c == a + (b + c)
  {
  }

  lemma KeysNext(rule: Rule, transform: Transform, v: Json, keys: seq<string>, i: nat, base: Path, down: bool)
    requires v.Dict? && i < |keys| && forall k :: k in keys ==> k in v.fields
    ensures keys[i] in v.fields
    ensures WalkFields(rule, transform, v, keys[..i + 1], base, down) ==
            WalkFields(rule, transform, v, keys[..i], base, down)
              [keys[i] := WalkValue(rule, transform, v.fields[keys[i]], base + [Key(keys[i])], down)]
    ensures Pointers(rule, WalkKeys(rule, v, keys[..i + 1], base, down)) ==
            Pointers(rule, WalkKeys(rule, v, keys[..i], base, down)) +
            Pointers(rule, WalkPaths(rule, v.fields[keys[i]], base + [Key(keys[i])], down))
  {
    assert keys[i] in keys;
    assert keys[..i + 1][..i] == keys[..i];
    PointersAppend(rule, WalkKeys(rule, v, keys[..i], base, down),
                   WalkPaths(rule, v.fields[keys[i]], base + [Key(keys[i])], down));
  }

  lemma ItemsNext(rule: Rule, v: Json, i: nat, base: Path, down: bool)
    requires v.List? && i < |v.items|
    ensures Pointers(rule, WalkItems(rule, v, i + 1, base, down)) ==
            Pointers(rule, WalkItems(rule, v, i, base, down)) +
            Pointers(rule, WalkPaths(rule, v.items[i], base + [Index(i)], down))
  {
    PointersAppend(rule, WalkItems(rule, v, i, base, down), WalkPaths(rule, v.items[i], base + [Index(i)], down));
  }

  // ----- the walker object

  class SensitiveOptionWalker {
    const rule: Rule
    const transform: Transform
    var matchedPointers: seq<string>

    constructor (rule: Rule, transform: Transform)
      ensures this.rule == rule && this.transform == transform && matchedPointers == []
    {
      this.rule, this.transform, matchedPointers := rule, transform, [];
    }

    method Walk(v: Json, path: Path, inherited: bool) returns (r: Json)
      modifies this`matchedPointers
      ensures r == WalkValue(rule, transform, v, path, inherited)
      ensures matchedPointers == old(matchedPointers) + Pointers(rule, WalkPaths(rule, v, path, inherited))
      decreases v, 1
    {
      if path != [] && rule.matches(v, path, inherited) {
        matchedPointers := matchedPointers + [rule.pointer(path)];
        assert Pointers(rule, [path]) == [rule.pointer(path)];
        if transform.Some? {
          return transform.value(rule.pointer(path), v);
        }
        return v;
      }
      var down := inherited || rule.named(path);
      match v
      case Dict(_) =>
        var fields := WalkDict(v, SortedKeys(v.fields.Keys), path, down);
        r := Dict(fields);
      case List(_) =>
        var items := WalkList(v, path, down);
        r := List(items);
      case Scalar(_) => r := v;
    }

    /** The dictionary comprehension of `walk`, over the given keys. */
    method WalkDict(v: Json, keys: seq<string>, path: Path, down: bool) returns (fields: map<string, Json>)
      requires v.Dict? && forall k :: k in keys ==> k in v.fields
      modifies this`matchedPointers
      ensures fields == WalkFields(rule, transform, v, keys, path, down)
      ensures matchedPointers == old(matchedPointers) + Pointers(rule, WalkKeys(rule, v, keys, path, down))
      decreases v, 0
    {
      fields := map[];
      for i := 0 to |keys|
        invariant fields == WalkFields(rule, transform, v, keys[..i], path, down)
        invariant matchedPointers == old(matchedPointers) + Pointers(rule, WalkKeys(rule, v, keys[..i], path, down))
      {
        var k := keys[i];
        KeysNext(rule, transform, v, keys, i, path, down);
        ghost var before := Pointers(rule, WalkKeys(rule, v, keys[..i], path, down));
        ghost var here := Pointers(rule, WalkPaths(rule, v.fields[k], path + [Key(k)], down));
        var child := Walk(v.fields[k], path + [Key(k)], down);
        Associative(old(matchedPointers), before, here);
        fields := fields[k := child];
      }
      assert keys[..|keys|] == keys;
    }

    /** The list comprehension of `walk`. */
    method WalkList(v: Json, path: Path, down: bool) returns (items: seq<Json>)
      requires v.List?
      modifies this`matchedPointers
      ensures items == WalkElements(rule, transform, v, |v.items|, path, down)
      ensures matchedPointers == old(matchedPointers) + Pointers(rule, WalkItems(rule, v, |v.items|, path, down))
      decreases v, 0
    {
      items := [];
      for i := 0 to |v.items|
        invariant items == WalkElements(rule, transform, v, i, path, down)
        invariant matchedPointers == old(matchedPointers) + Pointers(rule, WalkItems(rule, v, i, path, down))
      {
        ItemsNext(rule, v, i, path, down);
        ghost var before := Pointers(rule, WalkItems(rule, v, i, path, down));
        ghost var here := Pointers(rule, WalkPaths(rule, v.items[i], path + [Index(i)], down));
        var child := Walk(v.items[i], path + [Index(i)], down);
        Associative(old(matchedPointers), before, here);
        items := items + [child];
      }
    }
  }
}
