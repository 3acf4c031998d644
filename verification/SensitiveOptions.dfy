/**
 * What the walk does under the policy of `contracts/integration_secrets.py`: which places are
 * secret, told on the paths alone, and that exactly the topmost secret places are reported
 * and transformed.
 */
module SensitiveOptions {
  import opened Results
  import opened JsonPointer
  import opened JsonTree
  import opened OptionWalker
  import opened WalkerLaws

  // ----- secret places

  /** An explicit pointer leads strictly below the place. */
  ghost predicate ExplicitBelow(policy: Policy, root: Json, p: Path) {
    exists q {:trigger At(root, q)} :: At(root, q).Some? && p < q && Pointer(q) in policy.explicit
  }

  /** A place is secret by an explicit pointer; as a scalar, by a sensitive key anywhere on its
      path; as a mapping or list, by a sensitive key at its end, unless an explicit pointer
      names something below it. */
  ghost predicate Secret(policy: Policy, root: Json, p: Path) {
    && p != [] && At(root, p).Some?
    && (|| Pointer(p) in policy.explicit
        || (At(root, p).value.Scalar? && exists i :: 0 <= i < |p| && p[i].Key? && policy.sensitive(p[i].name))
        || (!At(root, p).value.Scalar? && p[|p| - 1].Key? && policy.sensitive(p[|p| - 1].name) && !ExplicitBelow(policy, root, p)))
  }

  /** A secret place with none above it. */
  ghost predicate TopSecret(policy: Policy, root: Json, p: Path) {
    Secret(policy, root, p) && forall k {:trigger p[..k]} :: 0 <= k < |p| ==> !Secret(policy, root, p[..k])
  }

  ghost predicate AllAccepted(policy: Policy, root: Json) {
    forall c :: c in policy.explicit ==> Accepted(root, c)
  }

  lemma InheritedIff(policy: Policy, p: Path)
    ensures Inherited(RuleOf(policy), p) <==> exists i :: 0 <= i < |p| - 1 && p[i].Key? && policy.sensitive(p[i].name)
  {
    if Inherited(RuleOf(policy), p) {
      var k :| 0 <= k < |p| && RuleOf(policy).named(p[..k]);
      assert p[..k][k - 1] == p[k - 1];
      assert p[k - 1].Key? && policy.sensitive(p[k - 1].name);
    }
    if i :| 0 <= i < |p| - 1 && p[i].Key? && policy.sensitive(p[i].name) {
      assert p[..i + 1][i] == p[i];
      assert RuleOf(policy).named(p[..i + 1]);
    }
  }

  lemma NamedIff(policy: Policy, p: Path)
    requires p != []
    ensures NameSensitive(policy, p) <==> p[|p| - 1].Key? && policy.sensitive(p[|p| - 1].name)
    ensures Inherited(RuleOf(policy), p) || NameSensitive(policy, p)
            <==> exists i :: 0 <= i < |p| && p[i].Key? && policy.sensitive(p[i].name)
  {
    InheritedIff(policy, p);
    if i :| 0 <= i < |p| && p[i].Key? && policy.sensitive(p[i].name) {
      assert i < |p| - 1 || p[i] == p[|p| - 1];
    }
  }

  /** The walker's test is met at exactly the secret places. */
  lemma MatchesIffSecret(policy: Policy, root: Json, p: Path)
    requires AllAccepted(policy, root)
    ensures MatchesAt(RuleOf(policy), root, p) <==> Secret(policy, root, p)
  {
    if p != [] && At(root, p).Some? {
      NamedIff(policy, p);
      DescendantIsBelow(policy, root, p);
    }
  }

  /** The walk finds exactly the topmost secret places. */
  lemma FoundIsTopSecret(policy: Policy, root: Json, p: Path)
    requires AllAccepted(policy, root)
    ensures p in Found(RuleOf(policy), root) <==> TopSecret(policy, root, p)
  {
    FoundExactly(RuleOf(policy), root, p);
    MatchesIffSecret(policy, root, p);
    forall k | 0 <= k < |p|
      ensures MatchesAt(RuleOf(policy), root, p[..k]) <==> Secret(policy, root, p[..k])
    {
      MatchesIffSecret(policy, root, p[..k]);
    }
  }

  /** Every secret place is found or lies below one that is. */
  lemma SecretIsCovered(policy: Policy, root: Json, p: Path) returns (q: Path)
    requires AllAccepted(policy, root) && Secret(policy, root, p)
    ensures q <= p && q in Found(RuleOf(policy), root)
  {
    MatchesIffSecret(policy, root, p);
    q := SomeFirstMatch(RuleOf(policy), root, p);
    FoundExactly(RuleOf(policy), root, q);
  }

  /** A mapping or list under a sensitive key is covered, unless an explicit pointer leads below it. */
  lemma SensitiveContainerIsCovered(policy: Policy, root: Json, p: Path) returns (q: Path)
    requires AllAccepted(policy, root) && At(root, p).Some? && !At(root, p).value.Scalar?
    requires p != [] && p[|p| - 1].Key? && policy.sensitive(p[|p| - 1].name)
    requires forall r {:trigger At(root, r)} :: At(root, r).Some? && p < r ==> Pointer(r) !in policy.explicit
    ensures q <= p && q in Found(RuleOf(policy), root)
  {
    q := SecretIsCovered(policy, root, p);
  }

  /** One that is not named explicitly is itself found only for its own sensitive name, and not
      if an explicit pointer leads below it. */
  lemma OtherContainerIsKept(policy: Policy, root: Json, p: Path)
    requires AllAccepted(policy, root) && At(root, p).Some? && !At(root, p).value.Scalar?
    requires Pointer(p) !in policy.explicit
    requires p == [] || !(p[|p| - 1].Key? && policy.sensitive(p[|p| - 1].name))
             || exists q {:trigger At(root, q)} :: At(root, q).Some? && p < q && Pointer(q) in policy.explicit
    ensures p !in Found(RuleOf(policy), root)
  {
    FoundIsTopSecret(policy, root, p);
  }

  /** Every explicit pointer that was accepted is covered: the place it resolves
      to, or one above it, is found. */
  lemma ExplicitIsCovered(policy: Policy, root: Json, pointer: string) returns (p: Path, q: Path)
    requires pointer in policy.explicit && Accepted(root, pointer)
    ensures At(root, p).Some? && Pointer(p) == pointer && q <= p && q in Found(RuleOf(policy), root)
  {
    p := AcceptedIsPrinted(root, pointer);
    assert MatchesAt(RuleOf(policy), root, p);
    q := SomeFirstMatch(RuleOf(policy), root, p);
    FoundExactly(RuleOf(policy), root, q);
  }

  /** Every scalar at or below a sensitively named key is covered. */
  lemma SensitiveScalarIsCovered(policy: Policy, root: Json, p: Path, i: nat) returns (q: Path)
    requires At(root, p).Some? && At(root, p).value.Scalar?
    requires i < |p| && p[i].Key? && policy.sensitive(p[i].name)
    ensures q <= p && q in Found(RuleOf(policy), root)
  {
    NamedIff(policy, p);
    assert MatchesAt(RuleOf(policy), root, p);
    q := SomeFirstMatch(RuleOf(policy), root, p);
    FoundExactly(RuleOf(policy), root, q);
  }

  /** Nothing is found without a reason: an explicit pointer, or a sensitive key at
      or above it. */
  lemma FoundHasReason(policy: Policy, root: Json, p: Path)
    requires p in Found(RuleOf(policy), root)
    ensures p != [] && At(root, p).Some?
    ensures Pointer(p) in policy.explicit || exists i :: 0 <= i < |p| && p[i].Key? && policy.sensitive(p[i].name)
  {
    FoundExactly(RuleOf(policy), root, p);
    NamedIff(policy, p);
  }

  /** A sensitively named container is left in place only for the sake of an
      explicit pointer strictly below it: the string test and the path agree. */
  lemma DescendantIsBelow(policy: Policy, root: Json, p: Path)
    requires At(root, p).Some? && forall c :: c in policy.explicit ==> Accepted(root, c)
    ensures HasExplicitDescendant(policy, Pointer(p)) <==> ExplicitBelow(policy, root, p)
  {
    if HasExplicitDescendant(policy, Pointer(p)) {
      var c :| c in policy.explicit && Pointer(p) + "/" <= c;
      var q := AcceptedIsPrinted(root, c);
      DescendantIff(p, q);
      TextPrefixIsPathPrefix(root, p, q);
      assert At(root, q).Some?;
    }
    if q :| At(root, q).Some? && Pointer(q) in policy.explicit && p < q {
      DescendantIff(p, q);
      TextPrefixIsPathPrefix(root, p, q);
    }
  }

  lemma {:induction false} TextOfPrefix(q: Path, k: nat)
    requires k <= |q|
    ensures PathText(q[..k]) == PathText(q)[..k]
    decreases |q|
  {
    if k < |q| {
      var n := |q| - 1;
      LastText(q, n);
      TextOfPrefix(q[..n], k);
      assert q[..n][..k] == q[..k];
      assert PathText(q)[..n][..k] == PathText(q)[..k];
    } else {
      assert q[..k] == q;
    }
  }

  lemma TextPrefixIsPathPrefix(root: Json, p: Path, q: Path)
    requires At(root, p).Some? && At(root, q).Some?
    ensures PathText(p) < PathText(q) <==> p < q
  {
    if PathText(p) < PathText(q) {
      TextOfPrefix(q, |p|);
      AtPrefix(root, q, |p|);
      assert PathText(q)[..|p|] == PathText(p);
      SameTextSamePath(root, p, q[..|p|]);
    }
    if p < q {
      TextOfPrefix(q, |p|);
      assert q[..|p|] == p;
    }
  }

  // ----- what is reported

  /** The reported pointers are pairwise different, and none extends another. */
  lemma ReportedPointersApart(policy: Policy, root: Json, i: nat, j: nat)
    requires i < |Found(RuleOf(policy), root)| && j < |Found(RuleOf(policy), root)| && i != j
    ensures
      var reported := Pointers(RuleOf(policy), Found(RuleOf(policy), root));
      reported[i] != reported[j] && !(reported[i] + "/" <= reported[j])
  {
    var found := Found(RuleOf(policy), root);
    var p, q := found[i], found[j];
    FoundInOrder(RuleOf(policy), root, if i < j then i else j, if i < j then j else i);
    assert p in found && q in found;
    FoundExactly(RuleOf(policy), root, p);
    FoundExactly(RuleOf(policy), root, q);
    if Pointer(p) == Pointer(q) {
      SamePointerSamePath(root, p, q);
    }
    DescendantIff(p, q);
    TextPrefixIsPathPrefix(root, p, q);
  }

  /** The pointer of a place is reported exactly if the place is a topmost secret one. */
  lemma ReportedIff(policy: Policy, root: Json, p: Path)
    requires AllAccepted(policy, root) && At(root, p).Some?
    ensures Pointer(p) in Pointers(RuleOf(policy), Found(RuleOf(policy), root)) <==> TopSecret(policy, root, p)
  {
    var found := Found(RuleOf(policy), root);
    FoundIsTopSecret(policy, root, p);
    if p in found {
      var i :| 0 <= i < |found| && found[i] == p;
      assert Pointers(RuleOf(policy), found)[i] == Pointer(p);
    }
    if Pointer(p) in Pointers(RuleOf(policy), found) {
      var i :| 0 <= i < |found| && Pointers(RuleOf(policy), found)[i] == Pointer(p);
      var q := found[i];
      assert q in found;
      FoundExactly(RuleOf(policy), root, q);
      SamePointerSamePath(root, p, q);
    }
  }

  ghost predicate ReportsTopSecrets(policy: Policy, root: Json, pointers: seq<string>) {
    forall p {:trigger Pointer(p)} ::
      At(root, p).Some? ==> (Pointer(p) in pointers <==> TopSecret(policy, root, p))
  }

  lemma AllReported(policy: Policy, root: Json)
    requires AllAccepted(policy, root)
    ensures ReportsTopSecrets(policy, root, Pointers(RuleOf(policy), Found(RuleOf(policy), root)))
  {
    var reported := Pointers(RuleOf(policy), Found(RuleOf(policy), root));
    forall p | At(root, p).Some?
      ensures Pointer(p) in reported <==> TopSecret(policy, root, p)
    {
      ReportedIff(policy, root, p);
    }
  }

  /** A topmost secret place is given to the transform with its pointer and holds the result. */
  lemma SecretIsTransformed(policy: Policy, change: (string, Json) -> Json, root: Json, p: Path)
    requires AllAccepted(policy, root) && TopSecret(policy, root, p)
    ensures At(WalkedTree(RuleOf(policy), Some(change), root), p) == Some(change(Pointer(p), At(root, p).value))
  {
    FoundIsTopSecret(policy, root, p);
    FoundIsTransformed(RuleOf(policy), Some(change), root, p);
  }

  /** `transform_sensitive_integration_options`: refuses a pointer that is malformed
      or resolves to nothing; otherwise returns the walked options, still a mapping,
      and the pointers found. */
  method TransformSensitiveIntegrationOptions(options: Json, pointers: set<string>, sensitive: string -> bool, transform: Transform)
    returns (r: Result<(Json, seq<string>)>)
    requires options.Dict?
    ensures r.Ok? <==> forall c :: c in pointers ==> Accepted(options, c)
    ensures r.Ok? ==>
      var rule := RuleOf(Policy(pointers, sensitive));
      && r.value.0 == WalkedTree(rule, transform, options) && r.value.0.Dict?
      && r.value.1 == Pointers(rule, Found(rule, options))
    ensures r.Ok? ==> ReportsTopSecrets(Policy(pointers, sensitive), options, r.value.1)
  {
    var todo := pointers;
    while todo != {}
      invariant todo <= pointers && forall c :: c in pointers - todo ==> Accepted(options, c)
    {
      var pointer :| pointer in todo;
      var parsed := Parse(pointer);
      if parsed.Error? {
        return Error(parsed.message);
      }
      var known := JsonPathExists(options, parsed.value);
      if !known {
        return Error("Canonical integration sensitive option JSON Pointer does not resolve to an option");
      }
      todo := todo - {pointer};
    }
    AllReported(Policy(pointers, sensitive), options);
    var walker := new SensitiveOptionWalker(RuleOf(Policy(pointers, sensitive)), transform);
    var transformed := walker.Walk(options, [], false);
    return Ok((transformed, walker.matchedPointers));
  }
}
