/** Sequences without repetitions, subsequences, and the set of a sequence's members. */
module Collections {
  function Max(a: nat, b: nat): nat {
    if a >= b then a else b
  }

  function Members<T>(s: seq<T>): set<T> {
    set x | x in s
  }

  /** The members of `a` stand in `b` in the same order. */
  ghost predicate Subsequence<T>(a: seq<T>, b: seq<T>) {
    a == [] || (b != [] && (Subsequence(a, b[1..]) || (a[0] == b[0] && Subsequence(a[1..], b[1..]))))
  }

  lemma {:induction false} SubsequenceAppend<T>(a: seq<T>, b: seq<T>, x: T)
    requires Subsequence(a, b)
    ensures Subsequence(a, b + [x]) && Subsequence(a + [x], b + [x])
  {
    if b == [] {
      assert ([x] + [])[1..] == [];
      assert a + [x] == [x] && b + [x] == [x];
    } else {
      assert (b + [x])[1..] == b[1..] + [x];
      if Subsequence(a, b[1..]) {
        SubsequenceAppend(a, b[1..], x);
      } else if a != [] {
        SubsequenceAppend(a[1..], b[1..], x);
        assert (a + [x])[1..] == a[1..] + [x];
      }
    }
  }

  ghost predicate NoRepeats<T>(s: seq<T>) {
    forall i, j {:trigger Differ(s, i, j)} :: 0 <= i < j < |s| ==> Differ(s, i, j)
  }

  ghost predicate Differ<T>(s: seq<T>, i: int, j: int)
    requires 0 <= i < |s| && 0 <= j < |s|
  {
    s[i] != s[j]
  }

  lemma AllDiffer<T>(s: seq<T>)
    requires NoRepeats(s)
    ensures forall i, j :: 0 <= i < |s| && 0 <= j < |s| && s[i] == s[j] ==> i == j
  {
    forall i, j | 0 <= i < j < |s|
      ensures s[i] != s[j]
    {
      assert Differ(s, i, j);
    }
  }

  lemma NextOf<T>(s: seq<T>, k: nat)
    requires k < |s|
    ensures s[..k + 1] == s[..k] + [s[k]]
    ensures NoRepeats(s) ==> s[k] !in s[..k] && NoRepeats(s[..k])
  {
    if NoRepeats(s) {
      assert forall i :: 0 <= i < k ==> Differ(s, i, k) && s[i] == s[..k][i];
      forall i, j | 0 <= i < j < k
        ensures Differ(s[..k], i, j)
      {
        assert Differ(s, i, j);
      }
    }
  }

  lemma AppendNoRepeats<T>(s: seq<T>, x: T)
    requires NoRepeats(s) && x !in s
    ensures NoRepeats(s + [x])
  {
    ConcatNoRepeats(s, [x]);
  }

  lemma NoRepeatsTail<T>(s: seq<T>)
    requires NoRepeats(s) && s != []
    ensures NoRepeats(s[1..]) && s[0] !in s[1..]
  {
    assert forall i :: 1 <= i < |s| ==> Differ(s, 0, i) && s[i] == s[1..][i - 1];
    forall i, j | 0 <= i < j < |s[1..]|
      ensures Differ(s[1..], i, j)
    {
      assert Differ(s, i + 1, j + 1);
    }
  }

  lemma ConcatNoRepeats<T>(a: seq<T>, b: seq<T>)
    requires NoRepeats(a) && NoRepeats(b) && forall x :: x in a ==> x !in b
    ensures NoRepeats(a + b)
  {
    var r := a + b;
    forall i, j | 0 <= i < j < |r|
      ensures Differ(r, i, j)
    {
      if j < |a| {
        assert Differ(a, i, j);
      } else if i >= |a| {
        assert Differ(b, i - |a|, j - |a|);
      } else {
        assert r[i] in a && r[j] in b;
      }
    }
  }

  lemma {:induction false} NoRepeatsBound<T>(p: seq<T>, s: set<T>)
    requires NoRepeats(p) && forall i :: 0 <= i < |p| ==> p[i] in s
    ensures |p| <= |s|
  {
    if p != [] {
      var n := |p| - 1;
      NextOf(p, n);
      assert forall i :: 0 <= i < n ==> p[..n][i] == p[i] && p[i] in p[..n];
      NoRepeatsBound(p[..n], s - {p[n]});
    }
  }
}
