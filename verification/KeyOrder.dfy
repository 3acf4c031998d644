/** Strings in code-point order: sorted keys and sorted lists. */
module KeyOrder {

  predicate Leq(a: string, b: string) {
    a == [] || (b != [] && (a[0] < b[0] || (a[0] == b[0] && Leq(a[1..], b[1..]))))
  }

  /** The two agree up to some place and the first has the smaller character there. */
  ghost predicate SmallerAt(a: string, b: string, k: nat) {
    k < |a| && k < |b| && a[..k] == b[..k] && a[k] < b[k]
  }

  /** The order is the lexicographic one of code points. */
  lemma {:induction false} LeqIff(a: string, b: string)
    ensures Leq(a, b) <==> a <= b || exists k: nat :: SmallerAt(a, b, k)
  {
    if a != [] && b != [] {
      LeqIff(a[1..], b[1..]);
      if a[0] == b[0] {
        assert a <= b <==> a[1..] <= b[1..] by { assert a == [a[0]] + a[1..] && b == [b[0]] + b[1..]; }
        if k: nat :| SmallerAt(a[1..], b[1..], k) {
          assert a[..k + 1] == [a[0]] + a[1..][..k] && b[..k + 1] == [b[0]] + b[1..][..k];
          assert SmallerAt(a, b, k + 1);
        }
        if k: nat :| SmallerAt(a, b, k) {
          assert k > 0;
          assert a[1..][..k - 1] == a[..k][1..] && b[1..][..k - 1] == b[..k][1..];
          assert SmallerAt(a[1..], b[1..], k - 1);
        }
      } else if a[0] < b[0] {
        assert SmallerAt(a, b, 0);
      }
    }
  }

  lemma {:induction false} LeqAntisymmetric(a: string, b: string)
    requires Leq(a, b) && Leq(b, a)
    ensures a == b
  {
    if a != [] && b != [] {
      LeqAntisymmetric(a[1..], b[1..]);
      assert a == [a[0]] + a[1..] && b == [b[0]] + b[1..];
    }
  }

  lemma {:induction false} LeqTotal(a: string, b: string)
    ensures Leq(a, b) || Leq(b, a)
  {
    if a != [] && b != [] {
      LeqTotal(a[1..], b[1..]);
    }
  }

  lemma {:induction false} LeqTransitive(a: string, b: string, c: string)
    requires Leq(a, b) && Leq(b, c)
    ensures Leq(a, c)
  {
    if a != [] && b != [] && c != [] && a[0] == b[0] && b[0] == c[0] {
      LeqTransitive(a[1..], b[1..], c[1..]);
    }
  }

  predicate IsLeast(k: string, keys: set<string>) {
    k in keys && forall j :: j in keys ==> Leq(k, j)
  }

  lemma {:induction false} LeastExists(keys: set<string>) returns (k: string)
    requires keys != {}
    ensures IsLeast(k, keys)
  {
    var x :| x in keys;
    LeqTotal(x, x);
    if keys == {x} {
      k := x;
    } else {
      var rest := keys - {x};
      assert rest != {} by {
        var y :| y in keys && y != x;
        assert y in rest;
      }
      var y := LeastExists(rest);
      LeqTotal(x, y);
      k := if Leq(x, y) then x else y;
      forall j | j in keys
        ensures Leq(k, j)
      {
        if j != x && k == x {
          LeqTransitive(x, y, j);
        }
      }
    }
  }

  lemma LeastUnique(keys: set<string>)
    ensures forall a, b :: IsLeast(a, keys) && IsLeast(b, keys) ==> a == b
  {
    forall a, b | IsLeast(a, keys) && IsLeast(b, keys)
      ensures a == b
    {
      LeqAntisymmetric(a, b);
    }
  }

  /** The keys in order, each once. */
  function SortedKeys(keys: set<string>): (r: seq<string>)
    ensures forall k :: k in r <==> k in keys
    decreases keys
  {
    if keys == {} then []
    else
      var k := LeastOf(keys);
      [k] + SortedKeys(keys - {k})
  }

  function LeastOf(keys: set<string>): (k: string)
    requires keys != {}
    ensures IsLeast(k, keys)
  {
    LeastUnique(keys);
    assert exists k :: IsLeast(k, keys) by {
      var k := LeastExists(keys);
    }
    var k :| IsLeast(k, keys);
    k
  }

  lemma {:induction false} SortedKeysAscend(keys: set<string>, i: nat, j: nat)
    requires i < j < |SortedKeys(keys)|
    ensures SortedKeys(keys)[i] != SortedKeys(keys)[j] && Leq(SortedKeys(keys)[i], SortedKeys(keys)[j])
    decreases keys
  {
    var k := LeastOf(keys);
    var rest := SortedKeys(keys - {k});
    if i == 0 {
      assert rest[j - 1] in rest;
    } else {
      SortedKeysAscend(keys - {k}, i - 1, j - 1);
    }
  }

  // ----- sorted lists, with repetitions

  function Insert(x: string, s: seq<string>): seq<string> {
    if s == [] || Leq(x, s[0]) then [x] + s else [s[0]] + Insert(x, s[1..])
  }

  /** `sorted(s)` */
  function Sorted(s: seq<string>): seq<string> {
    if s == [] then [] else Insert(s[0], Sorted(s[1..]))
  }

  ghost predicate LeastFirst(s: seq<string>) {
    s != [] ==> (forall x :: x in s ==> Leq(s[0], x)) && LeastFirst(s[1..])
  }

  lemma {:induction false} InsertCounts(x: string, s: seq<string>)
    ensures multiset(Insert(x, s)) == multiset([x] + s)
  {
    if s != [] && !Leq(x, s[0]) {
      InsertCounts(x, s[1..]);
      assert s == [s[0]] + s[1..];
      assert multiset([s[0]] + Insert(x, s[1..])) == multiset{s[0]} + multiset([x] + s[1..]);
    }
  }

  lemma InsertMember(x: string, s: seq<string>, y: string)
    ensures y in Insert(x, s) <==> y == x || y in s
  {
    InsertCounts(x, s);
    assert y in multiset(Insert(x, s)) <==> y in multiset([x] + s);
  }

  lemma {:induction false} InsertKeeps(x: string, s: seq<string>)
    requires LeastFirst(s)
    ensures LeastFirst(Insert(x, s))
  {
    LeqTotal(x, x);
    if s == [] {
      assert [x][1..] == [];
    } else if Leq(x, s[0]) {
      forall y | y in [x] + s ensures Leq(x, y) {
        if y != x {
          LeqTransitive(x, s[0], y);
        }
      }
      assert ([x] + s)[1..] == s;
    } else {
      var rest := Insert(x, s[1..]);
      InsertKeeps(x, s[1..]);
      LeqTotal(x, s[0]);
      forall y | y in [s[0]] + rest ensures Leq(s[0], y) {
        InsertMember(x, s[1..], y);
      }
      assert ([s[0]] + rest)[1..] == rest;
    }
  }

  lemma {:induction false} SortedKeeps(s: seq<string>)
    ensures LeastFirst(Sorted(s)) && multiset(Sorted(s)) == multiset(s)
  {
    if s != [] {
      SortedKeeps(s[1..]);
      InsertKeeps(s[0], Sorted(s[1..]));
      InsertCounts(s[0], Sorted(s[1..]));
      assert s == [s[0]] + s[1..];
    }
  }

  lemma SameHead(a: seq<string>, b: seq<string>)
    requires LeastFirst(a) && LeastFirst(b) && multiset(a) == multiset(b) && a != [] && b != []
    ensures a[0] == b[0]
  {
    assert a[0] in multiset(b) && b[0] in multiset(a);
    LeqAntisymmetric(a[0], b[0]);
  }

  lemma SameRest(x: string, a: seq<string>, b: seq<string>)
    requires multiset([x] + a) == multiset([x] + b)
    ensures multiset(a) == multiset(b)
  {
    assert multiset(a) == multiset([x] + a) - multiset{x};
    assert multiset(b) == multiset([x] + b) - multiset{x};
  }

  lemma {:induction false} OneOrder(a: seq<string>, b: seq<string>)
    requires LeastFirst(a) && LeastFirst(b) && multiset(a) == multiset(b)
    ensures a == b
  {
    assert |multiset(a)| == |a| && |multiset(b)| == |b|;
    if a != [] {
      SameHead(a, b);
      assert a == [a[0]] + a[1..] && b == [a[0]] + b[1..];
      SameRest(a[0], a[1..], b[1..]);
      OneOrder(a[1..], b[1..]);
    }
  }

  /** Two lists sort alike exactly when every string occurs equally often in both. */
  lemma SortedAlikeIff(a: seq<string>, b: seq<string>)
    ensures Sorted(a) == Sorted(b) <==> multiset(a) == multiset(b)
  {
    SortedKeeps(a);
    SortedKeeps(b);
    if multiset(a) == multiset(b) {
      OneOrder(Sorted(a), Sorted(b));
    }
  }
}
