/** Sequences with the same elements, and what is computed from them element by element. */
module Permutations {

  function Mapped<A, B>(f: A -> B, a: seq<A>): (b: seq<B>)
    ensures |b| == |a|
  {
    if a == [] then [] else Mapped(f, a[..|a| - 1]) + [f(a[|a| - 1])]
  }

  lemma {:induction false} MappedAt<A, B>(f: A -> B, a: seq<A>, k: nat)
    requires k < |a|
    ensures Mapped(f, a)[k] == f(a[k])
  {
    if k < |a| - 1 {
      MappedAt(f, a[..|a| - 1], k);
    }
  }

  lemma {:induction false} MappedJoin<A, B>(f: A -> B, a: seq<A>, b: seq<A>)
    ensures Mapped(f, a + b) == Mapped(f, a) + Mapped(f, b)
  {
    if b == [] {
      assert a + b == a;
    } else {
      assert (a + b)[..|a + b| - 1] == a + b[..|b| - 1];
      MappedJoin(f, a, b[..|b| - 1]);
    }
  }

  /** A permutation with one element taken out at both ends of the comparison. */
  lemma TakeOut<A>(a: seq<A>, b: seq<A>) returns (k: nat)
    requires a != [] && multiset(a) == multiset(b)
    ensures k < |b| && b[k] == a[|a| - 1] && b == b[..k] + [b[k]] + b[k + 1..]
    ensures multiset(a[..|a| - 1]) == multiset(b[..k] + b[k + 1..])
  {
    var x := a[|a| - 1];
    assert a == a[..|a| - 1] + [x];
    assert x in multiset(b);
    k :| 0 <= k < |b| && b[k] == x;
    assert b == b[..k] + [x] + b[k + 1..];
    var m, n := multiset(a[..|a| - 1]), multiset(b[..k] + b[k + 1..]);
    assert multiset(a) == m + multiset{x};
    assert multiset(b) == n + multiset{x};
    assert m == m + multiset{x} - multiset{x} && n == n + multiset{x} - multiset{x};
  }

  lemma {:induction false} MappedPermutes<A, B>(f: A -> B, a: seq<A>, b: seq<A>)
    requires multiset(a) == multiset(b)
    ensures multiset(Mapped(f, a)) == multiset(Mapped(f, b))
    decreases |a|
  {
    if a == [] {
      assert b == [];
    } else {
      var k := TakeOut(a, b);
      MappedPermutes(f, a[..|a| - 1], b[..k] + b[k + 1..]);
      MappedJoin(f, b[..k], b[k + 1..]);
      MappedJoin(f, b[..k] + [b[k]], b[k + 1..]);
      MappedJoin(f, b[..k], [b[k]]);
      OneMapped(f, b[k]);
    }
  }

  lemma OneMapped<A, B>(f: A -> B, x: A)
    ensures Mapped(f, [x]) == [f(x)]
  {
    assert [x][..0] == [];
  }

  lemma SameElements<A>(a: seq<A>, b: seq<A>)
    requires multiset(a) == multiset(b)
    ensures forall x :: x in a <==> x in b
    ensures |a| == |b|
  {
    assert forall x :: x in a <==> x in multiset(a);
    assert forall x :: x in b <==> x in multiset(b);
    assert |multiset(a)| == |a| && |multiset(b)| == |b|;
  }

  predicate AllDifferent<A(==)>(a: seq<A>) {
    forall i, j :: 0 <= i < j < |a| ==> a[i] != a[j]
  }

  lemma {:induction false} DifferentIsOnce<A>(a: seq<A>)
    ensures AllDifferent(a) <==> forall x :: x in multiset(a) ==> multiset(a)[x] == 1
  {
    if a != [] {
      var before, last := a[..|a| - 1], a[|a| - 1];
      assert a == before + [last];
      DifferentIsOnce(before);
      assert last in before <==> last in multiset(before);
      if AllDifferent(before) && last !in before {
        assert AllDifferent(a);
      } else if last in before {
        var k :| 0 <= k < |before| && before[k] == last;
        assert a[k] == a[|a| - 1];
        assert multiset(a)[last] >= 2;
      } else {
        var x :| x in multiset(before) && multiset(before)[x] != 1;
        assert x in multiset(a) && multiset(a)[x] != 1;
        assert !AllDifferent(a) by {
          var i, j :| 0 <= i < j < |before| && before[i] == before[j];
          assert a[i] == a[j];
        }
      }
    }
  }

  lemma DifferentPermutes<A>(a: seq<A>, b: seq<A>)
    requires multiset(a) == multiset(b)
    ensures AllDifferent(a) <==> AllDifferent(b)
  {
    DifferentIsOnce(a);
    DifferentIsOnce(b);
  }
}
