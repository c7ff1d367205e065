/** Sequences as sets, and sequences without an element. */
module Sequences {

  function Members<T(==)>(q: seq<T>): set<T> {
    set x | x in q
  }

  lemma NextMember<T>(q: seq<T>, i: nat)
    requires i < |q|
    ensures Members(q[i..]) == Members(q[i + 1..]) + {q[i]} && Members(q[..i + 1]) == Members(q[..i]) + {q[i]}
  {
    assert q[i..] == [q[i]] + q[i + 1..] && q[..i + 1] == q[..i] + [q[i]];
  }

  lemma NoMembers<T>(q: seq<T>)
    ensures q == [] <==> Members(q) == {}
  {
    if q != [] { assert q[0] in Members(q); }
  }

  function Without<T(==)>(q: seq<T>, x: T): seq<T> {
    if q == [] then [] else if q[0] == x then Without(q[1..], x) else [q[0]] + Without(q[1..], x)
  }

  lemma {:induction false} WithoutIsRest<T>(q: seq<T>, x: T)
    ensures forall y :: y in Without(q, x) <==> y in q && y != x
    ensures x !in q ==> Without(q, x) == q
  {
    if q != [] {
      WithoutIsRest(q[1..], x);
      assert q == [q[0]] + q[1..];
    }
  }

  lemma {:induction false} WithoutConcat<T>(a: seq<T>, b: seq<T>, x: T)
    ensures Without(a + b, x) == Without(a, x) + Without(b, x)
  {
    if a == [] {
      assert a + b == b;
    } else {
      assert (a + b)[1..] == a[1..] + b;
      WithoutConcat(a[1..], b, x);
    }
  }

  // The element goes as often as it occurs, and nothing else does.
  lemma {:induction false} WithoutAsMultiset<T>(q: seq<T>, x: T)
    ensures multiset(Without(q, x)) == multiset(q)[x := 0]
    ensures |Without(q, x)| == |q| - multiset(q)[x]
  {
    if q != [] {
      WithoutAsMultiset(q[1..], x);
      assert q == [q[0]] + q[1..];
      assert multiset(q) == multiset{q[0]} + multiset(q[1..]);
    }
  }
}
