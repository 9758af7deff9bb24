/** The orders in which the multi-stop planner tries its destinations: Python's
    `itertools.permutations` over the whole pool. For each position i in
    turn, the element at i comes first, followed by every ordering of the
    remaining elements; so the orders come out lexicographically by position,
    and the first one is the pool itself. */
module Perms {

  /** Every ordering of `s`, in the order `itertools.permutations(s)` yields them. */
  function Permutations<T>(s: seq<T>): seq<seq<T>>
    decreases |s|, 1, 0
  {
    if s == [] then [[]] else PermsFrom(s, 0)
  }

  /** The orderings of `s` whose first element comes from position i or later. */
  function PermsFrom<T>(s: seq<T>, i: nat): seq<seq<T>>
    requires i <= |s|
    decreases |s|, 0, |s| - i
  {
    if i == |s| then []
    else PrependAll(s[i], Permutations(Without(s, i))) + PermsFrom(s, i + 1)
  }

  /** `s` without its element at position i. */
  function Without<T>(s: seq<T>, i: nat): (r: seq<T>)
    requires i < |s|
    ensures |r| == |s| - 1
    ensures multiset(r) + multiset{s[i]} == multiset(s)
  {
    assert s == s[..i] + [s[i]] + s[i + 1..];
    s[..i] + s[i + 1..]
  }

  function PrependAll<T>(x: T, ps: seq<seq<T>>): (r: seq<seq<T>>)
    ensures |r| == |ps|
    ensures forall j :: 0 <= j < |ps| ==> r[j] == [x] + ps[j]
  {
    seq(|ps|, j requires 0 <= j < |ps| => [x] + ps[j])
  }

  function Factorial(n: nat): nat {
    if n == 0 then 1 else n * Factorial(n - 1)
  }

  /** Every order tried is a reordering of the pool. */
  lemma {:induction false} PermutationsAreReorderings<T>(s: seq<T>)
    ensures forall p :: p in Permutations(s) ==> multiset(p) == multiset(s)
    decreases |s|, 1, 0
  {
    if s != [] {
      PermsFromAreReorderings(s, 0);
    }
  }

  lemma {:induction false} PermsFromAreReorderings<T>(s: seq<T>, i: nat)
    requires i <= |s|
    ensures forall p :: p in PermsFrom(s, i) ==> multiset(p) == multiset(s)
    decreases |s|, 0, |s| - i
  {
    if i < |s| {
      var rest := Without(s, i);
      PermutationsAreReorderings(rest);
      PermsFromAreReorderings(s, i + 1);
      forall p | p in PrependAll(s[i], Permutations(rest))
        ensures multiset(p) == multiset(s)
      {
        var j :| 0 <= j < |Permutations(rest)| && p == PrependAll(s[i], Permutations(rest))[j];
        assert Permutations(rest)[j] in Permutations(rest);
      }
    }
  }

  /** Reorderings keep the length. */
  lemma PermutationLengths<T>(s: seq<T>)
    ensures forall p :: p in Permutations(s) ==> |p| == |s|
  {
    PermutationsAreReorderings(s);
    forall p | p in Permutations(s) ensures |p| == |s| {
      assert |multiset(p)| == |multiset(s)|;
    }
  }

  /** Every reordering of the pool is tried. */
  lemma {:induction false} PermutationsAreComplete<T>(s: seq<T>, p: seq<T>)
    requires multiset(p) == multiset(s)
    ensures p in Permutations(s)
    decreases |s|
  {
    if s == [] {
      assert |p| == |multiset(p)| == 0;
    } else {
      assert |p| == |multiset(p)| == |s|;
      assert p[0] in multiset(s) by {
        assert p == [p[0]] + p[1..];
      }
      var j :| 0 <= j < |s| && s[j] == p[0];
      var rest := Without(s, j);
      TailIsReordering(s, p, j);
      PermutationsAreComplete(rest, p[1..]);
      var k :| 0 <= k < |Permutations(rest)| && Permutations(rest)[k] == p[1..];
      assert PrependAll(s[j], Permutations(rest))[k] == p;
      PermsFromIncludes(s, 0, j, p);
    }
  }

  /** Taking the first element off a reordering, and its match off the pool,
      leaves a reordering. */
  lemma TailIsReordering<T>(s: seq<T>, p: seq<T>, j: nat)
    requires multiset(p) == multiset(s) && p != [] && j < |s| && s[j] == p[0]
    ensures multiset(p[1..]) == multiset(Without(s, j))
  {
    assert p == [p[0]] + p[1..];
    assert multiset(p) == multiset([p[0]]) + multiset(p[1..]);
    assert multiset(p[1..]) == multiset(p) - multiset{p[0]};
    assert multiset(Without(s, j)) == multiset(s) - multiset{s[j]};
  }

  /** What starts with the element at position j is among the orderings from any i <= j. */
  lemma {:induction false} PermsFromIncludes<T>(s: seq<T>, i: nat, j: nat, p: seq<T>)
    requires i <= j < |s|
    requires p in PrependAll(s[j], Permutations(Without(s, j)))
    ensures p in PermsFrom(s, i)
    decreases j - i
  {
    if i < j {
      PermsFromIncludes(s, i + 1, j, p);
    }
  }

  /** There are n! orderings of n elements, duplicates included. */
  lemma {:induction false} PermutationCount<T>(s: seq<T>)
    ensures |Permutations(s)| == Factorial(|s|)
    decreases |s|, 1, 0
  {
    if s != [] {
      PermsFromCount(s, 0);
    }
  }

  lemma {:induction false} PermsFromCount<T>(s: seq<T>, i: nat)
    requires i <= |s| && s != []
    ensures |PermsFrom(s, i)| == (|s| - i) * Factorial(|s| - 1)
    decreases |s|, 0, |s| - i
  {
    if i < |s| {
      var f := Factorial(|s| - 1);
      var rest := Without(s, i);
      PermutationCount(rest);
      PermsFromCount(s, i + 1);
      assert |PermsFrom(s, i)| == |Permutations(rest)| + |PermsFrom(s, i + 1)|;
      MulSucc(|s| - i, f);
    }
  }

  lemma MulSucc(n: nat, f: nat)
    requires 1 <= n
    ensures n * f == f + (n - 1) * f
  {
  }

  /** The first order tried is the pool as given. */
  lemma {:induction false} FirstPermutationIsIdentity<T>(s: seq<T>)
    ensures Permutations(s) != [] && Permutations(s)[0] == s
    decreases |s|
  {
    if s != [] {
      FirstPermutationIsIdentity(Without(s, 0));
      assert Without(s, 0) == s[1..];
      assert PermsFrom(s, 0)[0] == [s[0]] + s[1..];
    }
  }

  /** A single stop has one order. */
  lemma SingleOrder<T>(a: T)
    ensures Permutations([a]) == [[a]]
  {
    assert Without([a], 0) == [];
    var r := PrependAll(a, [[]]);
    assert r[0] == [a] + [] == [a];
    assert r == [[a]];
    assert PermsFrom([a], 0) == PrependAll(a, [[]]) + PermsFrom([a], 1);
  }

  /** Two stops are tried in both orders, the given one first. */
  lemma TwoOrders<T>(a: T, b: T)
    ensures Permutations([a, b]) == [[a, b], [b, a]]
  {
    var s := [a, b];
    SingleOrder(a);
    SingleOrder(b);
    assert Without(s, 0) == [b];
    assert Without(s, 1) == [a];
    PrependOne(a, b);
    PrependOne(b, a);
    assert PermsFrom(s, 2) == [];
    assert PermsFrom(s, 1) == PrependAll(b, [[a]]) + PermsFrom(s, 2);
    assert PermsFrom(s, 1) == [[b, a]];
    assert PermsFrom(s, 0) == PrependAll(a, [[b]]) + PermsFrom(s, 1);
  }

  lemma PrependOne<T>(x: T, y: T)
    ensures PrependAll(x, [[y]]) == [[x, y]]
  {
    var r := PrependAll(x, [[y]]);
    assert r[0] == [x] + [y] == [x, y];
  }
}
