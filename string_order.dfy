/**
 * The natural order of strings (String.compareTo) and the result of
 * Collections.sort on a list of strings under it.
 */
module StringOrder {

  /**
   * `a.compareTo(b) <= 0`: the first differing character decides, and a string
   * comes before every longer string it is a prefix of.
   */
  predicate AtMost(a: string, b: string)
    decreases |a|
  {
    a == [] || (b != [] && (a[0] < b[0] || (a[0] == b[0] && AtMost(a[1..], b[1..]))))
  }

  lemma {:induction false} AtMostReflexive(a: string)
    ensures AtMost(a, a)
    decreases |a|
  {
    if a != [] {
      AtMostReflexive(a[1..]);
    }
  }

  lemma {:induction false} AtMostTotal(a: string, b: string)
    ensures AtMost(a, b) || AtMost(b, a)
    decreases |a|
  {
    if a != [] && b != [] && a[0] == b[0] {
      AtMostTotal(a[1..], b[1..]);
    }
  }

  lemma {:induction false} AtMostAntisymmetric(a: string, b: string)
    requires AtMost(a, b) && AtMost(b, a)
    ensures a == b
    decreases |a|
  {
    if a != [] {
      AtMostAntisymmetric(a[1..], b[1..]);
      assert a == [a[0]] + a[1..];
      assert b == [b[0]] + b[1..];
    }
  }

  lemma {:induction false} AtMostTransitive(a: string, b: string, c: string)
    requires AtMost(a, b) && AtMost(b, c)
    ensures AtMost(a, c)
    decreases |a|
  {
    if a != [] && a[0] == b[0] && b[0] == c[0] {
      AtMostTransitive(a[1..], b[1..], c[1..]);
    }
  }

  predicate Sorted(xs: seq<string>)
  {
    forall i, j :: 0 <= i < j < |xs| ==> AtMost(xs[i], xs[j])
  }

  /** What comes no later than the head of a sorted list comes no later than all of it. */
  lemma AtMostAll(x: string, xs: seq<string>)
    requires Sorted(xs) && xs != [] && AtMost(x, xs[0])
    ensures forall j :: 0 <= j < |xs| ==> AtMost(x, xs[j])
  {
    forall j | 0 <= j < |xs|
      ensures AtMost(x, xs[j])
    {
      if j > 0 {
        AtMostTransitive(x, xs[0], xs[j]);
      }
    }
  }

  /** The head of a sorted list comes no later than its tail with `x` added, when it comes no later than `x`. */
  lemma HeadAtMostInserted(x: string, xs: seq<string>, rest: seq<string>)
    requires Sorted(xs) && xs != [] && AtMost(xs[0], x)
    requires multiset(rest) == multiset(xs[1..]) + multiset{x}
    ensures forall k :: 0 <= k < |rest| ==> AtMost(xs[0], rest[k])
  {
    forall k | 0 <= k < |rest|
      ensures AtMost(xs[0], rest[k])
    {
      assert rest[k] in multiset(rest);
      assert rest[k] == x || rest[k] in multiset(xs[1..]);
      if rest[k] != x {
        var j :| 0 <= j < |xs[1..]| && xs[1..][j] == rest[k];
        assert xs[j + 1] == rest[k];
      }
    }
  }

  /** Places `x` in front of the first element it does not follow. */
  function Insert(x: string, xs: seq<string>): (r: seq<string>)
    requires Sorted(xs)
    ensures Sorted(r) && multiset(r) == multiset(xs) + multiset{x}
    decreases |xs|
  {
    if xs == [] then [x]
    else if AtMost(x, xs[0]) then
      AtMostAll(x, xs);
      [x] + xs
    else
      AtMostTotal(x, xs[0]);
      var rest := Insert(x, xs[1..]);
      assert xs == [xs[0]] + xs[1..];
      HeadAtMostInserted(x, xs, rest);
      [xs[0]] + rest
  }

  /** Collections.sort on strings: the sorted permutation of the input. */
  function Sort(xs: seq<string>): (r: seq<string>)
    ensures Sorted(r) && multiset(r) == multiset(xs)
    decreases |xs|
  {
    if xs == [] then []
    else
      assert xs == xs[..|xs| - 1] + [xs[|xs| - 1]];
      Insert(xs[|xs| - 1], Sort(xs[..|xs| - 1]))
  }

  lemma SortedTail(a: seq<string>)
    requires Sorted(a) && a != []
    ensures Sorted(a[1..])
  {
    forall i, j | 0 <= i < j < |a| - 1
      ensures AtMost(a[1..][i], a[1..][j])
    {
      assert a[1..][i] == a[i + 1] && a[1..][j] == a[j + 1];
    }
  }

  /** Two sorted lists holding the same strings are the same list. */
  lemma {:induction false} SortedUnique(a: seq<string>, b: seq<string>)
    requires Sorted(a) && Sorted(b) && multiset(a) == multiset(b)
    ensures a == b
    decreases |a|
  {
    if a != [] {
      assert a[0] in multiset(b);
      assert b != [] && b[0] in multiset(a);
      var i :| 0 <= i < |b| && b[i] == a[0];
      var j :| 0 <= j < |a| && a[j] == b[0];
      assert AtMost(b[0], a[0]) by {
        if i > 0 {
          assert AtMost(b[0], b[i]);
        } else {
          AtMostReflexive(b[0]);
        }
      }
      assert AtMost(a[0], b[0]) by {
        if j > 0 {
          assert AtMost(a[0], a[j]);
        } else {
          AtMostReflexive(a[0]);
        }
      }
      AtMostAntisymmetric(a[0], b[0]);
      assert a == [a[0]] + a[1..];
      assert b == [b[0]] + b[1..];
      assert multiset(a) == multiset{a[0]} + multiset(a[1..]);
      assert multiset(b) == multiset{b[0]} + multiset(b[1..]);
      assert multiset(a[1..]) == multiset(a) - multiset{a[0]};
      assert multiset(b[1..]) == multiset(b) - multiset{b[0]};
      SortedTail(a);
      SortedTail(b);
      SortedUnique(a[1..], b[1..]);
    }
  }

  /** The sorted list depends only on which strings were sorted, not on their order. */
  lemma SortIgnoresOrder(xs: seq<string>, ys: seq<string>)
    requires multiset(xs) == multiset(ys)
    ensures Sort(xs) == Sort(ys)
  {
    SortedUnique(Sort(xs), Sort(ys));
  }
}
