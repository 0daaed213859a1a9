/**
 * The specificity order of candidates: the comparator over the fifteen
 * counters, the stable sort that orders candidates by it, and the check
 * that the two best candidates tie.
 */
module Ranking {
  import opened MatchModel

  // ---------------------------------------------------------------------------
  // The comparator
  // ---------------------------------------------------------------------------

  /**
   * The counters in the order the comparator consults them: the path, then the
   * query string, then the headers; within each, exact, custom, digit,
   * alphanumeric, wildcard.
   */
  function Key(r: Ranked): (k: seq<int>)
    ensures |k| == 15
  {
    [r.path.exact, r.path.custom, r.path.digit, r.path.alphaNumeric, r.path.wildcard,
     r.query.exact, r.query.custom, r.query.digit, r.query.alphaNumeric, r.query.wildcard,
     r.header.exact, r.header.custom, r.header.digit, r.header.alphaNumeric, r.header.wildcard]
  }

  /** The first nonzero difference `b[i] - a[i]`, or 0 when there is none. */
  function FirstDifference(a: seq<int>, b: seq<int>): int
    requires |a| == |b|
  {
    if a == [] then 0
    else if b[0] - a[0] != 0 then b[0] - a[0]
    else FirstDifference(a[1..], b[1..])
  }

  /**
   * The candidate comparator: negative when `a` is the more specific candidate
   * (it sorts first), positive when `b` is, zero when all counters agree.
   */
  function Compare(a: Ranked, b: Ranked): int
  {
    FirstDifference(Key(a), Key(b))
  }

  lemma {:induction false} FirstDifferenceZero(a: seq<int>, b: seq<int>)
    requires |a| == |b|
    ensures FirstDifference(a, b) == 0 <==> a == b
    decreases |a|
  {
    if a != [] {
      FirstDifferenceZero(a[1..], b[1..]);
      if a[0] == b[0] && a[1..] == b[1..] {
        assert a == [a[0]] + a[1..] && b == [b[0]] + b[1..];
      }
    }
  }

  lemma {:induction false} FirstDifferenceAntisymmetric(a: seq<int>, b: seq<int>)
    requires |a| == |b|
    ensures FirstDifference(a, b) == -FirstDifference(b, a)
    decreases |a|
  {
    if a != [] {
      FirstDifferenceAntisymmetric(a[1..], b[1..]);
    }
  }

  lemma {:induction false} FirstDifferenceTransitive(a: seq<int>, b: seq<int>, c: seq<int>)
    requires |a| == |b| == |c|
    requires FirstDifference(a, b) <= 0 && FirstDifference(b, c) <= 0
    ensures FirstDifference(a, c) <= 0
    decreases |a|
  {
    if a != [] && a[0] == b[0] && b[0] == c[0] {
      FirstDifferenceTransitive(a[1..], b[1..], c[1..]);
    }
  }

  /** The first difference is negative exactly when `a` is larger at the first index where they differ. */
  lemma {:induction false} FirstDifferenceMeaning(a: seq<int>, b: seq<int>)
    requires |a| == |b|
    ensures FirstDifference(a, b) < 0 <==> exists i :: 0 <= i < |a| && a[..i] == b[..i] && a[i] > b[i]
    decreases |a|
  {
    if a != [] {
      FirstDifferenceMeaning(a[1..], b[1..]);
      if FirstDifference(a, b) < 0 {
        if a[0] == b[0] {
          var i :| 0 <= i < |a[1..]| && a[1..][..i] == b[1..][..i] && a[1..][i] > b[1..][i];
          assert a[..i + 1] == [a[0]] + a[1..][..i];
          assert b[..i + 1] == [b[0]] + b[1..][..i];
        } else {
          assert a[..0] == b[..0];
        }
      }
      if exists i :: 0 <= i < |a| && a[..i] == b[..i] && a[i] > b[i] {
        var i :| 0 <= i < |a| && a[..i] == b[..i] && a[i] > b[i];
        if i > 0 {
          assert a[0] == a[..i][0] == b[..i][0] == b[0];
          assert a[1..][..i - 1] == a[..i][1..] && b[1..][..i - 1] == b[..i][1..];
          assert a[1..][i - 1] > b[1..][i - 1];
        }
      }
    }
  }

  /** Only the counters after an agreeing prefix matter. */
  lemma {:induction false} FirstDifferenceAfterPrefix(a: seq<int>, b: seq<int>, k: nat)
    requires |a| == |b| && k <= |a| && a[..k] == b[..k]
    ensures FirstDifference(a, b) == FirstDifference(a[k..], b[k..])
    decreases k
  {
    if k > 0 {
      assert a[0] == a[..k][0];
      assert a[1..][..k - 1] == a[..k][1..] && b[1..][..k - 1] == b[..k][1..];
      FirstDifferenceAfterPrefix(a[1..], b[1..], k - 1);
      assert a[1..][k - 1..] == a[k..] && b[1..][k - 1..] == b[k..];
    }
  }

  /** Counters after a differing prefix do not matter. */
  lemma {:induction false} FirstDifferenceWithinPrefix(a: seq<int>, b: seq<int>, k: nat)
    requires |a| == |b| && k <= |a| && a[..k] != b[..k]
    ensures FirstDifference(a, b) == FirstDifference(a[..k], b[..k])
    decreases k
  {
    assert k > 0;
    if a[0] == b[0] {
      assert a[1..][..k - 1] == a[..k][1..] && b[1..][..k - 1] == b[..k][1..];
      assert a[..k] == [a[0]] + a[..k][1..] && b[..k] == [b[0]] + b[..k][1..];
      FirstDifferenceWithinPrefix(a[1..], b[1..], k - 1);
    }
  }

  lemma KeyInjective(a: Ranked, b: Ranked)
    requires Key(a) == Key(b)
    ensures a == b
  {
    assert Key(a)[0] == Key(b)[0] && Key(a)[1] == Key(b)[1] && Key(a)[2] == Key(b)[2];
    assert Key(a)[3] == Key(b)[3] && Key(a)[4] == Key(b)[4] && Key(a)[5] == Key(b)[5];
    assert Key(a)[6] == Key(b)[6] && Key(a)[7] == Key(b)[7] && Key(a)[8] == Key(b)[8];
    assert Key(a)[9] == Key(b)[9] && Key(a)[10] == Key(b)[10] && Key(a)[11] == Key(b)[11];
    assert Key(a)[12] == Key(b)[12] && Key(a)[13] == Key(b)[13] && Key(a)[14] == Key(b)[14];
  }

  /** Two candidates compare as equal exactly when all fifteen counters agree. */
  lemma CompareZero(a: Ranked, b: Ranked)
    ensures Compare(a, b) == 0 <==> a == b
  {
    FirstDifferenceZero(Key(a), Key(b));
    if Key(a) == Key(b) {
      KeyInjective(a, b);
    }
  }

  lemma CompareAntisymmetric(a: Ranked, b: Ranked)
    ensures Compare(a, b) == -Compare(b, a)
  {
    FirstDifferenceAntisymmetric(Key(a), Key(b));
  }

  lemma CompareTransitive(a: Ranked, b: Ranked, c: Ranked)
    requires Compare(a, b) <= 0 && Compare(b, c) <= 0
    ensures Compare(a, c) <= 0
  {
    FirstDifferenceTransitive(Key(a), Key(b), Key(c));
  }

  lemma CompareStrictTransitive(a: Ranked, b: Ranked, c: Ranked)
    requires Compare(a, b) <= 0 && Compare(b, c) <= 0
    requires Compare(a, b) < 0 || Compare(b, c) < 0
    ensures Compare(a, c) < 0
  {
    CompareTransitive(a, b, c);
    CompareZero(a, c);
    CompareZero(a, b);
    CompareZero(b, c);
    if a == c {
      CompareAntisymmetric(a, b);
      CompareAntisymmetric(b, c);
      CompareZero(b, a);
    }
  }

  /**
   * `a` sorts before `b` exactly when, at the first counter (in comparator
   * order) where they differ, `a` has the higher count.
   */
  lemma CompareMeaning(a: Ranked, b: Ranked)
    ensures Compare(a, b) < 0 <==> exists i :: 0 <= i < 15 && Key(a)[..i] == Key(b)[..i] && Key(a)[i] > Key(b)[i]
  {
    FirstDifferenceMeaning(Key(a), Key(b));
  }

  /** More exact path segments always win, whatever the other counters are. */
  lemma PathExactDominates(a: Ranked, b: Ranked)
    requires a.path.exact > b.path.exact
    ensures Compare(a, b) < 0
  {
  }

  /** When the path counters differ, the query and header counters play no part. */
  lemma PathDecidesFirst(a: Ranked, b: Ranked, q1: Tiers, h1: Tiers, q2: Tiers, h2: Tiers)
    requires a.path != b.path
    ensures Compare(a, b) == Compare(Ranked(a.path, q1, h1), Ranked(b.path, q2, h2))
  {
    var a', b' := Ranked(a.path, q1, h1), Ranked(b.path, q2, h2);
    assert Key(a)[..5] == Key(a')[..5] == [a.path.exact, a.path.custom, a.path.digit, a.path.alphaNumeric, a.path.wildcard];
    assert Key(b)[..5] == Key(b')[..5] == [b.path.exact, b.path.custom, b.path.digit, b.path.alphaNumeric, b.path.wildcard];
    FirstDifferenceWithinPrefix(Key(a), Key(b), 5);
    FirstDifferenceWithinPrefix(Key(a'), Key(b'), 5);
  }

  /** With equal path counters, differing query counters decide and the headers play no part. */
  lemma QueryDecidesBeforeHeaders(a: Ranked, b: Ranked, h1: Tiers, h2: Tiers)
    requires a.path == b.path && a.query != b.query
    ensures Compare(a, b) == Compare(Ranked(a.path, a.query, h1), Ranked(b.path, b.query, h2))
  {
    var a', b' := Ranked(a.path, a.query, h1), Ranked(b.path, b.query, h2);
    assert Key(a)[..10] == Key(a')[..10] == Key(a)[..5] + [a.query.exact, a.query.custom, a.query.digit, a.query.alphaNumeric, a.query.wildcard];
    assert Key(b)[..10] == Key(b')[..10] == Key(b)[..5] + [b.query.exact, b.query.custom, b.query.digit, b.query.alphaNumeric, b.query.wildcard];
    assert Key(a)[..10][5..] != Key(b)[..10][5..];
    FirstDifferenceWithinPrefix(Key(a), Key(b), 10);
    FirstDifferenceWithinPrefix(Key(a'), Key(b'), 10);
  }

  // ---------------------------------------------------------------------------
  // Collections.sort with the comparator: a stable sort
  // ---------------------------------------------------------------------------

  predicate SortedBy<T>(xs: seq<T>, key: T -> Ranked)
  {
    forall i, j :: 0 <= i < j < |xs| ==> Compare(key(xs[i]), key(xs[j])) <= 0
  }

  /** Places `x` after every element it does not strictly precede, so equal elements keep their order. */
  function Insert<T>(x: T, xs: seq<T>, key: T -> Ranked): (r: seq<T>)
    requires SortedBy(xs, key)
    ensures SortedBy(r, key) && multiset(r) == multiset(xs) + multiset{x}
    decreases |xs|
  {
    if xs == [] then [x]
    else if Compare(key(x), key(xs[0])) < 0 then
      PrecedesAll(x, xs, key);
      SortedCons(x, xs, key);
      [x] + xs
    else
      CompareAntisymmetric(key(x), key(xs[0]));
      var rest := Insert(x, xs[1..], key);
      assert xs == [xs[0]] + xs[1..];
      HeadPrecedesInserted(x, xs, key, rest);
      SortedCons(xs[0], rest, key);
      [xs[0]] + rest
  }

  /** What strictly precedes the head of a sorted list precedes or ties with all of it. */
  lemma PrecedesAll<T>(x: T, xs: seq<T>, key: T -> Ranked)
    requires SortedBy(xs, key) && xs != [] && Compare(key(x), key(xs[0])) < 0
    ensures forall j :: 0 <= j < |xs| ==> Compare(key(x), key(xs[j])) <= 0
  {
    forall j | 0 <= j < |xs|
      ensures Compare(key(x), key(xs[j])) <= 0
    {
      if j > 0 {
        CompareTransitive(key(x), key(xs[0]), key(xs[j]));
      }
    }
  }

  /** The head of a sorted list precedes or ties with every element of its tail with `x` added, when it does so with `x`. */
  lemma HeadPrecedesInserted<T>(x: T, xs: seq<T>, key: T -> Ranked, rest: seq<T>)
    requires SortedBy(xs, key) && xs != [] && Compare(key(xs[0]), key(x)) <= 0
    requires multiset(rest) == multiset(xs[1..]) + multiset{x}
    ensures forall k :: 0 <= k < |rest| ==> Compare(key(xs[0]), key(rest[k])) <= 0
  {
    forall k | 0 <= k < |rest|
      ensures Compare(key(xs[0]), key(rest[k])) <= 0
    {
      assert rest[k] in multiset(rest);
      if rest[k] != x {
        assert rest[k] in multiset(xs[1..]);
        var j :| 0 <= j < |xs[1..]| && xs[1..][j] == rest[k];
        assert xs[j + 1] == rest[k];
      }
    }
  }

  /** An element that precedes or ties with every element of a sorted list can go in front of it. */
  lemma SortedCons<T>(y: T, ys: seq<T>, key: T -> Ranked)
    requires SortedBy(ys, key)
    requires forall j :: 0 <= j < |ys| ==> Compare(key(y), key(ys[j])) <= 0
    ensures SortedBy([y] + ys, key)
  {
    var r := [y] + ys;
    forall i, j | 0 <= i < j < |r|
      ensures Compare(key(r[i]), key(r[j])) <= 0
    {
      assert r[j] == ys[j - 1];
      if i > 0 {
        assert r[i] == ys[i - 1];
      }
    }
  }

  /** Collections.sort with the comparator: sorted, a permutation, and stable (see SortKeepsTiesInOrder). */
  function Sort<T>(xs: seq<T>, key: T -> Ranked): (r: seq<T>)
    ensures SortedBy(r, key) && multiset(r) == multiset(xs) && |r| == |xs|
    decreases |xs|
  {
    if xs == [] then []
    else
      assert xs == xs[..|xs| - 1] + [xs[|xs| - 1]];
      var r := Insert(xs[|xs| - 1], Sort(xs[..|xs| - 1], key), key);
      assert |r| == |multiset(r)|;
      r
  }

  /** The elements whose counters equal `k`, in their order in `xs`. */
  function WithRank<T>(xs: seq<T>, key: T -> Ranked, k: Ranked): (r: seq<T>)
    ensures |r| <= |xs|
  {
    if xs == [] then [] else (if key(xs[0]) == k then [xs[0]] else []) + WithRank(xs[1..], key, k)
  }

  lemma {:induction false} WithRankAppend<T>(a: seq<T>, b: seq<T>, key: T -> Ranked, k: Ranked)
    ensures WithRank(a + b, key, k) == WithRank(a, key, k) + WithRank(b, key, k)
    decreases |a|
  {
    if a != [] {
      assert (a + b)[0] == a[0];
      assert (a + b)[1..] == a[1..] + b;
      WithRankAppend(a[1..], b, key, k);
    } else {
      assert a + b == b;
    }
  }

  lemma {:induction false} WithRankKeys<T>(xs: seq<T>, key: T -> Ranked, k: Ranked)
    ensures forall i :: 0 <= i < |WithRank(xs, key, k)| ==> key(WithRank(xs, key, k)[i]) == k
    decreases |xs|
  {
    if xs != [] {
      WithRankKeys(xs[1..], key, k);
    }
  }

  lemma {:induction false} WithRankNone<T>(xs: seq<T>, key: T -> Ranked, k: Ranked)
    requires forall j :: 0 <= j < |xs| ==> key(xs[j]) != k
    ensures WithRank(xs, key, k) == []
    decreases |xs|
  {
    if xs != [] {
      WithRankNone(xs[1..], key, k);
    }
  }

  lemma StrictlyBeforeAll<T>(x: T, xs: seq<T>, key: T -> Ranked)
    requires SortedBy(xs, key) && xs != [] && Compare(key(x), key(xs[0])) < 0
    ensures forall j :: 0 <= j < |xs| ==> key(xs[j]) != key(x)
  {
    forall j | 0 <= j < |xs|
      ensures key(xs[j]) != key(x)
    {
      if j > 0 {
        CompareStrictTransitive(key(x), key(xs[0]), key(xs[j]));
      }
      CompareZero(key(x), key(xs[j]));
    }
  }

  lemma AppendAssociative<T>(a: seq<T>, b: seq<T>, c: seq<T>)
    ensures a + (b + c) == (a + b) + c
  {
  }

  /** When `x` goes in front, the elements tied with it all come after it in `xs`, and there are none. */
  lemma InsertInFrontKeepsTies<T>(x: T, xs: seq<T>, key: T -> Ranked, k: Ranked)
    requires SortedBy(xs, key)
    requires xs == [] || Compare(key(x), key(xs[0])) < 0
    ensures WithRank(Insert(x, xs, key), key, k) == WithRank(xs, key, k) + (if key(x) == k then [x] else [])
  {
    var r := Insert(x, xs, key);
    var tail: seq<T> := if key(x) == k then [x] else [];
    assert r == [x] + xs;
    assert r[0] == x && r[1..] == xs;
    assert WithRank(r, key, k) == tail + WithRank(xs, key, k);
    if key(x) == k && xs != [] {
      StrictlyBeforeAll(x, xs, key);
      WithRankNone(xs, key, k);
    }
  }

  lemma {:induction false} InsertKeepsTiesInOrder<T>(x: T, xs: seq<T>, key: T -> Ranked, k: Ranked)
    requires SortedBy(xs, key)
    ensures WithRank(Insert(x, xs, key), key, k) == WithRank(xs, key, k) + (if key(x) == k then [x] else [])
    decreases |xs|
  {
    if xs == [] || Compare(key(x), key(xs[0])) < 0 {
      InsertInFrontKeepsTies(x, xs, key, k);
    } else {
      var r := Insert(x, xs, key);
      var tail: seq<T> := if key(x) == k then [x] else [];
      var rest := Insert(x, xs[1..], key);
      assert r == [xs[0]] + rest;
      assert r[0] == xs[0] && r[1..] == rest;
      var head: seq<T> := if key(xs[0]) == k then [xs[0]] else [];
      assert WithRank(r, key, k) == head + WithRank(rest, key, k);
      assert WithRank(xs, key, k) == head + WithRank(xs[1..], key, k);
      InsertKeepsTiesInOrder(x, xs[1..], key, k);
      AppendAssociative(head, WithRank(xs[1..], key, k), tail);
    }
  }

  lemma SortUnfold<T>(xs: seq<T>, key: T -> Ranked)
    requires xs != []
    ensures Sort(xs, key) == Insert(xs[|xs| - 1], Sort(xs[..|xs| - 1], key), key)
  {
  }

  lemma WithRankSingle<T>(x: T, key: T -> Ranked, k: Ranked)
    ensures WithRank([x], key, k) == if key(x) == k then [x] else []
  {
    assert WithRank([x], key, k) == (if key(x) == k then [x] else []) + WithRank([x][1..], key, k);
  }

  /** Stability: candidates with equal counters keep their input order. */
  lemma {:induction false} SortKeepsTiesInOrder<T>(xs: seq<T>, key: T -> Ranked, k: Ranked)
    ensures WithRank(Sort(xs, key), key, k) == WithRank(xs, key, k)
    decreases |xs|
  {
    if xs != [] {
      var init, last := xs[..|xs| - 1], xs[|xs| - 1];
      var sorted := Sort(init, key);
      SortUnfold(xs, key);
      SortKeepsTiesInOrder(init, key, k);
      InsertKeepsTiesInOrder(last, sorted, key, k);
      assert xs == init + [last];
      WithRankAppend(init, [last], key, k);
      WithRankSingle(last, key, k);
    }
  }

  // ---------------------------------------------------------------------------
  // The best candidates
  // ---------------------------------------------------------------------------

  /** The counters of the most specific candidates. */
  function TopRank<T>(xs: seq<T>, key: T -> Ranked): (r: Ranked)
    requires xs != []
    ensures exists i :: 0 <= i < |xs| && key(xs[i]) == r
    ensures forall i :: 0 <= i < |xs| ==> Compare(r, key(xs[i])) <= 0
    decreases |xs|
  {
    if |xs| == 1 then
      CompareZero(key(xs[0]), key(xs[0]));
      key(xs[0])
    else
      var m := TopRank(xs[1..], key);
      assert forall i :: 1 <= i < |xs| ==> xs[i] == xs[1..][i - 1];
      if Compare(key(xs[0]), m) <= 0 then
        assert forall i :: 0 <= i < |xs| ==> Compare(key(xs[0]), key(xs[i])) <= 0 by {
          CompareZero(key(xs[0]), key(xs[0]));
          forall i | 1 <= i < |xs|
            ensures Compare(key(xs[0]), key(xs[i])) <= 0
          {
            CompareTransitive(key(xs[0]), m, key(xs[i]));
          }
        }
        key(xs[0])
      else
        CompareAntisymmetric(key(xs[0]), m);
        m
  }

  /** The most specific candidates, in input order. */
  function Best<T>(xs: seq<T>, key: T -> Ranked): (b: seq<T>)
    requires xs != []
    ensures b != []
  {
    TopRankPresent(xs, key);
    WithRank(xs, key, TopRank(xs, key))
  }

  lemma TopRankPresent<T>(xs: seq<T>, key: T -> Ranked)
    requires xs != []
    ensures WithRank(xs, key, TopRank(xs, key)) != []
  {
    var i :| 0 <= i < |xs| && key(xs[i]) == TopRank(xs, key);
    WithRankHas(xs, key, i);
  }

  lemma {:induction false} WithRankHas<T>(xs: seq<T>, key: T -> Ranked, i: nat)
    requires i < |xs|
    ensures WithRank(xs, key, key(xs[i])) != []
    decreases i
  {
    if i > 0 {
      assert xs[1..][i - 1] == xs[i];
      WithRankHas(xs[1..], key, i - 1);
    }
  }

  lemma {:induction false} PrefixClosedWithRank<T>(s: seq<T>, key: T -> Ranked, k: Ranked)
    requires forall i, j :: 0 <= i < j < |s| && key(s[j]) == k ==> key(s[i]) == k
    ensures WithRank(s, key, k) == s[..|WithRank(s, key, k)|]
    ensures forall j :: |WithRank(s, key, k)| <= j < |s| ==> key(s[j]) != k
    decreases |s|
  {
    if s != [] {
      if key(s[0]) == k {
        assert forall i, j :: 0 <= i < j < |s[1..]| && key(s[1..][j]) == k ==> key(s[1..][i]) == k by {
          assert forall i :: 0 <= i < |s[1..]| ==> s[1..][i] == s[i + 1];
        }
        PrefixClosedWithRank(s[1..], key, k);
        var n := |WithRank(s[1..], key, k)|;
        assert s[..n + 1] == [s[0]] + s[1..][..n];
        assert forall j :: n + 1 <= j < |s| ==> s[j] == s[1..][j - 1];
      } else {
        WithRankNone(s, key, k);
      }
    }
  }

  /**
   * The sorted list starts with exactly the most specific candidates, in their
   * input order; every later candidate is strictly less specific.
   */
  lemma SortPutsBestFirst<T>(xs: seq<T>, key: T -> Ranked)
    requires xs != []
    ensures var s, b := Sort(xs, key), Best(xs, key);
      1 <= |b| && s[..|b|] == b && forall j :: |b| <= j < |s| ==> Compare(TopRank(xs, key), key(s[j])) < 0
  {
    var s, top := Sort(xs, key), TopRank(xs, key);
    forall i | 0 <= i < |s|
      ensures Compare(top, key(s[i])) <= 0
    {
      assert s[i] in multiset(xs);
    }
    forall i, j | 0 <= i < j < |s| && key(s[j]) == top
      ensures key(s[i]) == top
    {
      CompareAntisymmetric(top, key(s[i]));
      CompareZero(top, key(s[i]));
    }
    PrefixClosedWithRank(s, key, top);
    SortKeepsTiesInOrder(xs, key, top);
    var b := Best(xs, key);
    var i :| 0 <= i < |xs| && key(xs[i]) == top;
    assert xs[i] in multiset(s);
    var j :| 0 <= j < |s| && s[j] == xs[i];
    assert 1 <= |b|;
    forall j | |b| <= j < |s|
      ensures Compare(top, key(s[j])) < 0
    {
      CompareZero(top, key(s[j]));
    }
  }

  // ---------------------------------------------------------------------------
  // The tie check on the two best candidates
  // ---------------------------------------------------------------------------

  function RankOf(m: MatchData): Ranked
  {
    m.Rank()
  }

  /** The seventeen differences the tie check collects, presence-only counters included. */
  function Differences(a: MatchData, b: MatchData): seq<int>
  {
    [b.path.exact - a.path.exact, b.header.tiers.exact - a.header.tiers.exact, b.query.tiers.exact - a.query.tiers.exact,
     b.path.custom - a.path.custom, b.header.tiers.custom - a.header.tiers.custom, b.query.tiers.custom - a.query.tiers.custom,
     b.path.digit - a.path.digit, b.header.tiers.digit - a.header.tiers.digit, b.query.tiers.digit - a.query.tiers.digit,
     b.path.alphaNumeric - a.path.alphaNumeric, b.header.tiers.alphaNumeric - a.header.tiers.alphaNumeric,
     b.query.tiers.alphaNumeric - a.query.tiers.alphaNumeric,
     b.path.wildcard - a.path.wildcard, b.header.tiers.wildcard - a.header.tiers.wildcard,
     b.query.tiers.wildcard - a.query.tiers.wildcard,
     b.header.present - a.header.present, b.query.present - a.query.present]
  }

  /** A non-empty list of differences collects into the set {0} exactly when all are zero. */
  lemma OnlyZeroDifferences(d: seq<int>)
    requires d != []
    ensures var s := set i | 0 <= i < |d| :: d[i];
      (|s| == 1 && 0 in s) <==> forall i :: 0 <= i < |d| ==> d[i] == 0
  {
    var s := set i | 0 <= i < |d| :: d[i];
    assert d[0] in s;
    if forall i :: 0 <= i < |d| ==> d[i] == 0 {
      assert s == {0};
    } else {
      var i :| 0 <= i < |d| && d[i] != 0;
      assert d[i] in s;
      if 0 in s {
        var t := s - {0};
        assert d[i] in t;
        assert |t| == |s| - 1;
      }
    }
  }

  lemma DifferencesZero(a: MatchData, b: MatchData)
    ensures (forall i :: 0 <= i < |Differences(a, b)| ==> Differences(a, b)[i] == 0) <==>
      a.Rank() == b.Rank() && a.query.present == b.query.present && a.header.present == b.header.present
  {
    var d := Differences(a, b);
    if forall i :: 0 <= i < |d| ==> d[i] == 0 {
      assert d[0] == 0 && d[1] == 0 && d[2] == 0 && d[3] == 0 && d[4] == 0 && d[5] == 0;
      assert d[6] == 0 && d[7] == 0 && d[8] == 0 && d[9] == 0 && d[10] == 0 && d[11] == 0;
      assert d[12] == 0 && d[13] == 0 && d[14] == 0 && d[15] == 0 && d[16] == 0;
    }
  }

  /**
   * areFirstTwoSamePriority: the set of the differences is exactly {0}, which
   * holds exactly when all seventeen counters agree.
   */
  function SamePriority(a: MatchData, b: MatchData): (r: bool)
    ensures r <==> a.Rank() == b.Rank() && a.query.present == b.query.present && a.header.present == b.header.present
  {
    var d := Differences(a, b);
    var differences := set i | 0 <= i < |d| :: d[i];
    OnlyZeroDifferences(d);
    DifferencesZero(a, b);
    |differences| == 1 && 0 in differences
  }

  /**
   * The request is refused as ambiguous exactly when at least two candidates
   * share the best counters and the first two of them, in input order, also
   * agree on the presence-only counters the comparator ignores.
   */
  lemma ConflictExactlyWhenBestTie(xs: seq<MatchData>)
    requires xs != []
    ensures var s, b := Sort(xs, RankOf), Best(xs, RankOf);
      (|s| > 1 && SamePriority(s[0], s[1])) <==>
      (|b| >= 2 && b[0].query.present == b[1].query.present && b[0].header.present == b[1].header.present)
  {
    var s, b, top := Sort(xs, RankOf), Best(xs, RankOf), TopRank(xs, RankOf);
    SortPutsBestFirst(xs, RankOf);
    WithRankKeys(xs, RankOf, top);
    assert s[0] == s[..|b|][0] == b[0];
    if |b| >= 2 {
      assert s[1] == s[..|b|][1] == b[1];
      assert b[0].Rank() == RankOf(b[0]) == top == RankOf(b[1]) == b[1].Rank();
    } else if |s| > 1 {
      assert Compare(top, RankOf(s[1])) < 0;
      CompareZero(top, RankOf(s[1]));
      assert RankOf(s[0]) == top;
    }
  }

  /**
   * The head of the sorted list is the first of the most specific candidates
   * in input order, and no candidate outranks it.
   */
  lemma HeadIsFirstBest<T>(xs: seq<T>, key: T -> Ranked)
    requires xs != []
    ensures Sort(xs, key)[0] == Best(xs, key)[0]
    ensures forall i :: 0 <= i < |xs| ==> Compare(key(Sort(xs, key)[0]), key(xs[i])) <= 0
  {
    var s, b, top := Sort(xs, key), Best(xs, key), TopRank(xs, key);
    SortPutsBestFirst(xs, key);
    WithRankKeys(xs, key, top);
    assert s[0] == s[..|b|][0] == b[0];
    assert key(s[0]) == top;
    forall i | 0 <= i < |xs|
      ensures Compare(key(s[0]), key(xs[i])) <= 0
    {
      assert Compare(top, key(xs[i])) <= 0;
    }
  }
}
