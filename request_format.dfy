/**
 * How an incoming request is turned into the texts the stored definitions are
 * looked up with: the path normalised with the reserved `///` separator, and
 * the headers and query parameters as sorted `<name=value>` tokens.
 */
module RequestFormat {
  import opened Faults
  import opened JavaStrings
  import StringOrder

  /** The reserved separator between path segments in stored and normalised paths. */
  const SegmentSeparator := "///"

  /** The separator between the `<name=value>` tokens of a header or query-string text. */
  const TokenSeparator := "|~|"

  /**
   * reformatRequestURIForDBPatternMatch: drop the first character, drop one
   * trailing '/', split on '/', and join the pieces with `///`. An empty URI, or
   * one made of a single character, makes substring or charAt fail.
   */
  function NormaliseRequestUri(uri: string): (r: Result<string>)
    ensures r.Failure? <==> |uri| <= 1
    ensures r.Failure? ==> r.error == Runtime(StringIndexOutOfBounds)
  {
    if |uri| == 0 then Failure(Runtime(StringIndexOutOfBounds))
    else
      var rest := uri[1..];
      if |rest| == 0 then Failure(Runtime(StringIndexOutOfBounds))
      else
        var trimmed := if rest[|rest| - 1] == '/' then rest[..|rest| - 1] else rest;
        Success(Join(Split(trimmed, "/"), SegmentSeparator))
  }

  /** The text between the leading character and one trailing '/', split on '/'. */
  function UriSegments(uri: string): seq<string>
    requires |uri| >= 2
  {
    var rest := uri[1..];
    var trimmed := if rest[|rest| - 1] == '/' then rest[..|rest| - 1] else rest;
    Split(trimmed, "/")
  }

  /**
   * Splitting the normalised path on `///` gives back exactly the request's
   * segments (a path of slashes only has no segments and gives back one empty
   * segment), so segment counts are preserved.
   */
  lemma NormalisedSegments(uri: string)
    requires |uri| >= 2
    ensures NormaliseRequestUri(uri).Success?
    ensures var parts := UriSegments(uri);
      Split(NormaliseRequestUri(uri).value, SegmentSeparator) == (if parts == [] then [""] else parts)
  {
    var rest := uri[1..];
    var trimmed := if rest[|rest| - 1] == '/' then rest[..|rest| - 1] else rest;
    var parts := Split(trimmed, "/");
    SplitPiecesClean(trimmed, "/");
    forall i | 0 <= i < |parts|
      ensures forall j :: 0 <= j < |parts[i]| ==> parts[i][j] != '/'
    {
      CleanOfSingleChar(parts[i], '/');
    }
    SplitLastNonEmpty(trimmed, "/");
    SplitJoinSplit(parts, SegmentSeparator);
  }

  /** A normalised path never holds a '/' other than inside a `///` separator it was given. */
  lemma NormalisedHasNoSingleSlashSegment(uri: string)
    requires |uri| >= 2
    ensures forall i :: 0 <= i < |UriSegments(uri)| ==> '/' !in UriSegments(uri)[i]
  {
    var rest := uri[1..];
    var trimmed := if rest[|rest| - 1] == '/' then rest[..|rest| - 1] else rest;
    SplitPiecesClean(trimmed, "/");
    forall i | 0 <= i < |UriSegments(uri)|
      ensures '/' !in UriSegments(uri)[i]
    {
      CleanOfSingleChar(UriSegments(uri)[i], '/');
    }
  }

  // ---------------------------------------------------------------------------
  // Header and query-string texts
  // ---------------------------------------------------------------------------

  /** One entry of a header or query-parameter map as the stored patterns expect it. */
  function Token(name: string, value: string): string
  {
    "<" + name + "=" + value + ">"
  }

  /** `es` lists every entry of `m` exactly once, in some order (an iteration of Map.entrySet). */
  predicate Enumerates(es: seq<(string, string)>, m: map<string, string>)
  {
    (forall i :: 0 <= i < |es| ==> es[i].0 in m && m[es[i].0] == es[i].1)
    && (forall i, j :: 0 <= i < j < |es| ==> es[i].0 != es[j].0)
    && (forall name :: name in m ==> exists i :: 0 <= i < |es| && es[i].0 == name)
  }

  function Tokens(es: seq<(string, string)>): (ts: seq<string>)
    ensures |ts| == |es|
    ensures forall i :: 0 <= i < |es| ==> ts[i] == Token(es[i].0, es[i].1)
  {
    if es == [] then [] else Tokens(es[..|es| - 1]) + [Token(es[|es| - 1].0, es[|es| - 1].1)]
  }

  /** The entries of `m` in the unspecified order a HashMap iterates them. */
  method Entries(m: map<string, string>) returns (es: seq<(string, string)>)
    ensures Enumerates(es, m)
  {
    var left := m.Keys;
    es := [];
    while left != {}
      invariant left <= m.Keys
      invariant forall i :: 0 <= i < |es| ==> es[i].0 in m && m[es[i].0] == es[i].1 && es[i].0 !in left
      invariant forall i, j :: 0 <= i < j < |es| ==> es[i].0 != es[j].0
      invariant forall name :: name in m && name !in left ==> exists i :: 0 <= i < |es| && es[i].0 == name
      decreases left
    {
      var name :| name in left;
      ghost var before := es;
      es := es + [(name, m[name])];
      assert forall i :: 0 <= i < |before| ==> es[i] == before[i];
      assert es[|es| - 1].0 == name;
      left := left - {name};
    }
  }

  /**
   * alphabetizeHeaderString and alphabetizeQueryParameterString: one
   * `<name=value>` token per entry, sorted, joined with `sep` (`|~|` in the
   * service; `;` and `&` in the legacy controller).
   */
  method Alphabetize(m: map<string, string>, sep: string) returns (text: string, es: seq<(string, string)>)
    ensures AlphabetizedAs(m, sep, text)
    ensures Enumerates(es, m)
    ensures text == Join(StringOrder.Sort(Tokens(es)), sep)
  {
    es := Entries(m);
    var list: seq<string> := [];
    var i := 0;
    while i < |es|
      invariant 0 <= i <= |es|
      invariant list == Tokens(es[..i])
    {
      assert es[..i + 1][..i] == es[..i];
      list := list + [Token(es[i].0, es[i].1)];
      i := i + 1;
    }
    assert es[..|es|] == es;
    text := Join(StringOrder.Sort(list), sep);
  }

  // ---------------------------------------------------------------------------
  // The alphabetized text does not depend on the iteration order
  // ---------------------------------------------------------------------------

  lemma {:induction false} DistinctCount(es: seq<(string, string)>, p: (string, string))
    requires forall i, j :: 0 <= i < j < |es| ==> es[i].0 != es[j].0
    ensures multiset(es)[p] == if p in es then 1 else 0
    decreases |es|
  {
    if es != [] {
      var init := es[..|es| - 1];
      assert es == init + [es[|es| - 1]];
      DistinctCount(init, p);
      if p == es[|es| - 1] {
        assert p !in init by {
          forall i | 0 <= i < |init|
            ensures init[i] != p
          {
            assert es[i].0 != es[|es| - 1].0;
          }
        }
      }
    }
  }

  /** Two iterations of the same map hold the same entries. */
  lemma SameEntries(e1: seq<(string, string)>, e2: seq<(string, string)>, m: map<string, string>)
    requires Enumerates(e1, m) && Enumerates(e2, m)
    ensures multiset(e1) == multiset(e2)
  {
    forall p
      ensures multiset(e1)[p] == multiset(e2)[p]
    {
      DistinctCount(e1, p);
      DistinctCount(e2, p);
      if p in e1 {
        var i :| 0 <= i < |e1| && e1[i] == p;
        var j :| 0 <= j < |e2| && e2[j].0 == p.0;
        assert e2[j] == p;
      }
      if p in e2 {
        var j :| 0 <= j < |e2| && e2[j] == p;
        var i :| 0 <= i < |e1| && e1[i].0 == p.0;
        assert e1[i] == p;
      }
    }
  }

  lemma TokensAppend(a: seq<(string, string)>, b: seq<(string, string)>)
    ensures Tokens(a + b) == Tokens(a) + Tokens(b)
  {
  }

  /** A list is the entries before position `k`, the one at `k`, and those after. */
  lemma SplitAround(b: seq<(string, string)>, k: nat)
    requires k < |b|
    ensures b == b[..k] + [b[k]] + b[k + 1..]
  {
  }

  /** Taking one entry out of the list takes exactly that entry out of its multiset. */
  lemma EntryRemoved(b: seq<(string, string)>, k: nat)
    requires k < |b|
    ensures multiset(b[..k] + b[k + 1..]) == multiset(b) - multiset{b[k]}
  {
    SplitAround(b, k);
    assert multiset(b) == multiset(b[..k]) + multiset{b[k]} + multiset(b[k + 1..]);
  }

  /** Taking one entry out of the list takes its token out of the tokens. */
  lemma TokenRemoved(b: seq<(string, string)>, k: nat)
    requires k < |b|
    ensures multiset(Tokens(b)) == multiset(Tokens(b[..k] + b[k + 1..])) + multiset{Token(b[k].0, b[k].1)}
  {
    var front, x, back := b[..k], b[k], b[k + 1..];
    SplitAround(b, k);
    TokensAppend(front + [x], back);
    TokensAppend(front, [x]);
    TokensAppend(front, back);
    var t := Token(x.0, x.1);
    assert Tokens([x]) == [t];
    assert Tokens(b) == Tokens(front) + [t] + Tokens(back);
    assert multiset(Tokens(b)) == multiset(Tokens(front)) + multiset{t} + multiset(Tokens(back));
  }

  /** Taking the same entry out of two rearrangements leaves two rearrangements. */
  lemma SameRemoved(a: seq<(string, string)>, b: seq<(string, string)>, k: nat)
    requires multiset(a) == multiset(b) && a != [] && k < |b| && b[k] == a[0]
    ensures multiset(a[..0] + a[1..]) == multiset(b[..k] + b[k + 1..])
  {
    EntryRemoved(a, 0);
    EntryRemoved(b, k);
  }

  /** Rearranging the entries rearranges their tokens. */
  lemma {:induction false} TokensPermute(a: seq<(string, string)>, b: seq<(string, string)>)
    requires multiset(a) == multiset(b)
    ensures multiset(Tokens(a)) == multiset(Tokens(b))
    decreases |a|
  {
    if a != [] {
      var x := a[0];
      assert x in multiset(b);
      var k :| 0 <= k < |b| && b[k] == x;
      var a', b' := a[..0] + a[1..], b[..k] + b[k + 1..];
      SameRemoved(a, b, k);
      TokensPermute(a', b');
      TokenRemoved(a, 0);
      TokenRemoved(b, k);
    }
  }

  /** The alphabetized text is the same for every iteration order of the map. */
  lemma AlphabetizedIgnoresOrder(e1: seq<(string, string)>, e2: seq<(string, string)>, m: map<string, string>)
    requires Enumerates(e1, m) && Enumerates(e2, m)
    ensures StringOrder.Sort(Tokens(e1)) == StringOrder.Sort(Tokens(e2))
  {
    SameEntries(e1, e2, m);
    TokensPermute(e1, e2);
    StringOrder.SortIgnoresOrder(Tokens(e1), Tokens(e2));
  }

  /** `text` is what alphabetizing `m` with separator `sep` yields for some iteration order of the map. */
  ghost predicate AlphabetizedAs(m: map<string, string>, sep: string, text: string)
  {
    exists es :: Enumerates(es, m) && text == Join(StringOrder.Sort(Tokens(es)), sep)
  }

  /** The alphabetized text is a function of the map: every iteration order gives the same text. */
  lemma AlphabetizedUnique(m: map<string, string>, sep: string, t1: string, t2: string)
    requires AlphabetizedAs(m, sep, t1) && AlphabetizedAs(m, sep, t2)
    ensures t1 == t2
  {
    var e1 :| Enumerates(e1, m) && t1 == Join(StringOrder.Sort(Tokens(e1)), sep);
    var e2 :| Enumerates(e2, m) && t2 == Join(StringOrder.Sort(Tokens(e2)), sep);
    AlphabetizedIgnoresOrder(e1, e2, m);
  }

  /** Each entry of the map contributes exactly one token. */
  lemma OneTokenPerEntry(es: seq<(string, string)>, m: map<string, string>)
    requires Enumerates(es, m)
    ensures |StringOrder.Sort(Tokens(es))| == |m|
    ensures forall name :: name in m ==> Token(name, m[name]) in StringOrder.Sort(Tokens(es))
  {
    var keys := set i | 0 <= i < |es| :: es[i].0;
    assert keys == m.Keys;
    KeysCount(es);
    var sorted := StringOrder.Sort(Tokens(es));
    assert |sorted| == |multiset(sorted)| == |multiset(Tokens(es))| == |Tokens(es)|;
    forall name | name in m
      ensures Token(name, m[name]) in sorted
    {
      var i :| 0 <= i < |es| && es[i].0 == name;
      assert Tokens(es)[i] == Token(name, m[name]);
      assert Token(name, m[name]) in multiset(Tokens(es));
    }
  }

  lemma {:induction false} KeysCount(es: seq<(string, string)>)
    requires forall i, j :: 0 <= i < j < |es| ==> es[i].0 != es[j].0
    ensures |set i | 0 <= i < |es| :: es[i].0| == |es|
    decreases |es|
  {
    if es != [] {
      var init := es[..|es| - 1];
      KeysCount(init);
      var s := set i | 0 <= i < |init| :: init[i].0;
      assert (set i | 0 <= i < |es| :: es[i].0) == s + {es[|es| - 1].0};
      assert es[|es| - 1].0 !in s;
    }
  }
}
