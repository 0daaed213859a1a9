/**
 * The java.lang.String and StringUtils operations the matcher and the template
 * expander are built from, for the literal separators they are used with.
 */
module JavaStrings {

  /** `p` occurs in `s` starting at index `i`. */
  predicate OccursAt(s: string, p: string, i: int)
  {
    0 <= i && i + |p| <= |s| && s[i..i + |p|] == p
  }

  /** String.startsWith. */
  predicate StartsWith(s: string, p: string)
  {
    OccursAt(s, p, 0)
  }

  /** String.endsWith. */
  predicate EndsWith(s: string, p: string)
  {
    |p| <= |s| && OccursAt(s, p, |s| - |p|)
  }

  /** String.indexOf(p, from): the first index at or after `from` where `p` occurs, or -1. */
  function IndexFrom(s: string, p: string, from: nat): (r: int)
    ensures r == -1 || (from <= r && OccursAt(s, p, r))
    ensures forall i :: from <= i && (r == -1 || i < r) ==> !OccursAt(s, p, i)
    decreases |s| - from
  {
    if from + |p| > |s| then -1
    else if OccursAt(s, p, from) then from
    else IndexFrom(s, p, from + 1)
  }

  /** String.indexOf(p). */
  function IndexOf(s: string, p: string): int
  {
    IndexFrom(s, p, 0)
  }

  /** String.contains. */
  predicate Contains(s: string, p: string)
  {
    IndexOf(s, p) >= 0
  }

  /**
   * `s.replaceFirst(Pattern.quote(t), Matcher.quoteReplacement(r))`: the first
   * literal occurrence of `t` is replaced by the literal text `r`.
   */
  function ReplaceFirst(s: string, t: string, r: string): string
  {
    var i := IndexOf(s, t);
    if i < 0 then s else s[..i] + r + s[i + |t|..]
  }

  /**
   * The pieces between successive non-overlapping occurrences of `sep`, found
   * left to right, before String.split discards trailing empty pieces.
   */
  function SplitRaw(s: string, sep: string): (parts: seq<string>)
    requires |sep| > 0
    ensures |parts| >= 1
    decreases |s|
  {
    var i := IndexOf(s, sep);
    if i < 0 then [s] else [s[..i]] + SplitRaw(s[i + |sep|..], sep)
  }

  function DropTrailingEmpty(parts: seq<string>): (r: seq<string>)
    ensures r == [] || r[|r| - 1] != ""
    ensures |r| <= |parts| && r == parts[..|r|]
  {
    if parts != [] && parts[|parts| - 1] == "" then DropTrailingEmpty(parts[..|parts| - 1]) else parts
  }

  /**
   * String.split with a separator that matches only itself: when `sep` does not
   * occur the result is `[s]`, otherwise trailing empty pieces are removed.
   */
  function Split(s: string, sep: string): seq<string>
    requires |sep| > 0
  {
    var raw := SplitRaw(s, sep);
    if |raw| == 1 then raw else DropTrailingEmpty(raw)
  }

  /** String.join. */
  function Join(parts: seq<string>, sep: string): string
  {
    if parts == [] then ""
    else if |parts| == 1 then parts[0]
    else parts[0] + sep + Join(parts[1..], sep)
  }

  /** Character.isWhitespace. */
  predicate IsWhitespace(c: char)
  {
    c == ' ' || ('\t' <= c <= '\r') || ('\U{001C}' <= c <= '\U{001F}')
    || c == '\U{1680}' || ('\U{2000}' <= c <= '\U{2006}') || ('\U{2008}' <= c <= '\U{200A}')
    || c == '\U{2028}' || c == '\U{2029}' || c == '\U{205F}' || c == '\U{3000}'
  }

  /** StringUtils.isBlank: empty or whitespace only. */
  predicate IsBlank(s: string)
  {
    forall i :: 0 <= i < |s| ==> IsWhitespace(s[i])
  }

  /** The characters Java's `.` and `$` treat as line terminators. */
  predicate IsLineTerminator(c: char)
  {
    c == '\n' || c == '\r' || c == '\U{0085}' || c == '\U{2028}' || c == '\U{2029}'
  }

  // ---------------------------------------------------------------------------
  // Properties of split and join
  // ---------------------------------------------------------------------------

  /** No occurrence of `sep` can start at a character different from its first one. */
  lemma NoOccurrenceWithoutFirstChar(a: string, sep: string)
    requires |sep| > 0
    requires forall j :: 0 <= j < |a| ==> a[j] != sep[0]
    ensures IndexOf(a, sep) == -1
  {
    forall i | 0 <= i && i + |sep| <= |a|
      ensures !OccursAt(a, sep, i)
    {
      assert a[i..i + |sep|][0] == a[i];
    }
  }

  /** In `a + sep + b`, if `a` lacks the first character of `sep`, the first occurrence is right after `a`. */
  lemma FirstOccurrenceAfterClean(a: string, sep: string, b: string)
    requires |sep| > 0
    requires forall j :: 0 <= j < |a| ==> a[j] != sep[0]
    ensures IndexOf(a + sep + b, sep) == |a|
  {
    var s := a + sep + b;
    assert s[|a|..|a| + |sep|] == sep;
    assert OccursAt(s, sep, |a|);
    forall i | 0 <= i < |a|
      ensures !OccursAt(s, sep, i)
    {
      if i + |sep| <= |s| {
        assert s[i..i + |sep|][0] == s[i] == a[i];
      }
    }
  }

  /** Splitting a join undoes it when no part contains the separator's first character. */
  lemma {:induction false} SplitRawJoin(parts: seq<string>, sep: string)
    requires |sep| > 0 && |parts| >= 1
    requires forall i, j :: 0 <= i < |parts| && 0 <= j < |parts[i]| ==> parts[i][j] != sep[0]
    ensures SplitRaw(Join(parts, sep), sep) == parts
    decreases |parts|
  {
    if |parts| == 1 {
      NoOccurrenceWithoutFirstChar(parts[0], sep);
    } else {
      var rest := Join(parts[1..], sep);
      FirstOccurrenceAfterClean(parts[0], sep, rest);
      var s := parts[0] + sep + rest;
      assert s[..|parts[0]|] == parts[0];
      assert s[|parts[0]| + |sep|..] == rest;
      SplitRawJoin(parts[1..], sep);
    }
  }

  /** No piece that split produces contains the separator. */
  lemma {:induction false} SplitRawPiecesClean(s: string, sep: string)
    requires |sep| > 0
    ensures forall k :: 0 <= k < |SplitRaw(s, sep)| ==> IndexOf(SplitRaw(s, sep)[k], sep) == -1
    decreases |s|
  {
    var i := IndexOf(s, sep);
    if i >= 0 {
      var head := s[..i];
      forall j | 0 <= j && j + |sep| <= |head|
        ensures !OccursAt(head, sep, j)
      {
        assert j < i && !OccursAt(s, sep, j);
        assert head[j..j + |sep|] == s[j..j + |sep|];
      }
      SplitRawPiecesClean(s[i + |sep|..], sep);
    }
  }

  /** The pieces of Split are pieces of SplitRaw, so they do not contain the separator either. */
  lemma SplitPiecesClean(s: string, sep: string)
    requires |sep| > 0
    ensures forall k :: 0 <= k < |Split(s, sep)| ==> IndexOf(Split(s, sep)[k], sep) == -1
  {
    SplitRawPiecesClean(s, sep);
  }

  /** A one-character separator absent from a piece means the character is absent. */
  lemma CleanOfSingleChar(a: string, c: char)
    requires IndexOf(a, [c]) == -1
    ensures forall j :: 0 <= j < |a| ==> a[j] != c
  {
    forall j | 0 <= j < |a|
      ensures a[j] != c
    {
      assert !OccursAt(a, [c], j);
      assert a[j..j + 1] == [a[j]];
    }
  }

  /** Split returns at least two pieces only when the last one is not empty. */
  lemma SplitLastNonEmpty(s: string, sep: string)
    requires |sep| > 0
    ensures |Split(s, sep)| >= 2 ==> Split(s, sep)[|Split(s, sep)| - 1] != ""
  {
  }

  /**
   * Joining the result of Split back with a separator and splitting it again
   * gives back the same pieces, for any separator whose first character the
   * pieces lack; an empty list comes back as the single empty piece.
   */
  lemma SplitJoinSplit(parts: seq<string>, sep: string)
    requires |sep| > 0
    requires forall i, j :: 0 <= i < |parts| && 0 <= j < |parts[i]| ==> parts[i][j] != sep[0]
    requires |parts| >= 2 ==> parts[|parts| - 1] != ""
    ensures Split(Join(parts, sep), sep) == (if parts == [] then [""] else parts)
  {
    if parts == [] {
      NoOccurrenceWithoutFirstChar("", sep);
    } else {
      SplitRawJoin(parts, sep);
    }
  }
}
