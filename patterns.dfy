/**
 * The regular expressions the matcher recognises by their text: the four
 * fixed pattern bodies it ranks, and the `(?<name>body)` placeholder a stored
 * path segment is written as.
 */
module Patterns {
  import opened Faults
  import opened JavaStrings
  import JavaNumbers

  /** Body of a digits-only placeholder. */
  const DigitBody := "\\d+"
  /** Body of an alphanumeric placeholder. */
  const AlphaNumericBody := "[a-zA-Z0-9_]+"
  /** Body of a path wildcard: one whole segment. */
  const SegmentWildcardBody := "[^/]+"
  /** Body of a header or query-parameter wildcard, and of the legacy path wildcard. */
  const AnyBody := ".+"

  /** Java's `\w`: an ASCII letter, digit or underscore. */
  predicate IsWordChar(c: char)
  {
    ('a' <= c <= 'z') || ('A' <= c <= 'Z') || ('0' <= c <= '9') || c == '_'
  }

  /**
   * `s.matches(body)`: the four fixed bodies with Java's meaning (`\d` and
   * `[a-zA-Z0-9_]` are ASCII; `.` excludes line terminators); any other body is
   * a custom expression, decided by `custom`.
   */
  predicate FullMatch(body: string, s: string, custom: (string, string) -> bool)
  {
    if body == DigitBody then s != [] && forall i :: 0 <= i < |s| ==> JavaNumbers.IsDigit(s[i])
    else if body == AlphaNumericBody then s != [] && forall i :: 0 <= i < |s| ==> IsWordChar(s[i])
    else if body == SegmentWildcardBody then s != [] && forall i :: 0 <= i < |s| ==> s[i] != '/'
    else if body == AnyBody then s != [] && forall i :: 0 <= i < |s| ==> !IsLineTerminator(s[i])
    else custom(body, s)
  }

  /** The end of the run of word characters starting at `from`. */
  function WordRunEnd(s: string, from: nat): (r: nat)
    requires from <= |s|
    ensures from <= r <= |s|
    ensures forall i :: from <= i < r ==> IsWordChar(s[i])
    ensures r < |s| ==> !IsWordChar(s[r])
    decreases |s| - from
  {
    if from < |s| && IsWordChar(s[from]) then WordRunEnd(s, from + 1) else from
  }

  /** The texts Java's `$` may be followed by: nothing, or one final line terminator ("\r\n" counts as one). */
  predicate IsFinalTail(tail: string)
  {
    |tail| == 0
    || (|tail| == 1 && IsLineTerminator(tail[0]))
    || (|tail| == 2 && tail[0] == '\r' && tail[1] == '\n')
  }

  /** The index of the `)` that `\)$` matches at the end of `s`, or -1. */
  function ClosingIndex(s: string): (r: int)
    ensures r == -1 || (0 <= r < |s| && s[r] == ')' && IsFinalTail(s[r + 1..]))
  {
    var n := |s|;
    if n >= 1 && s[n - 1] == ')' then n - 1
    else if n >= 2 && s[n - 2] == ')' && IsLineTerminator(s[n - 1]) then n - 2
    else if n >= 3 && s[n - 3] == ')' && s[n - 2] == '\r' && s[n - 1] == '\n' then n - 3
    else -1
  }

  /** The only place `\)$` can match is the one ClosingIndex finds. */
  lemma ClosingIndexUnique(s: string, k: nat)
    requires k < |s| && s[k] == ')' && IsFinalTail(s[k + 1..])
    ensures ClosingIndex(s) == k
  {
    assert |s[k + 1..]| == |s| - k - 1;
    if k == |s| - 2 {
      assert s[|s| - 1] == s[k + 1..][0];
    } else if k == |s| - 3 {
      assert s[|s| - 2] == s[k + 1..][0] && s[|s| - 1] == s[k + 1..][1];
    }
  }

  /**
   * The body captured by `^\(\?\<\w+\>(.*)\)$` in a stored path segment: the
   * segment is `(?<`, a name of word characters, `>`, a body without line
   * terminators, and `)`, optionally followed by one final line terminator.
   */
  function PlaceholderBody(segment: string): Option<string>
  {
    if !StartsWith(segment, "(?<") then None
    else
      var n := WordRunEnd(segment, 3);
      if n == 3 || n == |segment| || segment[n] != '>' then None
      else
        var close := ClosingIndex(segment);
        if close < n + 1 then None
        else
          var body := segment[n + 1..close];
          if exists i :: 0 <= i < |body| && IsLineTerminator(body[i]) then None else Some(body)
  }

  /** A well-formed placeholder name: one or more word characters. */
  predicate IsName(name: string)
  {
    name != [] && forall i :: 0 <= i < |name| ==> IsWordChar(name[i])
  }

  /** A body the placeholder pattern can capture: no line terminators. */
  predicate IsBody(body: string)
  {
    forall i :: 0 <= i < |body| ==> !IsLineTerminator(body[i])
  }

  /** Writing a placeholder and reading it back gives the body. */
  lemma PlaceholderRoundTrip(name: string, body: string, tail: string)
    requires IsName(name) && IsBody(body) && IsFinalTail(tail)
    ensures PlaceholderBody("(?<" + name + ">" + body + ")" + tail) == Some(body)
  {
    var s := "(?<" + name + ">" + body + ")" + tail;
    var n := 3 + |name|;
    assert s[..3] == "(?<";
    assert forall i :: 3 <= i < n ==> s[i] == name[i - 3];
    assert s[n] == '>';
    WordRunStops(s, 3, n);
    var close := n + 1 + |body|;
    assert s[close] == ')' && s[close + 1..] == tail;
    ClosingIndexUnique(s, close);
    assert s[n + 1..close] == body;
  }

  lemma {:induction false} WordRunStops(s: string, from: nat, n: nat)
    requires from <= n < |s|
    requires forall i :: from <= i < n ==> IsWordChar(s[i])
    requires !IsWordChar(s[n])
    ensures WordRunEnd(s, from) == n
    decreases n - from
  {
    if from < n {
      WordRunStops(s, from + 1, n);
    }
  }

  /** Every body read from a segment came from a segment of placeholder shape. */
  lemma PlaceholderShape(segment: string)
    requires PlaceholderBody(segment).Some?
    ensures IsBody(PlaceholderBody(segment).value)
    ensures exists name, tail ::
      IsName(name) && IsFinalTail(tail) && segment == "(?<" + name + ">" + PlaceholderBody(segment).value + ")" + tail
  {
    var n := WordRunEnd(segment, 3);
    var close := ClosingIndex(segment);
    var name, body, tail := segment[3..n], segment[n + 1..close], segment[close + 1..];
    assert segment == segment[..3] + name + [segment[n]] + body + [segment[close]] + tail;
    assert IsName(name);
  }
}
