/**
 * The tokens of the response-body template and the scan that finds them: one
 * pass per token pattern, each a `Matcher.find()` loop over the payload as it
 * stood when the pass began.
 */
module TemplateSyntax {
  import opened Faults
  import opened JavaStrings
  import opened JavaNumbers
  import Patterns

  datatype Keyword = Lower | Upper | Alpha | AlphaNumeric | Characters | Select | Digits | Number | Decimal

  function Name(k: Keyword): string
  {
    match k
    case Lower => "lower"
    case Upper => "upper"
    case Alpha => "alpha"
    case AlphaNumeric => "alphanumeric"
    case Characters => "characters"
    case Select => "select"
    case Digits => "digits"
    case Number => "number"
    case Decimal => "decimal"
  }

  /**
   * One token pattern: the keyword, and whether it takes a range. A character
   * keyword has an exact-length pattern `{k(n)}` and a range pattern
   * `{k(a,b)}`; `number` has only `{number(a,b)}`; `decimal` has
   * `{decimal(x,y,places)}` and `{decimal(x,y,min,max)}`.
   */
  datatype Pass = Pass(keyword: Keyword, ranged: bool)

  /** The patterns in the order the expander applies them. */
  const Passes: seq<Pass> := [
    Pass(Lower, false), Pass(Lower, true),
    Pass(Upper, false), Pass(Upper, true),
    Pass(Alpha, false), Pass(Alpha, true),
    Pass(AlphaNumeric, false), Pass(AlphaNumeric, true),
    Pass(Characters, false), Pass(Characters, true),
    Pass(Select, false), Pass(Select, true),
    Pass(Digits, false), Pass(Digits, true),
    Pass(Number, true),
    Pass(Decimal, false), Pass(Decimal, true)
  ]

  /** The capture groups inside the parentheses: `\d+`, `-?\d+`, or `-?\d*\.?\d*`. */
  datatype ArgKind = Count | Signed | Fraction

  function ArgKinds(p: Pass): (r: seq<ArgKind>)
    ensures r != []
  {
    match p.keyword
    case Number => [Signed, Signed]
    case Decimal => if p.ranged then [Fraction, Fraction, Count, Count] else [Fraction, Fraction, Count]
    case _ => if p.ranged then [Count, Count] else [Count]
  }

  /** What a group of the kind can capture. */
  predicate IsArgText(kind: ArgKind, t: string)
  {
    match kind
    case Count => t != [] && AllDigits(t)
    case Signed => t != [] && (if t[0] == '-' then t[1..] != [] && AllDigits(t[1..]) else AllDigits(t))
    case Fraction => IsDecimalText(t)
  }

  /**
   * Where a group of the kind starting at `j` ends. Every group is followed by
   * a character it cannot contain (`,` or `)`), so the greedy reading is the
   * only one the whole pattern can use.
   */
  function ArgEnd(kind: ArgKind, s: string, j: nat): (r: Option<nat>)
    requires j <= |s|
    ensures r.Some? ==> j <= r.value <= |s| && IsArgText(kind, s[j..r.value])
    ensures r.Some? && kind != Fraction ==> j < r.value
  {
    match kind
    case Count =>
      var d := DigitRunEnd(s, j);
      if d > j then Some(d) else None
    case Signed =>
      var a := if j < |s| && s[j] == '-' then j + 1 else j;
      var d := DigitRunEnd(s, a);
      if d > a then
        assert s[j..d][1..] == s[j + 1..d];
        Some(d)
      else None
    case Fraction => Some(DecimalRunEnd(s, j))
  }

  lemma ArgsCons(kinds: seq<ArgKind>, first: string, rest: seq<string>)
    requires |kinds| == |rest| + 1 && IsArgText(kinds[0], first)
    requires forall k :: 0 <= k < |rest| ==> IsArgText(kinds[1..][k], rest[k])
    ensures forall k :: 0 <= k < |kinds| ==> IsArgText(kinds[k], ([first] + rest)[k])
  {
    forall k | 0 <= k < |kinds|
      ensures IsArgText(kinds[k], ([first] + rest)[k])
    {
      if k > 0 {
        assert kinds[k] == kinds[1..][k - 1] && ([first] + rest)[k] == rest[k - 1];
      }
    }
  }

  /**
   * The groups `kinds` from `j` on, separated by commas and closed by `)}`:
   * the end of the match and the text of each group.
   */
  function ArgsAt(kinds: seq<ArgKind>, s: string, j: nat): (r: Option<(nat, seq<string>)>)
    requires kinds != [] && j <= |s|
    ensures r.Some? ==> j < r.value.0 <= |s| && |r.value.1| == |kinds|
    ensures r.Some? ==> forall k :: 0 <= k < |kinds| ==> IsArgText(kinds[k], r.value.1[k])
    ensures r.Some? ==> r.value.0 >= 2 && s[r.value.0 - 2] == ')' && s[r.value.0 - 1] == '}'
    decreases |kinds|
  {
    match ArgEnd(kinds[0], s, j)
    case None => None
    case Some(e) =>
      if |kinds| == 1 then
        if e + 2 <= |s| && s[e] == ')' && s[e + 1] == '}' then Some((e + 2, [s[j..e]])) else None
      else if e < |s| && s[e] == ',' then
        var more := ArgsAt(kinds[1..], s, e + 1);
        if more.None? then None
        else
          var (end, rest) := more.value;
          ArgsCons(kinds, s[j..e], rest);
          Some((end, [s[j..e]] + rest))
      else None
  }

  /** A token found by a pass: where it starts and ends, the character set of a select token, and the argument texts. */
  datatype Token = Token(start: nat, end: nat, chosen: string, args: seq<string>)

  /** What a token of the pass carries. */
  predicate WellFormed(p: Pass, t: Token)
  {
    && |t.args| == |ArgKinds(p)|
    && (forall k :: 0 <= k < |t.args| ==> IsArgText(ArgKinds(p)[k], t.args[k]))
    && (p.keyword == Select ==> t.chosen != [])
  }

  /** The characters the select pattern's class `[\w!@#$%^&*()\-+=`~{}\[\]|\\;:",.'?/<>]` admits. */
  predicate IsSelectChar(c: char)
  {
    Patterns.IsWordChar(c) || c in "!@#$%^&*()-+=`~{}[]|\\;:\",.'?/<>"
  }

  function SelectRunEnd(s: string, from: nat): (r: nat)
    requires from <= |s|
    ensures from <= r <= |s|
    decreases |s| - from
  {
    if from < |s| && IsSelectChar(s[from]) then SelectRunEnd(s, from + 1) else from
  }

  const SelectOpen := "{select["

  /** The text before the groups of a pattern other than select. */
  function Opening(k: Keyword): string
  {
    "{" + Name(k) + "("
  }

  /** The match of the pass's pattern that starts at `i`, if any. */
  function MatchAt(p: Pass, s: string, i: nat): (r: Option<Token>)
    requires i <= |s|
    ensures r.Some? ==> r.value.start == i < r.value.end <= |s| && WellFormed(p, r.value)
    ensures r.Some? ==> s[i] == '{' && s[r.value.end - 1] == '}'
  {
    if p.keyword == Select then
      if !OccursAt(s, SelectOpen, i) then None
      else
        assert s[i] == SelectOpen[0];
        SelectFrom(p, s, i, SelectRunEnd(s, i + |SelectOpen|))
    else
      var open := Opening(p.keyword);
      if !OccursAt(s, open, i) then None
      else
        assert s[i] == open[0];
        match ArgsAt(ArgKinds(p), s, i + |open|)
        case None => None
        case Some((end, args)) => Some(Token(i, end, "", args))
  }

  /**
   * The backtracking of the greedy class in the select pattern: the class's
   * run is given back one character at a time, from its end `e`, until the
   * rest of the pattern matches.
   */
  function SelectFrom(p: Pass, s: string, i: nat, e: nat): (r: Option<Token>)
    requires OccursAt(s, SelectOpen, i) && e <= |s|
    ensures r.Some? ==> r.value.start == i < r.value.end <= |s| && WellFormed(p, r.value)
    ensures r.Some? ==> s[r.value.end - 1] == '}'
    decreases e
  {
    var g := i + |SelectOpen|;
    if e <= g then None
    else
      var groups := if e + 2 <= |s| && s[e] == ']' && s[e + 1] == '(' then ArgsAt(ArgKinds(p), s, e + 2) else None;
      match groups
      case Some((end, args)) => Some(Token(i, end, s[g..e], args))
      case None => SelectFrom(p, s, i, e - 1)
  }

  /** `Matcher.find()` from `from`: the match at the first position that has one. */
  function Find(p: Pass, s: string, from: nat): (r: Option<Token>)
    requires from <= |s|
    ensures r.Some? ==> from <= r.value.start < r.value.end <= |s| && MatchAt(p, s, r.value.start) == r
    decreases |s| - from
  {
    match MatchAt(p, s, from)
    case Some(t) => Some(t)
    case None => if from == |s| then None else Find(p, s, from + 1)
  }

  /** `find()` returns the match at the first position that has one, and nothing when no position has one. */
  lemma {:induction false} FindIsFirst(p: Pass, s: string, from: nat)
    requires from <= |s|
    ensures Find(p, s, from).Some? ==> forall i :: from <= i < Find(p, s, from).value.start ==> MatchAt(p, s, i).None?
    ensures Find(p, s, from).None? ==> forall i :: from <= i <= |s| ==> MatchAt(p, s, i).None?
    decreases |s| - from
  {
    var m := MatchAt(p, s, from);
    if m.None? && from < |s| {
      var f := Find(p, s, from);
      assert f == Find(p, s, from + 1);
      FindIsFirst(p, s, from + 1);
      forall i | from <= i && (if f.Some? then i < f.value.start else i <= |s|)
        ensures MatchAt(p, s, i).None?
      {
        if i == from {
          assert MatchAt(p, s, i) == m;
        }
      }
    }
  }

  /** The matches successive `find()` calls return, each search starting where the previous match ended. */
  function Tokens(p: Pass, s: string, from: nat): (r: seq<Token>)
    requires from <= |s|
    ensures forall k :: 0 <= k < |r| ==> from <= r[k].start < r[k].end <= |s| && WellFormed(p, r[k])
    ensures forall k :: 0 <= k < |r| - 1 ==> r[k].end <= r[k + 1].start
    decreases |s| - from
  {
    match Find(p, s, from)
    case None => []
    case Some(t) => [t] + Tokens(p, s, t.end)
  }

  /** The text of a token, `matcher.group()`. */
  function Text(s: string, t: Token): string
    requires t.start <= t.end <= |s|
  {
    s[t.start..t.end]
  }

  function Texts(s: string, ts: seq<Token>): (r: seq<string>)
    requires forall k :: 0 <= k < |ts| ==> ts[k].start <= ts[k].end <= |s|
    ensures |r| == |ts| && forall k :: 0 <= k < |ts| ==> r[k] == Text(s, ts[k])
  {
    seq(|ts|, k requires 0 <= k < |ts| => Text(s, ts[k]))
  }

  /** A pass finds nothing in text without `{`. */
  lemma {:induction false} NoBraceNoTokens(p: Pass, s: string, from: nat)
    requires from <= |s|
    requires forall i :: from <= i < |s| ==> s[i] != '{'
    ensures Find(p, s, from) == None && Tokens(p, s, from) == []
    decreases |s| - from
  {
    if from < |s| {
      NoBraceNoTokens(p, s, from + 1);
    }
  }
}
