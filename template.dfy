/**
 * `replaceGeneratedValues`: the response-body template expander. Each of the
 * seventeen patterns is a pass; a pass scans the payload as it stood when the
 * pass began and, for each token found in turn, replaces the first occurrence
 * of the token's text in the current payload with a generated value.
 */
module Template {
  import opened Faults
  import opened JavaStrings
  import opened JavaNumbers
  import opened Generators
  import opened TemplateSyntax

  /** The characters a token of a character pass is filled from. */
  function CharSet(p: Pass, t: Token): set<char>
  {
    match p.keyword
    case Lower => LowerSet
    case Upper => UpperSet
    case Alpha => AlphaSet
    case AlphaNumeric => AlphaNumericSet
    case Characters => CharacterSet
    case Select => set i | 0 <= i < |t.chosen| :: t.chosen[i]
    case Digits => DigitSet
    case _ => {}
  }

  /** A token of a character pass always has characters to draw from. */
  lemma CharSetNonEmpty(p: Pass, t: Token)
    requires WellFormed(p, t) && p.keyword != Number && p.keyword != Decimal
    ensures CharSet(p, t) != {}
  {
    match p.keyword
    case Lower => assert 'a' in LowerSet;
    case Upper => assert 'A' in UpperSet;
    case Alpha => assert 'a' in AlphaSet;
    case AlphaNumeric => assert 'a' in AlphaNumericSet;
    case Characters => assert 'a' in CharacterSet;
    case Select => assert t.chosen[0] in CharSet(p, t);
    case Digits => assert '0' in DigitSet;
  }

  /**
   * The two integer arguments, read with Integer.valueOf, the first before the
   * second; a one-argument pattern uses its argument for both ends.
   */
  function Range(p: Pass, t: Token): (r: Result<(int, int)>)
    requires WellFormed(p, t) && p.keyword != Decimal
    ensures r.Success? ==> IsInt(r.value.0) && IsInt(r.value.1)
    ensures r.Failure? ==> r.error == Runtime(NumberFormat)
  {
    match ParseInt(t.args[0])
    case Failure(e) => Failure(e)
    case Success(a) =>
      if |t.args| == 1 then Success((a, a))
      else
        match ParseInt(t.args[1])
        case Failure(e) => Failure(e)
        case Success(b) => Success((a, b))
  }

  /**
   * The arguments of a decimal token: the two bounds read with Double.valueOf,
   * then the decimal places read with Integer.valueOf (a single places
   * argument is both the minimum and the maximum).
   */
  function DecimalArgs(p: Pass, t: Token): (r: Result<(real, real, int, int)>)
    requires WellFormed(p, t) && p.keyword == Decimal
    ensures r.Failure? ==> r.error == Runtime(NumberFormat)
  {
    match ParseDecimal(t.args[0])
    case Failure(e) => Failure(e)
    case Success(x) =>
      match ParseDecimal(t.args[1])
      case Failure(e) => Failure(e)
      case Success(y) =>
        match ParseInt(t.args[2])
        case Failure(e) => Failure(e)
        case Success(places) =>
          if |t.args| == 3 then Success((x, y, places, places))
          else
            match ParseInt(t.args[3])
            case Failure(e) => Failure(e)
            case Success(maxPlaces) => Success((x, y, places, maxPlaces))
  }

  /** What `String.valueOf(getRandomIntRangeInclusive(a, b))` can give once the arguments are read. */
  ghost predicate NumberDraws(range: Result<(int, int)>, d: Result<string>)
  {
    match range
    case Failure(e) => d == Failure(e)
    case Success((a, b)) =>
      if Wrap(b - a + 1) <= 0 then d == Failure(Runtime(IllegalArgument))
      else d.Success? && exists v :: IntDrawable(a, b, v) && d.value == IntToString(v)
  }

  /** What `getRandomDecimalRangeInclusive(x, y, min, max)` can give once the arguments are read. */
  ghost predicate DecimalDraws(args: Result<(real, real, int, int)>, d: Result<string>)
  {
    match args
    case Failure(e) => d == Failure(e)
    case Success((x, y, minPlaces, maxPlaces)) =>
      if DecimalPlacesFault(minPlaces, maxPlaces).Some? then d == Failure(DecimalPlacesFault(minPlaces, maxPlaces).value)
      else if y - x + 1.0 <= 0.0 then d == Failure(Runtime(IllegalArgument))
      else DecimalOutcome(d)
  }

  /** What `getRandomCharacters(chars, a, b)` can give once the arguments are read. */
  ghost predicate CharactersDraws(range: Result<(int, int)>, chars: set<char>, d: Result<string>)
  {
    match range
    case Failure(e) => d == Failure(e)
    case Success((a, b)) =>
      if Wrap(b - a + 1) <= 0 then d == Failure(Runtime(IllegalArgument))
      else d.Success? && LengthDrawable(a, b, |d.value|) && forall i :: 0 <= i < |d.value| ==> d.value[i] in chars
  }

  /** `d` is an outcome the generators can give for the token: a replacement text, or the exception raised. */
  ghost predicate Draws(p: Pass, t: Token, d: Result<string>)
    requires WellFormed(p, t)
  {
    match p.keyword
    case Number => NumberDraws(Range(p, t), d)
    case Decimal => DecimalDraws(DecimalArgs(p, t), d)
    case _ => CharactersDraws(Range(p, t), CharSet(p, t), d)
  }

  /** The generator call the pass makes for one token. */
  method Replacement(p: Pass, t: Token) returns (d: Result<string>)
    requires WellFormed(p, t)
    ensures Draws(p, t, d)
  {
    if p.keyword == Number {
      d := NumberReplacement(p, t);
    } else if p.keyword == Decimal {
      d := DecimalReplacement(p, t);
    } else {
      d := CharactersReplacement(p, t);
    }
  }

  /** `String.valueOf(getRandomIntRangeInclusive(a, b))` for a number token. */
  method NumberReplacement(p: Pass, t: Token) returns (d: Result<string>)
    requires WellFormed(p, t) && p.keyword == Number
    ensures NumberDraws(Range(p, t), d)
  {
    var range := Range(p, t);
    if range.Failure? {
      return Failure(range.error);
    }
    var (a, b) := range.value;
    var n := RandomIntRangeInclusive(a, b);
    if n.Failure? {
      return Failure(n.error);
    }
    d := Success(IntToString(n.value));
    assert IntDrawable(a, b, n.value) && d.value == IntToString(n.value);
  }

  /** `getRandomDecimalRangeInclusive(x, y, min, max)` for a decimal token. */
  method DecimalReplacement(p: Pass, t: Token) returns (d: Result<string>)
    requires WellFormed(p, t) && p.keyword == Decimal
    ensures DecimalDraws(DecimalArgs(p, t), d)
  {
    var parsed := DecimalArgs(p, t);
    if parsed.Failure? {
      return Failure(parsed.error);
    }
    var (x, y, minPlaces, maxPlaces) := parsed.value;
    d := RandomDecimalRangeInclusive(x, y, minPlaces, maxPlaces);
  }

  /** `getRandomCharacters(set, a, b)` for a token of a character pass. */
  method CharactersReplacement(p: Pass, t: Token) returns (d: Result<string>)
    requires WellFormed(p, t) && p.keyword != Number && p.keyword != Decimal
    ensures CharactersDraws(Range(p, t), CharSet(p, t), d)
  {
    var range := Range(p, t);
    if range.Failure? {
      return Failure(range.error);
    }
    var (a, b) := range.value;
    CharSetNonEmpty(p, t);
    d := RandomCharacters(CharSet(p, t), a, b);
  }

  /**
   * The steps `ps` applied in order to `s`, with `dss` holding the record of
   * each step that ran, stopping at the first exception; None when the records
   * do not fit the steps.
   */
  function Chain<P, D>(ps: seq<P>, s: string, dss: seq<D>, step: (P, string, D) -> Option<Result<string>>): Option<Result<string>>
    decreases |ps|
  {
    if ps == [] then (if dss == [] then Some(Success(s)) else None)
    else if dss == [] then None
    else
      match step(ps[0], s, dss[0])
      case None => None
      case Some(Failure(e)) => if |dss| == 1 then Some(Failure(e)) else None
      case Some(Success(t)) => Chain(ps[1..], t, dss[1..], step)
  }

  /** Running a prefix of the steps that succeeds, then the rest from where it left the payload. */
  lemma {:induction false} ChainSplit<P, D>(ps: seq<P>, i: nat, s: string, first: seq<D>, rest: seq<D>, mid: string,
                                          step: (P, string, D) -> Option<Result<string>>)
    requires i <= |ps| && |first| == i
    requires Chain(ps[..i], s, first, step) == Some(Success(mid))
    ensures Chain(ps, s, first + rest, step) == Chain(ps[i..], mid, rest, step)
    decreases i
  {
    if i == 0 {
      assert first + rest == rest && ps[0..] == ps;
    } else {
      assert ps[..i][0] == ps[0] && ps[..i][1..] == ps[1..][..i - 1];
      assert (first + rest)[0] == first[0] && (first + rest)[1..] == first[1..] + rest;
      var t := step(ps[0], s, first[0]).value.value;
      assert Chain(ps[1..][..i - 1], t, first[1..], step) == Some(Success(mid));
      ChainSplit(ps[1..], i - 1, t, first[1..], rest, mid, step);
      assert ps[1..][i - 1..] == ps[i..];
    }
  }

  /** One more step after a prefix that succeeded: its failure ends the chain, its success extends the prefix. */
  lemma ChainStep<P, D>(ps: seq<P>, i: nat, s: string, first: seq<D>, d: D, mid: string, out: Result<string>,
                        step: (P, string, D) -> Option<Result<string>>)
    requires i < |ps| && |first| == i
    requires Chain(ps[..i], s, first, step) == Some(Success(mid))
    requires step(ps[i], mid, d) == Some(out)
    ensures out.Success? ==> Chain(ps[..i + 1], s, first + [d], step) == Some(out)
    ensures out.Failure? ==> Chain(ps, s, first + [d], step) == Some(out)
  {
    assert ps[..i + 1][..i] == ps[..i] && ps[..i + 1][i..] == [ps[i]];
    ChainSplit(ps[..i + 1], i, s, first, [d], mid, step);
    var one: seq<D> := [d];
    assert one[1..] == [];
    if out.Failure? {
      ChainSplit(ps, i, s, first, [d], mid, step);
    }
  }

  /**
   * One token's step of a pass over `s`: the generators' outcome `d` for it,
   * and then `payload = payload.replaceFirst(quote(text), quoteReplacement(d))`
   * on the current payload, or the exception `d` raised. None when `d` is not
   * an outcome the generators can give for the token.
   */
  ghost function TokenOutcome(p: Pass, s: string, t: Token, current: string, d: Result<string>): Option<Result<string>>
  {
    if !(t.start <= t.end <= |s| && WellFormed(p, t) && Draws(p, t, d)) then None
    else
      match d
      case Failure(e) => Some(Failure(e))
      case Success(v) => Some(Success(ReplaceFirst(current, s[t.start..t.end], v)))
  }

  ghost function TokenStep(p: Pass, s: string): (Token, string, Result<string>) -> Option<Result<string>>
  {
    (t, current, d) => TokenOutcome(p, s, t, current, d)
  }

  /**
   * The outcome of one pass over `s` when its generators gave `ds`, one per
   * token up to the first exception; None when `ds` is not a record they can
   * produce.
   */
  ghost function PassOutcome(p: Pass, s: string, ds: seq<Result<string>>): Option<Result<string>>
  {
    Chain(Tokens(p, s, 0), s, ds, TokenStep(p, s))
  }

  /** The token `find()` returns next is the next of the pass's tokens. */
  lemma NextToken(p: Pass, s: string, ts: seq<Token>, i: nat, from: nat)
    requires from <= |s| && i <= |ts| && ts[i..] == Tokens(p, s, from) && Find(p, s, from).Some?
    ensures i < |ts| && ts[i] == Find(p, s, from).value
    ensures ts[i + 1..] == Tokens(p, s, Find(p, s, from).value.end)
  {
    assert ts[i..] == [Find(p, s, from).value] + Tokens(p, s, Find(p, s, from).value.end);
    assert ts[i + 1..] == ts[i..][1..];
  }

  /** A drawn outcome for a token of the pass is a step: the exception, or the first occurrence replaced. */
  lemma TokenStepOf(p: Pass, s: string, t: Token, current: string, d: Result<string>)
    requires t.start <= t.end <= |s| && WellFormed(p, t) && Draws(p, t, d)
    ensures TokenStep(p, s)(t, current, d) ==
      Some(if d.Failure? then Failure(d.error) else Success(ReplaceFirst(current, s[t.start..t.end], d.value)))
  {
  }

  /** One `while (matcher.find())` loop of the expander. */
  method RunPass(p: Pass, payload: string) returns (r: Result<string>, ghost ds: seq<Result<string>>)
    ensures PassOutcome(p, payload, ds) == Some(r)
  {
    ghost var ts := Tokens(p, payload, 0);
    var current := payload;
    var from := 0;
    var found := Find(p, payload, from);
    ds := [];
    while found.Some?
      invariant from <= |payload| && found == Find(p, payload, from)
      invariant |ds| <= |ts| && ts[|ds|..] == Tokens(p, payload, from)
      invariant Chain(ts[..|ds|], payload, ds, TokenStep(p, payload)) == Some(Success(current))
      decreases |payload| - from
    {
      var t := found.value;
      NextToken(p, payload, ts, |ds|, from);
      var toReplace := payload[t.start..t.end];
      var d := Replacement(p, t);
      var out := if d.Failure? then Failure(d.error) else Success(ReplaceFirst(current, toReplace, d.value));
      TokenStepOf(p, payload, t, current, d);
      ChainStep(ts, |ds|, payload, ds, d, current, out, TokenStep(p, payload));
      ds := ds + [d];
      if d.Failure? {
        return out, ds;
      }
      current := out.value;
      from := t.end;
      found := Find(p, payload, from);
    }
    assert ts[..|ds|] == ts;
    r := Success(current);
  }

  /** `r` is a result `replaceGeneratedValues` can give for `s`, the generators having given `dss`. */
  ghost predicate Expansion(s: string, dss: seq<seq<Result<string>>>, r: Result<string>)
  {
    Chain(Passes, s, dss, PassOutcome) == Some(r)
  }

  /** `replaceGeneratedValues`: the seventeen passes in order, stopping at the first exception. */
  method Expand(payload: string) returns (r: Result<string>, ghost dss: seq<seq<Result<string>>>)
    ensures Expansion(payload, dss, r)
  {
    var current := payload;
    dss := [];
    for i := 0 to |Passes|
      invariant |dss| == i && Chain(Passes[..i], payload, dss, PassOutcome) == Some(Success(current))
    {
      var step, ds := RunPass(Passes[i], current);
      ChainStep(Passes, i, payload, dss, ds, current, step, PassOutcome);
      if step.Failure? {
        return step, dss + [ds];
      }
      dss := dss + [ds];
      current := step.value;
    }
    assert Passes[..|Passes|] == Passes;
    r := Success(current);
  }
}
