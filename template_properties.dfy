/**
 * What the response-body template expander promises: a pass replaces each
 * token it finds once, the generators keep to the ranges the tokens give, and
 * a payload without tokens comes back unchanged.
 */
module TemplateProperties {
  import opened Faults
  import opened JavaStrings
  import opened JavaNumbers
  import opened Generators
  import opened TemplateSyntax
  import opened Template

  /** A chain that completes ran every step; one that failed stopped after one of them. */
  lemma {:induction false} ChainShape<P, D>(ps: seq<P>, s: string, dss: seq<D>, step: (P, string, D) -> Option<Result<string>>)
    ensures Chain(ps, s, dss, step).Some? && Chain(ps, s, dss, step).value.Success? ==> |dss| == |ps|
    ensures Chain(ps, s, dss, step).Some? && Chain(ps, s, dss, step).value.Failure? ==> 1 <= |dss| <= |ps|
    decreases |ps|
  {
    if ps != [] && dss != [] {
      match step(ps[0], s, dss[0])
      case None =>
      case Some(Failure(e)) =>
      case Some(Success(t)) => ChainShape(ps[1..], t, dss[1..], step);
    }
  }

  /** A chain completes only when every record it used is one its steps complete with. */
  lemma {:induction false} ChainRecords<P, D>(ps: seq<P>, s: string, dss: seq<D>, step: (P, string, D) -> Option<Result<string>>,
                                            ok: D -> bool)
    requires forall q, t, d :: step(q, t, d).Some? && step(q, t, d).value.Success? ==> ok(d)
    ensures Chain(ps, s, dss, step).Some? && Chain(ps, s, dss, step).value.Success? ==>
      forall k :: 0 <= k < |dss| ==> ok(dss[k])
    decreases |ps|
  {
    if ps != [] && dss != [] {
      match step(ps[0], s, dss[0])
      case None =>
      case Some(Failure(e)) =>
      case Some(Success(t)) =>
        ChainRecords(ps[1..], t, dss[1..], step, ok);
        var c := Chain(ps, s, dss, step);
        if c.Some? && c.value.Success? {
          forall k | 0 <= k < |dss|
            ensures ok(dss[k])
          {
            if k > 0 {
              assert dss[k] == dss[1..][k - 1];
            }
          }
        }
    }
  }

  /**
   * Steps that all leave `s` as it is when given the record `idle` and accept
   * no other record: the chain completes exactly on all-idle records.
   */
  lemma {:induction false} ChainIdle<P, D>(ps: seq<P>, s: string, dss: seq<D>, idle: D,
                                              step: (P, string, D) -> Option<Result<string>>, r: Result<string>)
    requires forall k, d :: 0 <= k < |ps| ==> step(ps[k], s, d) == (if d == idle then Some(Success(s)) else None)
    ensures Chain(ps, s, dss, step) == Some(r) <==>
      r == Success(s) && |dss| == |ps| && forall k :: 0 <= k < |dss| ==> dss[k] == idle
    decreases |ps|
  {
    if ps != [] && dss != [] {
      assert step(ps[0], s, dss[0]) == (if dss[0] == idle then Some(Success(s)) else None);
      forall k, d | 0 <= k < |ps[1..]|
        ensures step(ps[1..][k], s, d) == (if d == idle then Some(Success(s)) else None)
      {
        assert ps[1..][k] == ps[k + 1];
      }
      ChainIdle(ps[1..], s, dss[1..], idle, step, r);
      if dss[0] == idle {
        assert forall k :: 1 <= k < |dss| ==> dss[k] == dss[1..][k - 1];
      }
    }
  }

  /**
   * A pass that completes drew once for every token it found, and every draw
   * succeeded; a pass that failed drew at most once per token.
   */
  lemma PassShape(p: Pass, s: string, ds: seq<Result<string>>)
    ensures PassOutcome(p, s, ds).Some? && PassOutcome(p, s, ds).value.Success? ==>
      |ds| == |Tokens(p, s, 0)| && forall k :: 0 <= k < |ds| ==> ds[k].Success?
    ensures PassOutcome(p, s, ds).Some? && PassOutcome(p, s, ds).value.Failure? ==> 1 <= |ds| <= |Tokens(p, s, 0)|
  {
    var step := TokenStep(p, s);
    ChainShape(Tokens(p, s, 0), s, ds, step);
    forall q, t, d | step(q, t, d).Some? && step(q, t, d).value.Success?
      ensures d.Success?
    {
      assert step(q, t, d) == TokenOutcome(p, s, q, t, d);
    }
    ChainRecords(Tokens(p, s, 0), s, ds, step, (d: Result<string>) => d.Success?);
  }

  /** A pass that finds no token draws nothing and leaves the payload as it is. */
  lemma IdlePass(p: Pass, s: string, ds: seq<Result<string>>)
    requires Tokens(p, s, 0) == []
    ensures PassOutcome(p, s, ds) == if ds == [] then Some(Success(s)) else None
  {
  }

  /** A payload with no `{` holds no token: it is returned unchanged, and no generator is called. */
  lemma TemplateFree(s: string, dss: seq<seq<Result<string>>>, r: Result<string>)
    requires forall i :: 0 <= i < |s| ==> s[i] != '{'
    ensures Expansion(s, dss, r) <==> r == Success(s) && |dss| == |Passes| && forall k :: 0 <= k < |dss| ==> dss[k] == []
  {
    forall k, ds | 0 <= k < |Passes|
      ensures PassOutcome(Passes[k], s, ds) == if ds == [] then Some(Success(s)) else None
    {
      NoBraceNoTokens(Passes[k], s, 0);
      IdlePass(Passes[k], s, ds);
    }
    ChainIdle(Passes, s, dss, [], PassOutcome, r);
  }

  /**
   * `{number(a,b)}` with an ordinary range is replaced by the text of an
   * integer from `a` to `b`, and every such integer can be drawn.
   */
  lemma NumberInRange(p: Pass, t: Token, d: Result<string>, a: int, b: int)
    requires WellFormed(p, t) && p.keyword == Number && Range(p, t) == Success((a, b))
    requires a <= b && b - a + 1 <= IntMax
    ensures Draws(p, t, d) <==> exists v :: a <= v <= b && d == Success(IntToString(v))
  {
    assert Wrap(b - a + 1) == b - a + 1;
    if Draws(p, t, d) {
      var v :| IntDrawable(a, b, v) && d.value == IntToString(v);
      IntDrawableInRange(a, b, v);
    }
    if exists v :: a <= v <= b && d == Success(IntToString(v)) {
      var v :| a <= v <= b && d == Success(IntToString(v));
      IntDrawableInRange(a, b, v);
    }
  }

  /** The text a number token is replaced by reads back, with Integer.valueOf, as an integer in its range. */
  lemma NumberReadsBack(p: Pass, t: Token, d: Result<string>, a: int, b: int)
    requires WellFormed(p, t) && p.keyword == Number && Range(p, t) == Success((a, b))
    requires a <= b && b - a + 1 <= IntMax && Draws(p, t, d)
    ensures d.Success? && ParseInt(d.value).Success? && a <= ParseInt(d.value).value <= b
  {
    NumberInRange(p, t, d, a, b);
    var v :| a <= v <= b && d == Success(IntToString(v));
    IntToStringRoundTrip(v);
  }

  /**
   * A token of a character pass with an ordinary range is replaced by a string
   * of `a` to `b` characters from its set, and every such string can be
   * drawn; a token without a range has exactly the length it names.
   */
  lemma CharactersInRange(p: Pass, t: Token, d: Result<string>, a: int, b: int)
    requires WellFormed(p, t) && p.keyword != Number && p.keyword != Decimal && Range(p, t) == Success((a, b))
    requires 0 <= a <= b && b - a + 1 <= IntMax
    ensures Draws(p, t, d) <==>
      d.Success? && a <= |d.value| <= b && forall i :: 0 <= i < |d.value| ==> d.value[i] in CharSet(p, t)
    ensures !p.ranged ==> a == b
  {
    assert Wrap(b - a + 1) == b - a + 1;
    if d.Success? {
      LengthInRange(a, b, |d.value|);
    }
  }

  /**
   * A decimal token is rejected with a message exactly when its decimal
   * places are not `1 <= min <= max <= 10`; the other failures are runtime
   * exceptions.
   */
  lemma DecimalRejects(p: Pass, t: Token, d: Result<string>, x: real, y: real, minPlaces: int, maxPlaces: int)
    requires WellFormed(p, t) && p.keyword == Decimal && DecimalArgs(p, t) == Success((x, y, minPlaces, maxPlaces))
    requires Draws(p, t, d)
    ensures d.Failure? && d.error.InvalidResponseBody? <==> !(1 <= minPlaces <= maxPlaces <= 10)
  {
    var fault := DecimalPlacesFault(minPlaces, maxPlaces);
    assert DecimalDraws(Success((x, y, minPlaces, maxPlaces)), d);
    if fault.None? && y - x + 1.0 > 0.0 {
      assert DecimalOutcome(d);
    }
  }

  /** Steps that are idle on `s` for a prefix of the chain: the records of that prefix are idle and the chain goes on from the rest. */
  lemma {:induction false} ChainIdlePrefix<P, D>(ps: seq<P>, i: nat, s: string, dss: seq<D>, idle: D,
                                               step: (P, string, D) -> Option<Result<string>>)
    requires i <= |ps|
    requires forall k, d :: 0 <= k < i ==> step(ps[k], s, d) == (if d == idle then Some(Success(s)) else None)
    ensures Chain(ps, s, dss, step).Some? ==>
      i <= |dss| && (forall k :: 0 <= k < i ==> dss[k] == idle) && Chain(ps, s, dss, step) == Chain(ps[i..], s, dss[i..], step)
    decreases i
  {
    if i == 0 {
      assert ps[0..] == ps && dss[0..] == dss;
    } else if Chain(ps, s, dss, step).Some? {
      assert step(ps[0], s, dss[0]) == (if dss[0] == idle then Some(Success(s)) else None);
      forall k, d | 0 <= k < i - 1
        ensures step(ps[1..][k], s, d) == (if d == idle then Some(Success(s)) else None)
      {
        assert ps[1..][k] == ps[k + 1];
      }
      ChainIdlePrefix(ps[1..], i - 1, s, dss[1..], idle, step);
      forall k | 0 <= k < i
        ensures dss[k] == idle
      {
        if k > 0 {
          assert dss[k] == dss[1..][k - 1];
        }
      }
      assert ps[1..][i - 1..] == ps[i..] && dss[1..][i - 1..] == dss[i..];
    }
  }

  // A worked example, not a general property: the Five* lemmas below follow the single body
  // `{number(5,5)}` through all seventeen passes, up to FiveExpands.

  const FiveTemplate := "{number(5,5)}"

  /** The groups of `{number(5,5)}`: `5` and `5`, closed at the end of the text. */
  lemma FiveArgs()
    ensures ArgsAt([Signed, Signed], FiveTemplate, 8) == Some((13, ["5", "5"]))
  {
    var s := FiveTemplate;
    assert ArgEnd(Signed, s, 8) == Some(9) && s[8..9] == "5";
    assert ArgEnd(Signed, s, 10) == Some(11) && s[10..11] == "5";
    assert ArgsAt([Signed], s, 10) == Some((13, ["5"]));
    assert [Signed, Signed][1..] == [Signed] && s[9] == ',' && [s[8..9]] + ["5"] == ["5", "5"];
  }

  /** A step of FiveExpands: the number pass finds the one token of `{number(5,5)}`, with the arguments `5` and `5`. */
  lemma FiveTokens()
    ensures Tokens(Pass(Number, true), FiveTemplate, 0) == [Token(0, 13, "", ["5", "5"])]
  {
    var p := Pass(Number, true);
    var s := FiveTemplate;
    assert OccursAt(s, Opening(Number), 0);
    FiveArgs();
    assert MatchAt(p, s, 0) == Some(Token(0, 13, "", ["5", "5"]));
    assert Find(p, s, 13) == None;
  }

  /** No pass but the number pass finds a token in `{number(5,5)}`. */
  lemma FiveIdlePasses(k: nat, ds: seq<Result<string>>)
    requires k < |Passes| && k != 14
    ensures PassOutcome(Passes[k], FiveTemplate, ds) == if ds == [] then Some(Success(FiveTemplate)) else None
  {
    var p := Passes[k];
    var s := FiveTemplate;
    if p.keyword == Select {
      assert !OccursAt(s, SelectOpen, 0) by { assert s[1] != SelectOpen[1]; }
    } else {
      assert !OccursAt(s, Opening(p.keyword), 0) by { assert s[1] != Opening(p.keyword)[1]; }
    }
    assert MatchAt(p, s, 0).None?;
    NoBraceNoTokens(p, s, 1);
    assert Find(p, s, 0) == Find(p, s, 1);
    IdlePass(p, s, ds);
  }

  lemma FiveRange()
    ensures Range(Pass(Number, true), Token(0, 13, "", ["5", "5"])) == Success((5, 5))
  {
    assert "5"[..0] == "" && DigitsValue("5") == 5;
    assert ParseInt("5") == Success(5);
  }

  /** A step of FiveExpands: the one draw `{number(5,5)}` allows. */
  lemma FiveDraw(d: Result<string>)
    requires Draws(Pass(Number, true), Token(0, 13, "", ["5", "5"]), d)
    ensures d == Success("5")
  {
    var t := Token(0, 13, "", ["5", "5"]);
    FiveRange();
    NumberInRange(Pass(Number, true), t, d, 5, 5);
    var v :| 5 <= v <= 5 && d == Success(IntToString(v));
    assert v == 5;
    assert IntToString(5) == "5" by {
      assert NatToString(5) == [DigitChar(5)];
    }
  }

  /** The number pass turns `{number(5,5)}` into `5`, whatever the generator drew. */
  lemma FiveNumberPass(ds: seq<Result<string>>)
    requires PassOutcome(Pass(Number, true), FiveTemplate, ds).Some?
    ensures PassOutcome(Pass(Number, true), FiveTemplate, ds) == Some(Success("5"))
  {
    var p := Pass(Number, true);
    var s := FiveTemplate;
    var t := Token(0, 13, "", ["5", "5"]);
    FiveTokens();
    assert PassOutcome(p, s, ds) == Chain([t], s, ds, TokenStep(p, s));
    assert ds != [];
    var out := TokenOutcome(p, s, t, s, ds[0]);
    assert TokenStep(p, s)(t, s, ds[0]) == out;
    assert out.Some?;
    FiveDraw(ds[0]);
    assert s[0..13] == s && ReplaceFirst(s, s, "5") == "5" by {
      assert OccursAt(s, s, 0);
    }
    assert out == Some(Success("5"));
    assert [t][1..] == [];
    assert Chain([t], s, ds, TokenStep(p, s)) == Chain([], "5", ds[1..], TokenStep(p, s));
  }

  /** The decimal passes leave `5` as it is. */
  lemma FiveTail(dss: seq<seq<Result<string>>>, r: Result<string>)
    requires Chain(Passes[15..], "5", dss, PassOutcome) == Some(r)
    ensures r == Success("5")
  {
    var tail := Passes[15..];
    forall k, ds | 0 <= k < |tail|
      ensures PassOutcome(tail[k], "5", ds) == if ds == [] then Some(Success("5")) else None
    {
      NoBraceNoTokens(tail[k], "5", 0);
      IdlePass(tail[k], "5", ds);
    }
    ChainIdle(tail, "5", dss, [], PassOutcome, r);
  }

  /** From the number pass on, `{number(5,5)}` becomes `5`. */
  lemma FiveFromNumberPass(dss: seq<seq<Result<string>>>, r: Result<string>)
    requires Chain(Passes[14..], FiveTemplate, dss, PassOutcome) == Some(r)
    ensures r == Success("5")
  {
    var rest := Passes[14..];
    assert rest[0] == Pass(Number, true) && rest[1..] == Passes[15..];
    assert dss != [] && PassOutcome(rest[0], FiveTemplate, dss[0]).Some?;
    FiveNumberPass(dss[0]);
    assert Chain(rest, FiveTemplate, dss, PassOutcome) == Chain(rest[1..], "5", dss[1..], PassOutcome);
    FiveTail(dss[1..], r);
  }

  /** `{number(5,5)}` expands to `5`, whatever the generators did. */
  lemma FiveExpands(dss: seq<seq<Result<string>>>, r: Result<string>)
    requires Expansion(FiveTemplate, dss, r)
    ensures r == Success("5")
  {
    forall k, ds | 0 <= k < 14
      ensures PassOutcome(Passes[k], FiveTemplate, ds) == if ds == [] then Some(Success(FiveTemplate)) else None
    {
      FiveIdlePasses(k, ds);
    }
    ChainIdlePrefix(Passes, 14, FiveTemplate, dss, [], PassOutcome);
    FiveFromNumberPass(dss[14..], r);
  }

}
