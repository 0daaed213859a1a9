/**
 * The random generators behind the response-body template: a number drawn from
 * an inclusive range, a string of characters drawn from a set, and the
 * validation of decimal places. Every SecureRandom draw is a nondeterministic
 * choice among the values the call can return.
 */
module Generators {
  import opened Faults
  import opened JavaNumbers

  const LowerSet: set<char> := set c: char | 'a' <= c <= 'z'
  const UpperSet: set<char> := set c: char | 'A' <= c <= 'Z'
  const AlphaSet: set<char> := LowerSet + UpperSet
  const DigitSet: set<char> := set c: char | '0' <= c <= '9'
  const AlphaNumericSet: set<char> := AlphaSet + DigitSet
  const SpecialText := "!\"#$%&'()*+,-./:;<=>?@[\\]^_`{|}~"
  const SpecialCharacterSet: set<char> := set i | 0 <= i < |SpecialText| :: SpecialText[i]
  const CharacterSet: set<char> := AlphaNumericSet + SpecialCharacterSet

  /** The offset from `start` that a draw yielding `v` added, read modulo 2^32. */
  function Offset(start: int, v: int): (k: int)
    ensures 0 <= k < 0x1_0000_0000
  {
    (v - start) % 0x1_0000_0000
  }

  /**
   * `v` is a value `nextInt(end - start + 1) + start` can yield in Java `int`
   * arithmetic: the bound is positive and `v` is `start` plus an offset below it.
   */
  predicate IntDrawable(start: int, end: int, v: int)
  {
    var bound := Wrap(end - start + 1);
    bound > 0 && IsInt(v) && Offset(start, v) < bound
  }

  /** Adding a non-negative `int` offset to `start` and wrapping keeps the offset. */
  lemma OffsetOfDraw(start: int, k: int)
    requires IsInt(start) && 0 <= k <= IntMax
    ensures Offset(start, Wrap(k + start)) == k
  {
    var m := 0x1_0000_0000;
    var x := k + start;
    var q := (x - IntMin) / m;
    assert x - IntMin == q * m + (x - IntMin) % m;
    assert Wrap(x) - start == k - q * m;
    assert (k - q * m) % m == k by {
      assert k - q * m == (-q) * m + k;
    }
  }

  /**
   * Within an ordinary range (no overflow of `end - start + 1`) the values a
   * draw can yield are exactly the integers from `start` to `end`.
   */
  lemma IntDrawableInRange(start: int, end: int, v: int)
    requires IsInt(start) && IsInt(end) && start <= end && end - start + 1 <= IntMax
    ensures IntDrawable(start, end, v) <==> IsInt(v) && start <= v <= end
  {
    var m := 0x1_0000_0000;
    assert Wrap(end - start + 1) == end - start + 1;
    if IsInt(v) {
      if v - start >= 0 {
        assert Offset(start, v) == v - start;
      } else {
        assert (v - start) % m == v - start + m by {
          assert v - start + m == (-1) * m + (v - start + m) + m;
        }
      }
    }
  }

  /** `getRandomIntRangeInclusive`: an integer drawn from `start` to `end` inclusive. */
  method RandomIntRangeInclusive(start: int, end: int) returns (r: Result<int>)
    requires IsInt(start) && IsInt(end)
    ensures r.Failure? <==> Wrap(end - start + 1) <= 0
    ensures r.Failure? ==> r.error == Runtime(IllegalArgument)
    ensures r.Success? ==> IntDrawable(start, end, r.value)
  {
    var bound := Wrap(end - start + 1);
    if bound <= 0 {
      return Failure(Runtime(IllegalArgument));
    }
    var k :| 0 <= k < bound;
    OffsetOfDraw(start, k);
    return Success(Wrap(k + start));
  }

  /**
   * The lengths `getRandomCharacters` can produce: a drawn value, where a
   * negative draw makes the loop run zero times.
   */
  predicate LengthDrawable(start: int, end: int, n: nat)
  {
    IntDrawable(start, end, n) || (n == 0 && exists v :: IntMin <= v < 0 && IntDrawable(start, end, v))
  }

  /** For the non-negative ranges the template passes, the length lies in [start, end], and each such length can occur. */
  lemma LengthInRange(start: int, end: int, n: nat)
    requires IsInt(start) && IsInt(end) && 0 <= start <= end && end - start + 1 <= IntMax
    ensures LengthDrawable(start, end, n) <==> start <= n <= end
  {
    IntDrawableInRange(start, end, n);
    forall v | IntDrawable(start, end, v)
      ensures v >= 0
    {
      IntDrawableInRange(start, end, v);
    }
  }

  /** `getRandomCharacterFromSet`: the element at a drawn index of the set's iteration order. */
  method RandomCharacterFromSet(chars: set<char>) returns (r: Result<char>)
    ensures chars == {} ==> r == Failure(Runtime(IllegalArgument))
    ensures chars != {} ==> r.Success? && r.value in chars
  {
    if |chars| == 0 {
      return Failure(Runtime(IllegalArgument));
    }
    var randomIndex :| 0 <= randomIndex < |chars|;
    var i := 0;
    var rest := chars;
    while rest != {}
      invariant rest <= chars
      invariant i + |rest| == |chars|
      invariant i <= randomIndex
      decreases |rest|
    {
      var element :| element in rest;
      if i == randomIndex {
        return Success(element);
      }
      i := i + 1;
      rest := rest - {element};
    }
    assert false;
  }

  /**
   * `getRandomCharacters`: a drawn length, then that many characters each
   * drawn from `chars`.
   */
  method RandomCharacters(chars: set<char>, rangeStart: int, rangeEnd: int) returns (r: Result<string>)
    requires IsInt(rangeStart) && IsInt(rangeEnd)
    ensures Wrap(rangeEnd - rangeStart + 1) <= 0 ==> r == Failure(Runtime(IllegalArgument))
    ensures chars != {} && Wrap(rangeEnd - rangeStart + 1) > 0 ==> r.Success?
    ensures r.Failure? ==> r.error == Runtime(IllegalArgument)
    ensures r.Success? ==>
      LengthDrawable(rangeStart, rangeEnd, |r.value|) && forall i :: 0 <= i < |r.value| ==> r.value[i] in chars
  {
    var bound := Wrap(rangeEnd - rangeStart + 1);
    if bound <= 0 {
      return Failure(Runtime(IllegalArgument));
    }
    var k :| 0 <= k < bound;
    var length := Wrap(k + rangeStart);
    OffsetOfDraw(rangeStart, k);
    assert IntDrawable(rangeStart, rangeEnd, length);
    var randomChars := "";
    var i := 0;
    while i < length
      invariant 0 <= i && |randomChars| == i
      invariant i <= (if length < 0 then 0 else length)
      invariant forall j :: 0 <= j < i ==> randomChars[j] in chars
    {
      var c := RandomCharacterFromSet(chars);
      if c.Failure? {
        return Failure(c.error);
      }
      randomChars := randomChars + [c.value];
      i := i + 1;
    }
    if length < 0 {
      assert IntMin <= length < 0 && IntDrawable(rangeStart, rangeEnd, length);
    }
    return Success(randomChars);
  }

  /**
   * The checks `getRandomDecimalRangeInclusive` makes on the decimal places
   * before drawing, in order, with the messages it reports.
   */
  function DecimalPlacesFault(minPlaces: int, maxPlaces: int): (r: Option<Fault>)
    ensures r.None? <==> 1 <= minPlaces <= maxPlaces <= 10
    ensures r.Some? ==> r.value.InvalidResponseBody?
  {
    if minPlaces > maxPlaces then
      Some(InvalidResponseBody("minDecimalPlaces (" + IntToString(minPlaces) + ") should be less than maxDecimalPlaces ("
        + IntToString(maxPlaces) + ") for floating point numbers."))
    else if minPlaces < 1 then
      Some(InvalidResponseBody("minDecimalPlaces (" + IntToString(minPlaces) + ") must be greater than 0 for floating point numbers."))
    else if maxPlaces > 10 then
      Some(InvalidResponseBody("maxDecimalPlaces (" + IntToString(maxPlaces) + ") should be less than 11 ("
        + IntToString(maxPlaces) + ") for floating point numbers."))
    else None
  }

  /** The characters Double.toString writes for a finite value. */
  const DecimalAlphabet := "0123456789.-E"

  /**
   * What formatting a drawn double can give: text in the Double.toString
   * alphabet, or the exceptions the truncation can raise (a substring past the
   * end of a short text, or re-reading a text cut inside its exponent).
   */
  predicate DecimalOutcome(r: Result<string>)
  {
    match r
    case Success(text) => forall i :: 0 <= i < |text| ==> text[i] in DecimalAlphabet
    case Failure(e) => e == Runtime(StringIndexOutOfBounds) || e == Runtime(NumberFormat)
  }

  /**
   * `getRandomDecimalRangeInclusive`: the decimal-place checks, then a draw
   * with bound `end - start + 1`, which must be positive; the formatting of the
   * drawn value is a nondeterministic outcome.
   */
  method RandomDecimalRangeInclusive(start: real, end: real, minPlaces: int, maxPlaces: int) returns (r: Result<string>)
    ensures DecimalPlacesFault(minPlaces, maxPlaces).Some? ==> r == Failure(DecimalPlacesFault(minPlaces, maxPlaces).value)
    ensures DecimalPlacesFault(minPlaces, maxPlaces).None? && end - start + 1.0 <= 0.0 ==>
      r == Failure(Runtime(IllegalArgument))
    ensures DecimalPlacesFault(minPlaces, maxPlaces).None? && end - start + 1.0 > 0.0 ==> DecimalOutcome(r)
  {
    if minPlaces > maxPlaces {
      return Failure(InvalidResponseBody("minDecimalPlaces (" + IntToString(minPlaces) + ") should be less than maxDecimalPlaces ("
        + IntToString(maxPlaces) + ") for floating point numbers."));
    } else if minPlaces < 1 {
      return Failure(InvalidResponseBody("minDecimalPlaces (" + IntToString(minPlaces) + ") must be greater than 0 for floating point numbers."));
    } else if maxPlaces > 10 {
      return Failure(InvalidResponseBody("maxDecimalPlaces (" + IntToString(maxPlaces) + ") should be less than 11 ("
        + IntToString(maxPlaces) + ") for floating point numbers."));
    }
    var bound := end - start + 1.0;
    if bound <= 0.0 {
      return Failure(Runtime(IllegalArgument));
    }
    assert DecimalOutcome(Success("0.0"));
    r :| DecimalOutcome(r);
  }
}
