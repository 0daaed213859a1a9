/**
 * Header and query-parameter scoring: the stored constraint text is decoded
 * into `<name=value>` entries, and every entry whose name the request carries
 * credits one counter of the candidate.
 */
module ParamScoring {
  import opened Faults
  import opened JavaStrings
  import opened MatchModel
  import opened Patterns

  /** The stored constraint text meaning "no constraints". */
  const AnyConstraints := ".*"

  /** The filler between stored entries, which matches any text. */
  const Filler := "(a|[^a])*"

  /** The scope a constraint text belongs to. */
  datatype Scope = Headers | QueryParameters

  /** The constraint text of `e` for `scope`. */
  function ConstraintText(e: Entity, scope: Scope): string
  {
    match scope
    case Headers => e.requestHeaders
    case QueryParameters => e.requestQueryParameters
  }

  /** The counters of `m` for `scope`. */
  function CountsOf(m: MatchData, scope: Scope): ParamCounts
  {
    match scope
    case Headers => m.header
    case QueryParameters => m.query
  }

  /** `m` with the counters for `scope` replaced. */
  function WithCounts(m: MatchData, scope: Scope, c: ParamCounts): (r: MatchData)
    ensures CountsOf(r, scope) == c
    ensures r.entity == m.entity && r.path == m.path
    ensures scope == Headers ==> r.query == m.query
    ensures scope == QueryParameters ==> r.header == m.header
  {
    match scope
    case Headers => m.(header := c)
    case QueryParameters => m.(query := c)
  }

  /**
   * One stored entry `\<name=value\>`: two characters are dropped at each end
   * and the rest is split on '='; the name is the first piece and the value the
   * second (a value holding '=' keeps only its text up to that '=').
   */
  function DecodeEntry(piece: string): Result<(string, string)>
  {
    if |piece| < 2 then Failure(Runtime(StringIndexOutOfBounds))
    else
      var inner := piece[2..];
      if |inner| < 2 then Failure(Runtime(StringIndexOutOfBounds))
      else
        var parts := Split(inner[..|inner| - 2], "=");
        if |parts| < 2 then Failure(Runtime(ArrayIndexOutOfBounds))
        else Success((parts[0], parts[1]))
  }

  /** The entries of a list of stored pieces, failing at the first piece that does not decode. */
  function DecodeEntries(pieces: seq<string>): (r: Result<seq<(string, string)>>)
    ensures r.Success? ==> |r.value| == |pieces|
  {
    MapAllMeaning(pieces, DecodeEntry);
    MapAll(pieces, DecodeEntry)
  }

  /**
   * The text between the leading `^(a|[^a])*` and the trailing `(a|[^a])*$`
   * (ten characters each), split on the filler.
   */
  function Pieces(stored: string): Result<seq<string>>
  {
    // substring(10) needs ten characters, and the second cut ten more
    if |stored| < 20 then Failure(Runtime(StringIndexOutOfBounds))
    else Success(Split(stored[10..|stored| - 10], Filler))
  }

  /**
   * How a declared value is counted against the request's value for the same
   * name: exact on literal equality, otherwise by the text of the declared value
   * alone; the request value is never matched against it.
   */
  function ValueCategory(value: string, requestValue: string): (c: Category)
    ensures c == Exact <==> requestValue == value
    ensures c == Exists <==> requestValue != value && IsBlank(value)
  {
    if requestValue == value then Exact
    else if IsBlank(value) then Exists
    else if value == AnyBody then Wildcard
    else if value == DigitBody then Digit
    else if value == AlphaNumericBody then AlphaNumeric
    else Custom
  }

  /** The counters after crediting, in order, every entry whose name the request carries. */
  function Credit(counts: ParamCounts, entries: seq<(string, string)>, request: map<string, string>): ParamCounts
    decreases |entries|
  {
    if entries == [] then counts
    else
      var k := |entries| - 1;
      var before := Credit(counts, entries[..k], request);
      var (name, value) := entries[k];
      if name in request then before.Credit(ValueCategory(value, request[name])) else before
  }

  /**
   * Scoring one constraint text: the `.*` sentinel leaves the counters as they
   * are; otherwise every entry must decode.
   */
  function ScoreParams(stored: string, request: map<string, string>, counts: ParamCounts): (r: Result<ParamCounts>)
    ensures stored == AnyConstraints ==> r == Success(counts)
  {
    if stored == AnyConstraints then Success(counts)
    else
      match Pieces(stored)
      case Failure(e) => Failure(e)
      case Success(pieces) =>
        match DecodeEntries(pieces)
        case Failure(e) => Failure(e)
        case Success(entries) => Success(Credit(counts, entries, request))
  }

  /** The declared entries whose name the request carries. */
  function Carried(entries: seq<(string, string)>, request: map<string, string>): set<int>
  {
    set i | 0 <= i < |entries| && entries[i].0 in request
  }

  /** The carried positions before the last one are those of the shorter list. */
  lemma CarriedPrefix(entries: seq<(string, string)>, request: map<string, string>)
    requires entries != []
    ensures Carried(entries[..|entries| - 1], request) == Carried(entries, request) - {|entries| - 1}
  {
    var k := |entries| - 1;
    assert forall i :: 0 <= i < k ==> entries[..k][i] == entries[i];
  }

  /** One more entry adds one carried position exactly when the request carries its name. */
  lemma CarriedStep(entries: seq<(string, string)>, request: map<string, string>)
    requires entries != []
    ensures var k := |entries| - 1;
      |Carried(entries, request)| == |Carried(entries[..k], request)| + (if entries[k].0 in request then 1 else 0)
  {
    var k := |entries| - 1;
    var before := Carried(entries[..k], request);
    var all := Carried(entries, request);
    CarriedPrefix(entries, request);
    if entries[k].0 in request {
      assert all == before + {k};
    } else {
      assert all == before;
    }
  }

  /** Each declared entry the request carries adds exactly one to the counters; the others add nothing. */
  lemma {:induction false} CreditTotal(counts: ParamCounts, entries: seq<(string, string)>, request: map<string, string>)
    ensures Credit(counts, entries, request).Total() == counts.Total() + |Carried(entries, request)|
    decreases |entries|
  {
    if entries != [] {
      var k := |entries| - 1;
      CreditTotal(counts, entries[..k], request);
      CarriedStep(entries, request);
    }
  }

  /** Entries whose names the request does not carry leave the counters unchanged. */
  lemma {:induction false} CreditIgnoresAbsentNames(counts: ParamCounts, entries: seq<(string, string)>, request: map<string, string>)
    requires forall i :: 0 <= i < |entries| ==> entries[i].0 !in request
    ensures Credit(counts, entries, request) == counts
    decreases |entries|
  {
    if entries != [] {
      var k := |entries| - 1;
      assert forall i :: 0 <= i < k ==> entries[..k][i] == entries[i];
      CreditIgnoresAbsentNames(counts, entries[..k], request);
    }
  }

  /**
   * Only the presence of a name and literal equality with the declared value
   * matter: two request values that both differ from the declared value are
   * counted alike, whether or not they fit the declared pattern.
   */
  lemma RequestValueNotMatched(value: string, a: string, b: string)
    requires a != value && b != value
    ensures ValueCategory(value, a) == ValueCategory(value, b)
    ensures value == DigitBody ==> ValueCategory(value, a) == Digit
  {
    if value == DigitBody {
      assert !IsWhitespace(value[0]);
    }
  }

  // ---------------------------------------------------------------------------
  // The stored format the decoder reads
  // ---------------------------------------------------------------------------

  /** One stored entry. */
  function EncodeEntry(name: string, value: string): string
  {
    "\\<" + name + "=" + value + "\\>"
  }

  function EncodeEntries(entries: seq<(string, string)>): (r: seq<string>)
    ensures |r| == |entries|
    ensures forall i :: 0 <= i < |entries| ==> r[i] == EncodeEntry(entries[i].0, entries[i].1)
  {
    if entries == [] then [] else EncodeEntries(entries[..|entries| - 1]) + [EncodeEntry(entries[|entries| - 1].0, entries[|entries| - 1].1)]
  }

  /** A stored constraint text: the entries between fillers, anchored at both ends. */
  function Encode(entries: seq<(string, string)>): string
  {
    "^" + Filler + Join(EncodeEntries(entries), Filler) + Filler + "$"
  }

  /** An entry the stored format can carry back unchanged. */
  predicate Storable(entry: (string, string))
  {
    entry.1 != [] && '=' !in entry.0 && '=' !in entry.1 && '(' !in entry.0 && '(' !in entry.1
  }

  lemma DecodeEncodeEntry(name: string, value: string)
    requires Storable((name, value))
    ensures DecodeEntry(EncodeEntry(name, value)) == Success((name, value))
  {
    var piece := EncodeEntry(name, value);
    assert piece[2..][..|piece[2..]| - 2] == Join([name, value], "=");
    assert forall i :: 0 <= i < 2 ==> !Contains([name, value][i], "=") by {
      forall i | 0 <= i < 2 ensures !Contains([name, value][i], "=") {
        NoOccurrenceWithoutFirstChar([name, value][i], "=");
      }
    }
    SplitJoinSplit([name, value], "=");
  }

  lemma DecodeEntriesOfEncoded(entries: seq<(string, string)>)
    requires forall i :: 0 <= i < |entries| ==> Storable(entries[i])
    ensures DecodeEntries(EncodeEntries(entries)) == Success(entries)
  {
    forall i | 0 <= i < |entries|
      ensures DecodeEntry(EncodeEntries(entries)[i]) == Success(entries[i])
    {
      DecodeEncodeEntry(entries[i].0, entries[i].1);
    }
    MapAllEach(EncodeEntries(entries), entries, DecodeEntry);
  }

  /**
   * Decoding a stored text of one or more storable entries gives back the
   * entries, so scoring credits exactly the declared entries.
   */
  lemma DecodeEncode(entries: seq<(string, string)>, request: map<string, string>, counts: ParamCounts)
    requires entries != []
    requires forall i :: 0 <= i < |entries| ==> Storable(entries[i])
    ensures ScoreParams(Encode(entries), request, counts) == Success(Credit(counts, entries, request))
  {
    var parts := EncodeEntries(entries);
    var mid := Join(parts, Filler);
    var stored := Encode(entries);
    assert stored == "^" + Filler + mid + Filler + "$";
    assert stored[10..|stored| - 10] == mid;
    assert stored != AnyConstraints by {
      assert |stored| >= 20;
    }
    forall i | 0 <= i < |parts|
      ensures !Contains(parts[i], Filler)
    {
      NoOccurrenceWithoutFirstChar(parts[i], Filler);
    }
    assert parts[|parts| - 1] != [];
    SplitJoinSplit(parts, Filler);
    DecodeEntriesOfEncoded(entries);
  }

  // ---------------------------------------------------------------------------
  // Updating the candidate records
  // ---------------------------------------------------------------------------

  /**
   * A candidate after scoring its constraints for `scope`: only the counters of
   * that scope change.
   */
  function ScoreCandidate(m: MatchData, scope: Scope, request: map<string, string>): (r: Result<MatchData>)
    ensures r.Success? ==> r.value.entity == m.entity && r.value.path == m.path
    ensures r.Success? && scope == Headers ==> r.value.query == m.query
    ensures r.Success? && scope == QueryParameters ==> r.value.header == m.header
  {
    match ScoreParams(ConstraintText(m.entity, scope), request, CountsOf(m, scope))
    case Failure(e) => Failure(e)
    case Success(c) => Success(WithCounts(m, scope, c))
  }

  /** The candidates after scoring each of them in turn, failing at the first that fails. */
  function ScoreCandidates(ms: seq<MatchData>, scope: Scope, request: map<string, string>): Result<seq<MatchData>>
  {
    MapAll(ms, m => ScoreCandidate(m, scope, request))
  }

  /**
   * Scoring a list succeeds exactly when every candidate's constraint text
   * decodes, and then scores each candidate in place, keeping their order.
   */
  lemma ScoreCandidatesMeaning(ms: seq<MatchData>, scope: Scope, request: map<string, string>)
    ensures ScoreCandidates(ms, scope, request).Success? <==>
      forall k :: 0 <= k < |ms| ==> ScoreCandidate(ms[k], scope, request).Success?
    ensures ScoreCandidates(ms, scope, request).Success? ==>
      |ScoreCandidates(ms, scope, request).value| == |ms|
      && forall k :: 0 <= k < |ms| ==>
        ScoreCandidate(ms[k], scope, request) == Success(ScoreCandidates(ms, scope, request).value[k])
  {
    MapAllMeaning(ms, m => ScoreCandidate(m, scope, request));
  }

  /**
   * The piece loop of updateMockApiMatchDataListWithHeaderCounts and
   * updateMockApiMatchDataListWithQueryCounts for one candidate's constraint
   * text.
   */
  method CountConstraints(stored: string, request: map<string, string>, counts: ParamCounts)
    returns (r: Result<ParamCounts>)
    ensures r == ScoreParams(stored, request, counts)
  {
    if stored == AnyConstraints {
      return Success(counts);
    }
    if |stored| < 10 {
      return Failure(Runtime(StringIndexOutOfBounds));
    }
    var text := stored[10..];
    if |text| < 10 {
      return Failure(Runtime(StringIndexOutOfBounds));
    }
    text := text[..|text| - 10];
    assert text == stored[10..|stored| - 10];
    var pieces := Split(text, Filler);
    r := CountEntries(pieces, request, counts);
  }

  /** The loop over the stored entries of one constraint text. */
  method CountEntries(pieces: seq<string>, request: map<string, string>, counts: ParamCounts)
    returns (r: Result<ParamCounts>)
    ensures DecodeEntries(pieces).Failure? ==> r == Failure(DecodeEntries(pieces).error)
    ensures DecodeEntries(pieces).Success? ==> r == Success(Credit(counts, DecodeEntries(pieces).value, request))
  {
    var c := counts;
    ghost var entries: seq<(string, string)> := [];
    var i := 0;
    while i < |pieces|
      invariant 0 <= i <= |pieces| && |entries| == i
      invariant forall k :: 0 <= k < i ==> DecodeEntry(pieces[k]) == Success(entries[k])
      invariant c == Credit(counts, entries, request)
    {
      var entry := ParseEntry(pieces[i]);
      if entry.Failure? {
        MapAllFirstFailure(pieces, i, DecodeEntry);
        return Failure(entry.error);
      }
      var (name, value) := entry.value;
      ghost var previous := entries;
      entries := entries + [(name, value)];
      assert entries[..|entries| - 1] == previous;
      forall k | 0 <= k < i + 1
        ensures DecodeEntry(pieces[k]) == Success(entries[k])
      {
        if k < i {
          assert entries[k] == previous[k];
        }
      }
      c := CreditEntry(c, name, value, request);
      i := i + 1;
    }
    MapAllEach(pieces, entries, DecodeEntry);
    return Success(c);
  }

  /** The statements that take one stored entry apart. */
  method ParseEntry(piece: string) returns (r: Result<(string, string)>)
    ensures r == DecodeEntry(piece)
  {
    var keyValueText := piece;
    if |keyValueText| < 2 {
      return Failure(Runtime(StringIndexOutOfBounds));
    }
    keyValueText := keyValueText[2..];
    if |keyValueText| < 2 {
      return Failure(Runtime(StringIndexOutOfBounds));
    }
    keyValueText := keyValueText[..|keyValueText| - 2];
    var keyValue := Split(keyValueText, "=");
    if |keyValue| < 2 {
      return Failure(Runtime(ArrayIndexOutOfBounds));
    }
    return Success((keyValue[0], keyValue[1]));
  }

  /** The counter updates for one decoded entry. */
  method CreditEntry(c: ParamCounts, name: string, value: string, request: map<string, string>)
    returns (r: ParamCounts)
    ensures r == if name in request then c.Credit(ValueCategory(value, request[name])) else c
  {
    r := c;
    if name in request {
      var requestValue := request[name];
      if requestValue == value {
        r := r.(tiers := r.tiers.(exact := r.tiers.exact + 1));
      } else if IsBlank(value) {
        r := r.(present := r.present + 1);
      } else if value == AnyBody {
        r := r.(tiers := r.tiers.(wildcard := r.tiers.wildcard + 1));
      } else if value == DigitBody {
        r := r.(tiers := r.tiers.(digit := r.tiers.digit + 1));
      } else if value == AlphaNumericBody {
        r := r.(tiers := r.tiers.(alphaNumeric := r.tiers.alphaNumeric + 1));
      } else {
        r := r.(tiers := r.tiers.(custom := r.tiers.custom + 1));
      }
    }
  }

  /** One candidate of the list loop: its counters for `scope` are updated in place. */
  method UpdateRecord(record: MatchRecord, scope: Scope, request: map<string, string>)
    returns (fault: Option<Fault>)
    modifies record
    ensures fault.None? ==> ScoreCandidate(old(record.Snapshot()), scope, request) == Success(record.Snapshot())
    ensures fault.Some? ==> ScoreCandidate(old(record.Snapshot()), scope, request) == Failure(fault.value)
  {
    var stored := if scope == Headers then record.entity.requestHeaders else record.entity.requestQueryParameters;
    var counts := if scope == Headers then record.header else record.query;
    var r := CountConstraints(stored, request, counts);
    if r.Failure? {
      return Some(r.error);
    }
    if scope == Headers {
      record.header := r.value;
    } else {
      record.query := r.value;
    }
    return None;
  }

  /**
   * updateMockApiMatchDataListWithHeaderCounts (scope Headers) and
   * updateMockApiMatchDataListWithQueryCounts (scope QueryParameters): the
   * counters of every candidate are updated in place, in list order.
   */
  method UpdateCounts(list: seq<MatchRecord>, scope: Scope, request: map<string, string>)
    returns (fault: Option<Fault>)
    requires Distinct(list)
    modifies list
    ensures fault.None? ==> ScoreCandidates(old(Snapshots(list)), scope, request) == Success(Snapshots(list))
    ensures fault.Some? ==> ScoreCandidates(old(Snapshots(list)), scope, request) == Failure(fault.value)
  {
    ghost var before := Snapshots(list);
    var i := 0;
    while i < |list|
      invariant 0 <= i <= |list|
      invariant forall k :: 0 <= k < i ==> ScoreCandidate(before[k], scope, request) == Success(list[k].Snapshot())
      invariant forall k :: i <= k < |list| ==> list[k].Snapshot() == before[k]
    {
      assert forall k :: 0 <= k < |list| && k != i ==> list[k] != list[i];
      var f := UpdateRecord(list[i], scope, request);
      if f.Some? {
        MapAllFirstFailure(before, i, m => ScoreCandidate(m, scope, request));
        return f;
      }
      i := i + 1;
    }
    MapAllEach(before, Snapshots(list), m => ScoreCandidate(m, scope, request));
    return None;
  }
}
