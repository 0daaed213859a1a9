/**
 * Path scoring: which stored definitions the request path matches, and how
 * specifically each of their segments matched.
 */
module PathScoring {
  import opened Faults
  import opened JavaStrings
  import opened MatchModel
  import opened Patterns
  import RequestFormat

  /**
   * The tier a placeholder segment is counted in once its body has matched.
   * `wildcard` is the body the dialect counts as a wildcard: `[^/]+` for the
   * service, `.+` for the legacy controller.
   */
  function BodyCategory(body: string, wildcard: string): (c: Category)
    ensures c != Exact && c != Exists
    ensures c == Wildcard <==> body == wildcard
    ensures c == Digit <==> body == DigitBody && body != wildcard
    ensures c == AlphaNumeric <==> body == AlphaNumericBody && body != wildcard && body != DigitBody
  {
    if body == wildcard then Wildcard
    else if body == DigitBody then Digit
    else if body == AlphaNumericBody then AlphaNumeric
    else Custom
  }

  /**
   * How a stored segment matches a request segment: exactly when the texts are
   * equal, otherwise through its placeholder body; None when it does not match.
   */
  function SegmentCategory(stored: string, request: string, wildcard: string, custom: (string, string) -> bool): (c: Option<Category>)
    ensures c == Some(Exact) <==> stored == request
    ensures c.Some? <==>
      (stored == request || (PlaceholderBody(stored).Some? && FullMatch(PlaceholderBody(stored).value, request, custom)))
    ensures c.Some? ==> c.value != Exists
  {
    if stored == request then Some(Exact)
    else match PlaceholderBody(stored)
      case None => None
      case Some(body) => if FullMatch(body, request, custom) then Some(BodyCategory(body, wildcard)) else None
  }

  /** Every stored segment matches the request segment in the same position. */
  predicate AllSegmentsMatch(es: seq<string>, rs: seq<string>, wildcard: string, custom: (string, string) -> bool)
    requires |es| == |rs|
  {
    forall i :: 0 <= i < |es| ==> SegmentCategory(es[i], rs[i], wildcard, custom).Some?
  }

  /** The counters after scoring the segments in order, crediting each one that matched. */
  function Tally(es: seq<string>, rs: seq<string>, wildcard: string, custom: (string, string) -> bool): Tiers
    requires |es| == |rs|
    decreases |es|
  {
    if es == [] then NoTiers
    else
      var k := |es| - 1;
      var t := Tally(es[..k], rs[..k], wildcard, custom);
      match SegmentCategory(es[k], rs[k], wildcard, custom)
      case None => t
      case Some(c) => t.Credit(c)
  }

  /** One more segment: the tally credits its tier when it matched, and all segments match when the earlier ones and it do. */
  lemma TallyStep(es: seq<string>, rs: seq<string>, j: nat, wildcard: string, custom: (string, string) -> bool)
    requires |es| == |rs| && j < |es|
    ensures Tally(es[..j + 1], rs[..j + 1], wildcard, custom) ==
      match SegmentCategory(es[j], rs[j], wildcard, custom)
      case None => Tally(es[..j], rs[..j], wildcard, custom)
      case Some(c) => Tally(es[..j], rs[..j], wildcard, custom).Credit(c)
    ensures AllSegmentsMatch(es[..j + 1], rs[..j + 1], wildcard, custom) <==>
      AllSegmentsMatch(es[..j], rs[..j], wildcard, custom) && SegmentCategory(es[j], rs[j], wildcard, custom).Some?
  {
    assert es[..j + 1][..j] == es[..j] && rs[..j + 1][..j] == rs[..j];
  }

  /** The counter of category `c` in `t`. */
  function Counter(t: Tiers, c: Category): nat
    requires c != Exists
  {
    match c
    case Exact => t.exact
    case Custom => t.custom
    case Digit => t.digit
    case AlphaNumeric => t.alphaNumeric
    case Wildcard => t.wildcard
  }

  /** The positions whose segments matched with category `c`. */
  function MatchedAs(es: seq<string>, rs: seq<string>, wildcard: string, custom: (string, string) -> bool, c: Category): set<int>
    requires |es| == |rs|
  {
    set i | 0 <= i < |es| && SegmentCategory(es[i], rs[i], wildcard, custom) == Some(c)
  }

  /** The positions before the last one are those of the shorter lists. */
  lemma MatchedAsPrefix(es: seq<string>, rs: seq<string>, wildcard: string, custom: (string, string) -> bool, c: Category)
    requires |es| == |rs| && es != []
    ensures var k := |es| - 1;
      MatchedAs(es[..k], rs[..k], wildcard, custom, c) == MatchedAs(es, rs, wildcard, custom, c) - {k}
  {
    var k := |es| - 1;
    assert forall i :: 0 <= i < k ==> es[..k][i] == es[i] && rs[..k][i] == rs[i];
  }

  lemma MatchedAsStep(es: seq<string>, rs: seq<string>, wildcard: string, custom: (string, string) -> bool, c: Category)
    requires |es| == |rs| && es != []
    ensures var k := |es| - 1;
      |MatchedAs(es, rs, wildcard, custom, c)| ==
        |MatchedAs(es[..k], rs[..k], wildcard, custom, c)| + (if SegmentCategory(es[k], rs[k], wildcard, custom) == Some(c) then 1 else 0)
  {
    var k := |es| - 1;
    var before := MatchedAs(es[..k], rs[..k], wildcard, custom, c);
    var all := MatchedAs(es, rs, wildcard, custom, c);
    MatchedAsPrefix(es, rs, wildcard, custom, c);
    if SegmentCategory(es[k], rs[k], wildcard, custom) == Some(c) {
      assert all == before + {k};
    } else {
      assert all == before;
    }
  }

  /** Each counter of the tally is the number of segments that matched in that tier. */
  lemma {:induction false} TallyCounts(es: seq<string>, rs: seq<string>, wildcard: string, custom: (string, string) -> bool, c: Category)
    requires |es| == |rs| && c != Exists
    ensures Counter(Tally(es, rs, wildcard, custom), c) == |MatchedAs(es, rs, wildcard, custom, c)|
    decreases |es|
  {
    if es != [] {
      var k := |es| - 1;
      TallyCounts(es[..k], rs[..k], wildcard, custom, c);
      MatchedAsStep(es, rs, wildcard, custom, c);
    }
  }

  /** When every segment matches, every segment is counted exactly once. */
  lemma {:induction false} AllMatchedTally(es: seq<string>, rs: seq<string>, wildcard: string, custom: (string, string) -> bool)
    requires |es| == |rs| && AllSegmentsMatch(es, rs, wildcard, custom)
    ensures Tally(es, rs, wildcard, custom).Total() == |es|
    decreases |es|
  {
    if es != [] {
      var k := |es| - 1;
      assert forall i :: 0 <= i < k ==> es[..k][i] == es[i] && rs[..k][i] == rs[i];
      assert SegmentCategory(es[k], rs[k], wildcard, custom).Some?;
      AllMatchedTally(es[..k], rs[..k], wildcard, custom);
    }
  }

  /** Scoring a path against itself credits every segment as an exact match. */
  lemma {:induction false} TallyOfIdenticalPaths(es: seq<string>, wildcard: string, custom: (string, string) -> bool)
    ensures Tally(es, es, wildcard, custom) == Tiers(|es|, 0, 0, 0, 0)
    decreases |es|
  {
    if es != [] {
      TallyOfIdenticalPaths(es[..|es| - 1], wildcard, custom);
    }
  }

  /**
   * The outcome of path scoring for one stored path: its counters when it is
   * kept, None when it is dropped. The stored path loses its first and last
   * characters (the anchors `^` and `$`); a stored path shorter than two
   * characters makes substring fail.
   */
  function ScorePath(apiPath: string, requestPath: string, custom: (string, string) -> bool): (r: Result<Option<Tiers>>)
    ensures r.Failure? <==> |apiPath| < 2
    ensures r.Failure? ==> r.error == Runtime(StringIndexOutOfBounds)
  {
    if |apiPath| < 2 then Failure(Runtime(StringIndexOutOfBounds))
    else
      var path := apiPath[1..|apiPath| - 1];
      var es := Split(path, RequestFormat.SegmentSeparator);
      var rs := Split(requestPath, RequestFormat.SegmentSeparator);
      if path == requestPath then Success(Some(Tiers(|es|, 0, 0, 0, 0)))
      else if |es| != |rs| || !Contains(path, "(?<") then Success(None)
      else if AllSegmentsMatch(es, rs, SegmentWildcardBody, custom) then Success(Some(Tally(es, rs, SegmentWildcardBody, custom)))
      else Success(None)
  }

  /** The stored path between its anchors. */
  function Unanchored(apiPath: string): string
    requires |apiPath| >= 2
  {
    apiPath[1..|apiPath| - 1]
  }

  /**
   * A stored path is kept exactly when it equals the request path, or it holds
   * a placeholder, has as many segments as the request, and every segment
   * matches; a kept path's counters add up to its number of segments.
   */
  lemma ScorePathKept(apiPath: string, requestPath: string, custom: (string, string) -> bool)
    requires |apiPath| >= 2
    ensures var path := Unanchored(apiPath);
      var es := Split(path, RequestFormat.SegmentSeparator);
      var rs := Split(requestPath, RequestFormat.SegmentSeparator);
      && (ScorePath(apiPath, requestPath, custom).value.Some? <==>
           path == requestPath || (|es| == |rs| && Contains(path, "(?<") && AllSegmentsMatch(es, rs, SegmentWildcardBody, custom)))
      && (ScorePath(apiPath, requestPath, custom).value.Some? ==>
           ScorePath(apiPath, requestPath, custom).value.value.Total() == |es|)
  {
    var path := Unanchored(apiPath);
    var es := Split(path, RequestFormat.SegmentSeparator);
    var rs := Split(requestPath, RequestFormat.SegmentSeparator);
    if path != requestPath && |es| == |rs| && Contains(path, "(?<") && AllSegmentsMatch(es, rs, SegmentWildcardBody, custom) {
      AllMatchedTally(es, rs, SegmentWildcardBody, custom);
    }
  }

  /**
   * The shortcut for a literally equal path gives the counters the
   * segment-by-segment scoring would give.
   */
  lemma LiteralShortcutAgrees(apiPath: string, requestPath: string, custom: (string, string) -> bool)
    requires |apiPath| >= 2 && Unanchored(apiPath) == requestPath
    ensures var es := Split(requestPath, RequestFormat.SegmentSeparator);
      ScorePath(apiPath, requestPath, custom) == Success(Some(Tally(es, es, SegmentWildcardBody, custom)))
  {
    TallyOfIdenticalPaths(Split(requestPath, RequestFormat.SegmentSeparator), SegmentWildcardBody, custom);
  }

  /**
   * When the path is not literally equal, each counter of a kept path is the
   * number of its segments that matched in that tier.
   */
  lemma ScorePathCounters(apiPath: string, requestPath: string, custom: (string, string) -> bool, c: Category)
    requires |apiPath| >= 2 && Unanchored(apiPath) != requestPath && c != Exists
    requires ScorePath(apiPath, requestPath, custom).value.Some?
    ensures var es := Split(Unanchored(apiPath), RequestFormat.SegmentSeparator);
      var rs := Split(requestPath, RequestFormat.SegmentSeparator);
      |es| == |rs|
      && Counter(ScorePath(apiPath, requestPath, custom).value.value, c) == |MatchedAs(es, rs, SegmentWildcardBody, custom, c)|
  {
    var es := Split(Unanchored(apiPath), RequestFormat.SegmentSeparator);
    var rs := Split(requestPath, RequestFormat.SegmentSeparator);
    TallyCounts(es, rs, SegmentWildcardBody, custom, c);
  }

  /** The candidates path scoring keeps, in the order of the stored definitions. */
  function KeptPaths(entities: seq<Entity>, requestPath: string, custom: (string, string) -> bool): Result<seq<MatchData>>
    decreases |entities|
  {
    if entities == [] then Success([])
    else
      var last := entities[|entities| - 1];
      match KeptPaths(entities[..|entities| - 1], requestPath, custom)
      case Failure(e) => Failure(e)
      case Success(kept) =>
        match ScorePath(last.apiPath, requestPath, custom)
        case Failure(e) => Failure(e)
        case Success(None) => Success(kept)
        case Success(Some(t)) => Success(kept + [MatchData(last, t, NoParams, NoParams)])
  }

  /** Every stored path has the two characters trimming needs. */
  predicate AllTrimmable(entities: seq<Entity>)
  {
    forall i :: 0 <= i < |entities| ==> |entities[i].apiPath| >= 2
  }

  lemma AllTrimmableStep(entities: seq<Entity>)
    requires entities != []
    ensures var n := |entities| - 1;
      AllTrimmable(entities) <==> AllTrimmable(entities[..n]) && |entities[n].apiPath| >= 2
  {
    var n := |entities| - 1;
    assert forall i :: 0 <= i < n ==> entities[..n][i] == entities[i];
  }

  /** One more stored definition: scoring still succeeds exactly when its path has two characters or more. */
  lemma KeptPathsStepSucceeds(entities: seq<Entity>, requestPath: string, custom: (string, string) -> bool)
    requires entities != []
    ensures var n := |entities| - 1;
      && (KeptPaths(entities, requestPath, custom).Success? <==>
           KeptPaths(entities[..n], requestPath, custom).Success? && |entities[n].apiPath| >= 2)
      && (KeptPaths(entities[..n], requestPath, custom).Failure? ==>
           KeptPaths(entities, requestPath, custom) == KeptPaths(entities[..n], requestPath, custom))
      && (KeptPaths(entities[..n], requestPath, custom).Success? && |entities[n].apiPath| < 2 ==>
           KeptPaths(entities, requestPath, custom) == Failure(Runtime(StringIndexOutOfBounds)))
  {
  }

  /** Path scoring succeeds exactly when every stored path has two characters or more; otherwise `substring` fails. */
  lemma {:induction false} KeptPathsFailure(entities: seq<Entity>, requestPath: string, custom: (string, string) -> bool)
    ensures KeptPaths(entities, requestPath, custom).Success? <==> AllTrimmable(entities)
    ensures KeptPaths(entities, requestPath, custom).Failure? ==>
      KeptPaths(entities, requestPath, custom).error == Runtime(StringIndexOutOfBounds)
    decreases |entities|
  {
    if entities != [] {
      KeptPathsFailure(entities[..|entities| - 1], requestPath, custom);
      KeptPathsStepSucceeds(entities, requestPath, custom);
      AllTrimmableStep(entities);
    }
  }

  /**
   * Every kept candidate is a stored definition whose path was kept, with its
   * path counters and zero header and query counters.
   */
  lemma {:induction false} KeptPathsMeaning(entities: seq<Entity>, requestPath: string, custom: (string, string) -> bool)
    ensures KeptPaths(entities, requestPath, custom).Success? ==>
      var kept := KeptPaths(entities, requestPath, custom).value;
      |kept| <= |entities|
      && forall k :: 0 <= k < |kept| ==>
        kept[k].entity in entities
        && ScorePath(kept[k].entity.apiPath, requestPath, custom) == Success(Some(kept[k].path))
        && kept[k].query == NoParams && kept[k].header == NoParams
    decreases |entities|
  {
    if entities != [] {
      var init := entities[..|entities| - 1];
      KeptPathsMeaning(init, requestPath, custom);
      assert forall x :: x in init ==> x in entities;
    }
  }

  /** One more stored definition: its record is appended when its path matched and nothing changes when it did not. */
  lemma KeptPathsExtend(entities: seq<Entity>, i: nat, requestPath: string, custom: (string, string) -> bool, kept: seq<MatchData>)
    requires i < |entities| && KeptPaths(entities[..i], requestPath, custom) == Success(kept)
    ensures ScorePath(entities[i].apiPath, requestPath, custom) == Success(None) ==>
      KeptPaths(entities[..i + 1], requestPath, custom) == Success(kept)
    ensures ScorePath(entities[i].apiPath, requestPath, custom).Success? && ScorePath(entities[i].apiPath, requestPath, custom).value.Some? ==>
      KeptPaths(entities[..i + 1], requestPath, custom) ==
        Success(kept + [MatchData(entities[i], ScorePath(entities[i].apiPath, requestPath, custom).value.value, NoParams, NoParams)])
    ensures ScorePath(entities[i].apiPath, requestPath, custom).Failure? ==>
      KeptPaths(entities, requestPath, custom) == Failure(ScorePath(entities[i].apiPath, requestPath, custom).error)
  {
    assert entities[..i + 1][..i] == entities[..i];
    if ScorePath(entities[i].apiPath, requestPath, custom).Failure? {
      KeptPathsFailurePersists(entities, i + 1, requestPath, custom);
    }
  }

  /** Once a prefix of the stored definitions fails, the whole list fails with the same fault. */
  lemma {:induction false} KeptPathsFailurePersists(entities: seq<Entity>, n: nat, requestPath: string, custom: (string, string) -> bool)
    requires n <= |entities|
    requires KeptPaths(entities[..n], requestPath, custom).Failure?
    ensures KeptPaths(entities, requestPath, custom) == KeptPaths(entities[..n], requestPath, custom)
    decreases |entities| - n
  {
    if n < |entities| {
      assert entities[..n + 1][..n] == entities[..n];
      KeptPathsFailurePersists(entities, n + 1, requestPath, custom);
    } else {
      assert entities[..n] == entities;
    }
  }

  /**
   * The tests applied to one segment inside the segment loop: equal text first,
   * then the placeholder body, its match, and which of the known bodies it is.
   */
  method ClassifySegment(stored: string, request: string, wildcard: string, custom: (string, string) -> bool)
    returns (c: Option<Category>)
    ensures c == SegmentCategory(stored, request, wildcard, custom)
  {
    if stored == request {
      return Some(Exact);
    }
    var body := PlaceholderBody(stored);
    if body.None? {
      c := None;
    } else if !FullMatch(body.value, request, custom) {
      c := None;
    } else if body.value == wildcard {
      c := Some(Wildcard);
    } else if body.value == DigitBody {
      c := Some(Digit);
    } else if body.value == AlphaNumericBody {
      c := Some(AlphaNumeric);
    } else {
      c := Some(Custom);
    }
  }

  /**
   * The segment loop of generatedMockApiMatchDataListWithPathCounts: credits
   * each segment that matches to the record's path counters and reports
   * whether all of them matched.
   */
  method CountSegments(record: MatchRecord, es: seq<string>, rs: seq<string>, custom: (string, string) -> bool)
    returns (allMatch: bool)
    requires |es| == |rs| && record.path == NoTiers
    modifies record
    ensures record.path == Tally(es, rs, SegmentWildcardBody, custom)
    ensures allMatch == AllSegmentsMatch(es, rs, SegmentWildcardBody, custom)
    ensures record.entity == old(record.entity) && record.query == old(record.query) && record.header == old(record.header)
  {
    allMatch := true;
    var j := 0;
    while j < |es|
      invariant 0 <= j <= |es|
      invariant record.entity == old(record.entity) && record.query == old(record.query) && record.header == old(record.header)
      invariant record.path == Tally(es[..j], rs[..j], SegmentWildcardBody, custom)
      invariant allMatch <==> AllSegmentsMatch(es[..j], rs[..j], SegmentWildcardBody, custom)
    {
      TallyStep(es, rs, j, SegmentWildcardBody, custom);
      var category := ClassifySegment(es[j], rs[j], SegmentWildcardBody, custom);
      ghost var matched := allMatch && category.Some?;
      match category {
        case None => allMatch := false;
        case Some(c) => record.path := record.path.Credit(c);
      }
      assert allMatch == matched;
      j := j + 1;
    }
    assert es[..|es|] == es && rs[..|rs|] == rs;
  }

  /**
   * One stored definition in generatedMockApiMatchDataListWithPathCounts: a new
   * record, returned when the path matched.
   */
  method ScoreCandidate(entity: Entity, requestPath: string, custom: (string, string) -> bool)
    returns (r: Result<Option<MatchRecord>>)
    ensures r.Failure? ==> ScorePath(entity.apiPath, requestPath, custom) == Failure(r.error)
    ensures r.Success? ==> match r.value
      case None => ScorePath(entity.apiPath, requestPath, custom) == Success(None)
      case Some(record) =>
        fresh(record)
        && ScorePath(entity.apiPath, requestPath, custom) == Success(Some(record.path))
        && record.Snapshot() == MatchData(entity, record.path, NoParams, NoParams)
  {
    var record := new MatchRecord(entity, NoTiers);
    var apiPath := entity.apiPath;
    if |apiPath| < 2 {
      return Failure(Runtime(StringIndexOutOfBounds));
    }
    var path := apiPath[1..|apiPath| - 1];
    var hasPlaceholder := Contains(path, "(?<");
    var es := Split(path, RequestFormat.SegmentSeparator);
    var rs := Split(requestPath, RequestFormat.SegmentSeparator);
    if path == requestPath {
      record.path := record.path.(exact := |es|);
      return Success(Some(record));
    } else if |es| != |rs| || !hasPlaceholder {
      // the path can never match: the candidate is dropped
      return Success(None);
    }
    var allMatch := CountSegments(record, es, rs, custom);
    if allMatch {
      return Success(Some(record));
    }
    return Success(None);
  }

  /** One pass of the loop of generatedMockApiMatchDataListWithPathCounts: the definition's record is added when its path matched. */
  method KeepCandidate(list: seq<MatchRecord>, entity: Entity, requestPath: string, custom: (string, string) -> bool)
    returns (r: Result<seq<MatchRecord>>)
    requires Distinct(list)
    ensures r.Failure? ==> ScorePath(entity.apiPath, requestPath, custom) == Failure(r.error)
    ensures r.Success? ==> ScorePath(entity.apiPath, requestPath, custom).Success?
    ensures r.Success? && ScorePath(entity.apiPath, requestPath, custom).value.None? ==> r.value == list
    ensures r.Success? && ScorePath(entity.apiPath, requestPath, custom).value.Some? ==>
      && |r.value| == |list| + 1 && r.value[..|list|] == list && fresh(r.value[|list|])
      && Snapshots(r.value) == old(Snapshots(list)) + [MatchData(entity, ScorePath(entity.apiPath, requestPath, custom).value.value, NoParams, NoParams)]
    ensures r.Success? ==> Distinct(r.value)
  {
    ghost var kept := Snapshots(list);
    var outcome := ScoreCandidate(entity, requestPath, custom);
    assert Snapshots(list) == kept;
    match outcome {
      case Failure(e) =>
        return Failure(e);
      case Success(None) =>
        return Success(list);
      case Success(Some(record)) =>
        assert record !in list;
        DistinctAppend(list, record);
        var longer := list + [record];
        assert longer[..|list|] == list;
        return Success(longer);
    }
  }

  /**
   * The loop of generatedMockApiMatchDataListWithPathCounts: one new record per
   * definition, kept when its path matched, in the order of the definitions.
   */
  method PathCounts(entities: seq<Entity>, requestPath: string, custom: (string, string) -> bool)
    returns (r: Result<seq<MatchRecord>>)
    ensures r.Failure? ==> KeptPaths(entities, requestPath, custom) == Failure(r.error)
    ensures r.Success? ==> KeptPaths(entities, requestPath, custom) == Success(Snapshots(r.value))
    ensures r.Success? ==> Distinct(r.value) && forall k :: 0 <= k < |r.value| ==> fresh(r.value[k])
  {
    var list: seq<MatchRecord> := [];
    var i := 0;
    while i < |entities|
      invariant 0 <= i <= |entities|
      invariant KeptPaths(entities[..i], requestPath, custom) == Success(Snapshots(list))
      invariant forall k :: 0 <= k < |list| ==> fresh(list[k])
      invariant Distinct(list)
    {
      KeptPathsExtend(entities, i, requestPath, custom, Snapshots(list));
      ghost var previous := list;
      var next := KeepCandidate(list, entities[i], requestPath, custom);
      if next.Failure? {
        return Failure(next.error);
      }
      list := next.value;
      forall k | 0 <= k < |list|
        ensures fresh(list[k])
      {
        if k < |previous| {
          assert list[k] == previous[k];
        }
      }
      i := i + 1;
    }
    assert entities[..|entities|] == entities;
    return Success(list);
  }
}
