/**
 * The controller's own request handler, an older copy of the matcher. Paths
 * are compared on `/` segments with `.+` as the wildcard body; stored header
 * and query-parameter constraints are split on the literal `.*` and have no
 * presence-only tier (the query split as the controller writes it, on the
 * regular expression `.*`, is modelled beside the corrected one); the first
 * candidate after sorting answers, with no ambiguity check and no template
 * expansion.
 */
module LegacyController {
  import opened Faults
  import opened JavaStrings
  import opened JavaNumbers
  import opened MatchModel
  import opened Patterns
  import Ranking
  import RequestFormat
  import PathScoring
  import ParamScoring
  import Dispatcher

  const PathSeparator := "/"
  const HeaderSeparator := ";"
  const QuerySeparator := "&"
  const QueryPrefix := "?"

  /** The stored header text meaning "no constraints", which is also the separator between stored entries. */
  const AnyConstraints := ".*"

  // ---------------------------------------------------------------------------
  // Paths
  // ---------------------------------------------------------------------------

  /**
   * The first character is dropped, then one trailing `/`. `substring(1)` on
   * an empty text, or `charAt(-1)` on a one-character text, fails.
   */
  function Trim(s: string): (r: Result<string>)
    ensures r.Failure? <==> |s| <= 1
    ensures r.Failure? ==> r.error == Runtime(StringIndexOutOfBounds)
    ensures r.Success? ==> s == [s[0]] + r.value + (if s[|s| - 1] == '/' then "/" else "")
  {
    if |s| <= 1 then Failure(Runtime(StringIndexOutOfBounds))
    else
      var t := s[1..];
      if t[|t| - 1] == '/' then Success(t[..|t| - 1]) else Success(t)
  }

  /**
   * The outcome of path scoring for one stored path against the trimmed request
   * path: its counters when it is kept, None when it is dropped.
   */
  function ScorePath(apiPath: string, requestPath: string, custom: (string, string) -> bool): (r: Result<Option<Tiers>>)
    ensures r.Failure? <==> |apiPath| <= 1
  {
    match Trim(apiPath)
    case Failure(e) => Failure(e)
    case Success(path) =>
      var es := Split(path, PathSeparator);
      var rs := Split(requestPath, PathSeparator);
      if path == requestPath then Success(Some(Tiers(|es|, 0, 0, 0, 0)))
      else if |es| != |rs| || !Contains(path, "(?<") then Success(None)
      else if PathScoring.AllSegmentsMatch(es, rs, AnyBody, custom) then Success(Some(PathScoring.Tally(es, rs, AnyBody, custom)))
      else Success(None)
  }

  /**
   * A stored path is kept exactly when its trimmed text equals the request
   * path, or it holds a placeholder, has as many segments as the request and
   * every segment matches. A literal match counts every segment as exact, and
   * a kept path's counters add up to its number of segments.
   */
  lemma ScorePathKept(apiPath: string, requestPath: string, custom: (string, string) -> bool)
    requires |apiPath| >= 2
    ensures var path := Trim(apiPath).value;
      var es := Split(path, PathSeparator);
      var rs := Split(requestPath, PathSeparator);
      var r := ScorePath(apiPath, requestPath, custom).value;
      && (r.Some? <==>
           path == requestPath || (|es| == |rs| && Contains(path, "(?<") && PathScoring.AllSegmentsMatch(es, rs, AnyBody, custom)))
      && (path == requestPath ==> r == Some(Tiers(|es|, 0, 0, 0, 0)))
      && (r.Some? ==> r.value.Total() == |es|)
  {
    var path := Trim(apiPath).value;
    var es := Split(path, PathSeparator);
    var rs := Split(requestPath, PathSeparator);
    if path != requestPath && |es| == |rs| && Contains(path, "(?<") && PathScoring.AllSegmentsMatch(es, rs, AnyBody, custom) {
      PathScoring.AllMatchedTally(es, rs, AnyBody, custom);
    }
  }

  /** A placeholder segment whose body is `.+` is counted as a wildcard, and `[^/]+` as a custom expression. */
  lemma LegacyWildcard(stored: string, request: string, custom: (string, string) -> bool)
    requires stored != request && PlaceholderBody(stored).Some?
    requires FullMatch(PlaceholderBody(stored).value, request, custom)
    ensures PlaceholderBody(stored).value == AnyBody ==> PathScoring.SegmentCategory(stored, request, AnyBody, custom) == Some(Wildcard)
    ensures PlaceholderBody(stored).value == SegmentWildcardBody ==> PathScoring.SegmentCategory(stored, request, AnyBody, custom) == Some(Custom)
  {
  }

  /** The candidates path scoring keeps, in the order of the stored definitions. */
  function KeptPaths(entities: seq<Entity>, requestPath: string, custom: (string, string) -> bool): Result<seq<FilterData>>
    decreases |entities|
  {
    if entities == [] then Success([])
    else
      var last := entities[|entities| - 1];
      match KeptPaths(entities[..|entities| - 1], requestPath, custom)
      case Failure(e) => Failure(e)
      case Success(kept) =>
        match ScorePath(last.apiPath, requestPath, custom)
        case Failure(e) => Failure(e)
        case Success(None) => Success(kept)
        case Success(Some(t)) => Success(kept + [FilterData(last, t, NoTiers, NoTiers)])
  }

  /** One more stored definition: scoring still succeeds exactly when its path has two characters or more. */
  lemma KeptPathsStepSucceeds(entities: seq<Entity>, requestPath: string, custom: (string, string) -> bool)
    requires entities != []
    ensures var n := |entities| - 1;
      && (KeptPaths(entities, requestPath, custom).Success? <==>
           KeptPaths(entities[..n], requestPath, custom).Success? && |entities[n].apiPath| >= 2)
      && (KeptPaths(entities[..n], requestPath, custom).Failure? ==>
           KeptPaths(entities, requestPath, custom) == KeptPaths(entities[..n], requestPath, custom))
      && (KeptPaths(entities[..n], requestPath, custom).Success? && |entities[n].apiPath| <= 1 ==>
           KeptPaths(entities, requestPath, custom) == Failure(Runtime(StringIndexOutOfBounds)))
  {
  }


  /** One more stored definition: its record is appended when its path matched and nothing changes when it did not. */
  lemma KeptPathsExtend(entities: seq<Entity>, i: nat, requestPath: string, custom: (string, string) -> bool, kept: seq<FilterData>)
    requires i < |entities| && KeptPaths(entities[..i], requestPath, custom) == Success(kept)
    ensures ScorePath(entities[i].apiPath, requestPath, custom) == Success(None) ==>
      KeptPaths(entities[..i + 1], requestPath, custom) == Success(kept)
    ensures ScorePath(entities[i].apiPath, requestPath, custom).Success? && ScorePath(entities[i].apiPath, requestPath, custom).value.Some? ==>
      KeptPaths(entities[..i + 1], requestPath, custom) ==
        Success(kept + [FilterData(entities[i], ScorePath(entities[i].apiPath, requestPath, custom).value.value, NoTiers, NoTiers)])
    ensures ScorePath(entities[i].apiPath, requestPath, custom).Failure? ==>
      KeptPaths(entities, requestPath, custom) == Failure(ScorePath(entities[i].apiPath, requestPath, custom).error)
  {
    assert entities[..i + 1][..i] == entities[..i];
    if ScorePath(entities[i].apiPath, requestPath, custom).Failure? {
      KeptPathsFailurePersists(entities, i + 1, requestPath, custom);
    }
  }

  /** Path scoring succeeds exactly when every stored path has two characters or more; otherwise `substring` fails. */
  lemma {:induction false} KeptPathsFailure(entities: seq<Entity>, requestPath: string, custom: (string, string) -> bool)
    ensures KeptPaths(entities, requestPath, custom).Success? <==> PathScoring.AllTrimmable(entities)
    ensures KeptPaths(entities, requestPath, custom).Failure? ==>
      KeptPaths(entities, requestPath, custom).error == Runtime(StringIndexOutOfBounds)
    decreases |entities|
  {
    if entities != [] {
      KeptPathsFailure(entities[..|entities| - 1], requestPath, custom);
      KeptPathsStepSucceeds(entities, requestPath, custom);
      PathScoring.AllTrimmableStep(entities);
    }
  }

  /**
   * Every kept candidate is a stored definition whose path was kept, with its
   * path counters and zero header and query counters.
   */
  lemma {:induction false} KeptPathsMeaning(entities: seq<Entity>, requestPath: string, custom: (string, string) -> bool)
    ensures KeptPaths(entities, requestPath, custom).Success? ==>
      var kept := KeptPaths(entities, requestPath, custom).value;
      |kept| <= |entities|
      && forall k :: 0 <= k < |kept| ==>
        kept[k].entity in entities
        && ScorePath(kept[k].entity.apiPath, requestPath, custom) == Success(Some(kept[k].path))
        && kept[k].query == NoTiers && kept[k].header == NoTiers
    decreases |entities|
  {
    if entities != [] {
      var init := entities[..|entities| - 1];
      KeptPathsMeaning(init, requestPath, custom);
      assert forall x :: x in init ==> x in entities;
    }
  }

  lemma {:induction false} KeptPathsFailurePersists(entities: seq<Entity>, n: nat, requestPath: string, custom: (string, string) -> bool)
    requires n <= |entities|
    requires KeptPaths(entities[..n], requestPath, custom).Failure?
    ensures KeptPaths(entities, requestPath, custom) == KeptPaths(entities[..n], requestPath, custom)
    decreases |entities| - n
  {
    if n < |entities| {
      assert entities[..n + 1][..n] == entities[..n];
      KeptPathsFailurePersists(entities, n + 1, requestPath, custom);
    } else {
      assert entities[..n] == entities;
    }
  }

  /** getPathFilteredList as values: the request URI is trimmed once, then every stored path is scored against it. */
  function FilteredList(entities: seq<Entity>, requestUri: string, custom: (string, string) -> bool): Result<seq<FilterData>>
  {
    match Trim(requestUri)
    case Failure(e) => Failure(e)
    case Success(path) => KeptPaths(entities, path, custom)
  }

  /**
   * The segment loop of getPathFilteredList: credits each segment that matches
   * to the record's path counters and reports whether all of them matched.
   */
  method CountSegments(record: FilterRecord, es: seq<string>, rs: seq<string>, custom: (string, string) -> bool)
    returns (allMatch: bool)
    requires |es| == |rs| && record.path == NoTiers
    modifies record
    ensures record.path == PathScoring.Tally(es, rs, AnyBody, custom)
    ensures allMatch == PathScoring.AllSegmentsMatch(es, rs, AnyBody, custom)
    ensures record.entity == old(record.entity) && record.query == old(record.query) && record.header == old(record.header)
  {
    allMatch := true;
    var j := 0;
    while j < |es|
      invariant 0 <= j <= |es|
      invariant record.entity == old(record.entity) && record.query == old(record.query) && record.header == old(record.header)
      invariant record.path == PathScoring.Tally(es[..j], rs[..j], AnyBody, custom)
      invariant allMatch <==> PathScoring.AllSegmentsMatch(es[..j], rs[..j], AnyBody, custom)
    {
      PathScoring.TallyStep(es, rs, j, AnyBody, custom);
      var category := PathScoring.ClassifySegment(es[j], rs[j], AnyBody, custom);
      ghost var matched := allMatch && category.Some?;
      match category {
        case None => allMatch := false;
        case Some(c) => record.path := record.path.Credit(c);
      }
      assert allMatch == matched;
      j := j + 1;
    }
    assert es[..|es|] == es && rs[..|rs|] == rs;
  }

  /** One stored definition in getPathFilteredList: a new record, returned when the path matched. */
  method ScoreCandidate(entity: Entity, requestPath: string, custom: (string, string) -> bool)
    returns (r: Result<Option<FilterRecord>>)
    ensures r.Failure? ==> ScorePath(entity.apiPath, requestPath, custom) == Failure(r.error)
    ensures r.Success? ==> match r.value
      case None => ScorePath(entity.apiPath, requestPath, custom) == Success(None)
      case Some(record) =>
        fresh(record)
        && ScorePath(entity.apiPath, requestPath, custom) == Success(Some(record.path))
        && record.Snapshot() == FilterData(entity, record.path, NoTiers, NoTiers)
  {
    var record := new FilterRecord(entity, NoTiers);
    var mockApiPath := entity.apiPath;
    if |mockApiPath| == 0 {
      return Failure(Runtime(StringIndexOutOfBounds));
    }
    mockApiPath := mockApiPath[1..];
    if |mockApiPath| == 0 {
      return Failure(Runtime(StringIndexOutOfBounds));
    }
    if mockApiPath[|mockApiPath| - 1] == '/' {
      mockApiPath := mockApiPath[..|mockApiPath| - 1];
    }
    assert Trim(entity.apiPath) == Success(mockApiPath);
    var hasPlaceholder := Contains(mockApiPath, "(?<");
    var es := Split(mockApiPath, PathSeparator);
    var rs := Split(requestPath, PathSeparator);
    if mockApiPath == requestPath {
      record.path := record.path.(exact := |es|);
      return Success(Some(record));
    } else if |es| != |rs| || !hasPlaceholder {
      return Success(None);
    }
    var allMatch := CountSegments(record, es, rs, custom);
    if allMatch {
      return Success(Some(record));
    }
    return Success(None);
  }

  /** One pass of the loop of getPathFilteredList: the definition's record is added to the list when its path matched. */
  method KeepCandidate(list: seq<FilterRecord>, entity: Entity, requestPath: string, custom: (string, string) -> bool)
    returns (r: Result<seq<FilterRecord>>)
    requires Distinct(list)
    ensures r.Failure? ==> ScorePath(entity.apiPath, requestPath, custom) == Failure(r.error)
    ensures r.Success? ==> ScorePath(entity.apiPath, requestPath, custom).Success?
    ensures r.Success? && ScorePath(entity.apiPath, requestPath, custom).value.None? ==> r.value == list
    ensures r.Success? && ScorePath(entity.apiPath, requestPath, custom).value.Some? ==>
      && |r.value| == |list| + 1 && r.value[..|list|] == list && fresh(r.value[|list|])
      && FilterSnapshots(r.value) == old(FilterSnapshots(list)) + [FilterData(entity, ScorePath(entity.apiPath, requestPath, custom).value.value, NoTiers, NoTiers)]
    ensures r.Success? ==> Distinct(r.value)
  {
    ghost var kept := FilterSnapshots(list);
    var outcome := ScoreCandidate(entity, requestPath, custom);
    assert FilterSnapshots(list) == kept;
    match outcome {
      case Failure(e) =>
        return Failure(e);
      case Success(None) =>
        return Success(list);
      case Success(Some(record)) =>
        assert record !in list;
        DistinctAppend(list, record);
        var longer := list + [record];
        assert longer[..|list|] == list;
        return Success(longer);
    }
  }

  /** The loop of getPathFilteredList over the stored definitions, against the trimmed request path. */
  method FilterPaths(entities: seq<Entity>, requestPath: string, custom: (string, string) -> bool)
    returns (r: Result<seq<FilterRecord>>)
    ensures r.Failure? ==> KeptPaths(entities, requestPath, custom) == Failure(r.error)
    ensures r.Success? ==> KeptPaths(entities, requestPath, custom) == Success(FilterSnapshots(r.value))
    ensures r.Success? ==> Distinct(r.value) && forall k :: 0 <= k < |r.value| ==> fresh(r.value[k])
  {
    var list: seq<FilterRecord> := [];
    var i := 0;
    while i < |entities|
      invariant 0 <= i <= |entities|
      invariant KeptPaths(entities[..i], requestPath, custom) == Success(FilterSnapshots(list))
      invariant forall k :: 0 <= k < |list| ==> fresh(list[k])
      invariant Distinct(list)
    {
      KeptPathsExtend(entities, i, requestPath, custom, FilterSnapshots(list));
      ghost var previous := list;
      var next := KeepCandidate(list, entities[i], requestPath, custom);
      if next.Failure? {
        return Failure(next.error);
      }
      list := next.value;
      forall k | 0 <= k < |list|
        ensures fresh(list[k])
      {
        if k < |previous| {
          assert list[k] == previous[k];
        }
      }
      i := i + 1;
    }
    assert entities[..|entities|] == entities;
    return Success(list);
  }

  /** getPathFilteredList: one new record per stored definition, kept when its path matched, in order. */
  method GetPathFilteredList(entities: seq<Entity>, requestUri: string, custom: (string, string) -> bool)
    returns (r: Result<seq<FilterRecord>>)
    ensures r.Failure? ==> FilteredList(entities, requestUri, custom) == Failure(r.error)
    ensures r.Success? ==> FilteredList(entities, requestUri, custom) == Success(FilterSnapshots(r.value))
    ensures r.Success? ==> Distinct(r.value) && forall k :: 0 <= k < |r.value| ==> fresh(r.value[k])
  {
    var requestPath := requestUri;
    if |requestPath| == 0 {
      return Failure(Runtime(StringIndexOutOfBounds));
    }
    requestPath := requestPath[1..];
    if |requestPath| == 0 {
      return Failure(Runtime(StringIndexOutOfBounds));
    }
    if requestPath[|requestPath| - 1] == '/' {
      requestPath := requestPath[..|requestPath| - 1];
    }
    assert Trim(requestUri) == Success(requestPath);
    r := FilterPaths(entities, requestPath, custom);
  }

  // ---------------------------------------------------------------------------
  // Header and query-parameter constraints
  // ---------------------------------------------------------------------------

  /** The stored entries: two characters are dropped at each end and the rest is split on `.*`. */
  function ConstraintPieces(stored: string): (r: Result<seq<string>>)
    ensures r.Failure? <==> |stored| < 4
  {
    // substring(2) needs two characters, and the second cut two more
    if |stored| < 4 then Failure(Runtime(StringIndexOutOfBounds))
    else Success(Split(stored[2..|stored| - 2], AnyConstraints))
  }

  /**
   * How a declared value is counted against the request's value: exact on
   * literal equality, otherwise by the text of the declared value alone. There
   * is no presence-only tier.
   */
  function ValueCategory(value: string, requestValue: string): (c: Category)
    ensures c != Exists
    ensures c == Exact <==> requestValue == value
  {
    if requestValue == value then Exact else PathScoring.BodyCategory(value, AnyBody)
  }

  /** A blank declared value that differs from the request's value is counted as a custom match. */
  lemma BlankValueIsCustom(value: string, requestValue: string)
    requires IsBlank(value) && requestValue != value
    ensures ValueCategory(value, requestValue) == Custom
  {
    if |value| > 0 {
      assert !IsWhitespace(AnyBody[0]) && !IsWhitespace(DigitBody[0]) && !IsWhitespace(AlphaNumericBody[0]);
      assert value != AnyBody && value != DigitBody && value != AlphaNumericBody;
    }
  }

  /** The counters after crediting, in order, every entry whose name the request carries. */
  function CreditConstraints(counts: Tiers, entries: seq<(string, string)>, request: map<string, string>): Tiers
    decreases |entries|
  {
    if entries == [] then counts
    else
      var k := |entries| - 1;
      var before := CreditConstraints(counts, entries[..k], request);
      var (name, value) := entries[k];
      if name in request then before.Credit(ValueCategory(value, request[name])) else before
  }

  /** Each declared entry the request carries adds exactly one to the counters; the others add nothing. */
  lemma {:induction false} CreditConstraintsTotal(counts: Tiers, entries: seq<(string, string)>, request: map<string, string>)
    ensures CreditConstraints(counts, entries, request).Total() == counts.Total() + |ParamScoring.Carried(entries, request)|
    decreases |entries|
  {
    if entries != [] {
      var k := |entries| - 1;
      CreditConstraintsTotal(counts, entries[..k], request);
      ParamScoring.CarriedStep(entries, request);
    }
  }

  /**
   * The counters for one constraint text: the `.*` sentinel leaves them as they
   * are; otherwise every entry must decode, and the entries the request
   * carries are credited.
   */
  function ScoreConstraints(stored: string, request: map<string, string>, counts: Tiers): (r: Result<Tiers>)
    ensures stored == AnyConstraints ==> r == Success(counts)
    ensures stored != AnyConstraints && |stored| < 4 ==> r == Failure(Runtime(StringIndexOutOfBounds))
  {
    if stored == AnyConstraints then Success(counts)
    else
      match ConstraintPieces(stored)
      case Failure(e) => Failure(e)
      case Success(pieces) =>
        match ParamScoring.DecodeEntries(pieces)
        case Failure(e) => Failure(e)
        case Success(entries) => Success(CreditConstraints(counts, entries, request))
  }

  /** A stored constraint text in the legacy format: the entries between `.*` fillers. */
  function EncodeConstraints(entries: seq<(string, string)>): string
  {
    AnyConstraints + Join(ParamScoring.EncodeEntries(entries), AnyConstraints) + AnyConstraints
  }

  /** An entry the legacy format carries back unchanged. */
  predicate Storable(entry: (string, string))
  {
    ParamScoring.Storable(entry) && '.' !in entry.0 && '.' !in entry.1
  }

  /**
   * Decoding a stored text of one or more storable entries gives back the
   * entries, so scoring credits exactly the declared entries.
   */
  lemma DecodeEncode(entries: seq<(string, string)>, request: map<string, string>, counts: Tiers)
    requires entries != []
    requires forall i :: 0 <= i < |entries| ==> Storable(entries[i])
    ensures ScoreConstraints(EncodeConstraints(entries), request, counts) == Success(CreditConstraints(counts, entries, request))
  {
    var parts := ParamScoring.EncodeEntries(entries);
    var mid := Join(parts, AnyConstraints);
    var stored := EncodeConstraints(entries);
    assert stored[2..|stored| - 2] == mid;
    assert stored != AnyConstraints by {
      assert |stored| >= 4 + |parts[0]|;
    }
    forall i | 0 <= i < |parts|
      ensures forall j :: 0 <= j < |parts[i]| ==> parts[i][j] != '.'
    {
      assert Storable(entries[i]);
    }
    assert parts[|parts| - 1] != [];
    SplitJoinSplit(parts, AnyConstraints);
    forall i | 0 <= i < |entries|
      ensures ParamScoring.Storable(entries[i])
    {
      assert Storable(entries[i]);
    }
    ParamScoring.DecodeEntriesOfEncoded(entries);
  }

  /** The counters of `f` for `scope`. */
  function CountsOf(f: FilterData, scope: ParamScoring.Scope): Tiers
  {
    match scope
    case Headers => f.header
    case QueryParameters => f.query
  }

  /**
   * How updateQueryCounts cuts its constraint text: as written, on the regular
   * expression `.*`, or corrected, on the literal `.*` as updateHeaderCounts
   * does. The handler as written uses AsWritten.
   */
  datatype QuerySplit = AsWritten | Corrected

  /** The counters one constraint text gives for `scope`: only the query scope depends on `split`. */
  function ScopeScore(stored: string, scope: ParamScoring.Scope, split: QuerySplit, request: map<string, string>, counts: Tiers)
    : Result<Tiers>
  {
    if scope == ParamScoring.QueryParameters && split == AsWritten then ScoreQueryAsWritten(stored, request, counts)
    else ScoreConstraints(stored, request, counts)
  }

  /** A candidate after scoring its constraints for `scope`: only the counters of that scope change. */
  function ScoreCandidateConstraints(f: FilterData, scope: ParamScoring.Scope, split: QuerySplit, request: map<string, string>)
    : (r: Result<FilterData>)
    ensures r.Success? ==> r.value.entity == f.entity && r.value.path == f.path
    ensures r.Success? && scope == ParamScoring.Headers ==> r.value.query == f.query
    ensures r.Success? && scope == ParamScoring.QueryParameters ==> r.value.header == f.header
  {
    match ScopeScore(ParamScoring.ConstraintText(f.entity, scope), scope, split, request, CountsOf(f, scope))
    case Failure(e) => Failure(e)
    case Success(c) => Success(if scope == ParamScoring.Headers then f.(header := c) else f.(query := c))
  }

  function ScoreCandidatesConstraints(fs: seq<FilterData>, scope: ParamScoring.Scope, split: QuerySplit, request: map<string, string>)
    : Result<seq<FilterData>>
  {
    MapAll(fs, f => ScoreCandidateConstraints(f, scope, split, request))
  }

  /**
   * Scoring a list for `scope` succeeds exactly when every candidate's
   * constraint text decodes, and then sets each candidate's counters for that
   * scope from its own text, leaving everything else and the order as it was.
   */
  lemma ScoreCandidatesConstraintsMeaning(fs: seq<FilterData>, scope: ParamScoring.Scope, split: QuerySplit, request: map<string, string>)
    ensures ScoreCandidatesConstraints(fs, scope, split, request).Success? <==>
      forall k :: 0 <= k < |fs| ==> ScoreCandidateConstraints(fs[k], scope, split, request).Success?
    ensures ScoreCandidatesConstraints(fs, scope, split, request).Success? ==>
      var r := ScoreCandidatesConstraints(fs, scope, split, request).value;
      |r| == |fs|
      && forall k :: 0 <= k < |fs| ==>
        && r[k].entity == fs[k].entity && r[k].path == fs[k].path
        && ScopeScore(ParamScoring.ConstraintText(fs[k].entity, scope), scope, split, request, CountsOf(fs[k], scope)) == Success(CountsOf(r[k], scope))
        && (scope == ParamScoring.Headers ==> r[k].query == fs[k].query)
        && (scope == ParamScoring.QueryParameters ==> r[k].header == fs[k].header)
  {
    MapAllMeaning(fs, f => ScoreCandidateConstraints(f, scope, split, request));
  }

  /** The loop over the stored entries of one constraint text. */
  method CountEntries(pieces: seq<string>, request: map<string, string>, counts: Tiers)
    returns (r: Result<Tiers>)
    ensures ParamScoring.DecodeEntries(pieces).Failure? ==> r == Failure(ParamScoring.DecodeEntries(pieces).error)
    ensures ParamScoring.DecodeEntries(pieces).Success? ==>
      r == Success(CreditConstraints(counts, ParamScoring.DecodeEntries(pieces).value, request))
  {
    var c := counts;
    ghost var entries: seq<(string, string)> := [];
    var i := 0;
    while i < |pieces|
      invariant 0 <= i <= |pieces| && |entries| == i
      invariant forall k :: 0 <= k < i ==> ParamScoring.DecodeEntry(pieces[k]) == Success(entries[k])
      invariant c == CreditConstraints(counts, entries, request)
    {
      var entry := ParamScoring.ParseEntry(pieces[i]);
      if entry.Failure? {
        MapAllFirstFailure(pieces, i, ParamScoring.DecodeEntry);
        return Failure(entry.error);
      }
      var (name, value) := entry.value;
      ghost var previous := entries;
      entries := entries + [(name, value)];
      assert entries[..|entries| - 1] == previous;
      forall k | 0 <= k < i + 1
        ensures ParamScoring.DecodeEntry(pieces[k]) == Success(entries[k])
      {
        if k < i {
          assert entries[k] == previous[k];
        }
      }
      if name in request {
        var requestValue := request[name];
        if requestValue == value {
          c := c.(exact := c.exact + 1);
        } else if value == AnyBody {
          c := c.(wildcard := c.wildcard + 1);
        } else if value == DigitBody {
          c := c.(digit := c.digit + 1);
        } else if value == AlphaNumericBody {
          c := c.(alphaNumeric := c.alphaNumeric + 1);
        } else {
          c := c.(custom := c.custom + 1);
        }
      }
      i := i + 1;
    }
    MapAllEach(pieces, entries, ParamScoring.DecodeEntry);
    return Success(c);
  }

  /** One constraint text: the sentinel check, the two cuts and the split. */
  method CountConstraints(stored: string, request: map<string, string>, counts: Tiers) returns (r: Result<Tiers>)
    ensures r == ScoreConstraints(stored, request, counts)
  {
    if stored == AnyConstraints {
      return Success(counts);
    }
    var text := stored;
    if |text| < 2 {
      return Failure(Runtime(StringIndexOutOfBounds));
    }
    text := text[2..];
    if |text| < 2 {
      return Failure(Runtime(StringIndexOutOfBounds));
    }
    text := text[..|text| - 2];
    assert text == stored[2..|stored| - 2];
    r := CountEntries(Split(text, AnyConstraints), request, counts);
  }

  /** One query-parameter text as updateQueryCounts cuts it: the same steps, split on the regular expression `.*`. */
  method CountQueryAsWritten(stored: string, request: map<string, string>, counts: Tiers) returns (r: Result<Tiers>)
    ensures r == ScoreQueryAsWritten(stored, request, counts)
  {
    if stored == AnyConstraints {
      return Success(counts);
    }
    var text := stored;
    if |text| < 2 {
      return Failure(Runtime(StringIndexOutOfBounds));
    }
    text := text[2..];
    if |text| < 2 {
      return Failure(Runtime(StringIndexOutOfBounds));
    }
    text := text[..|text| - 2];
    assert text == stored[2..|stored| - 2];
    r := CountEntries(SplitOnAnyRun(text), request, counts);
  }

  /** One candidate of updateHeaderCounts or updateQueryCounts: its counters for `scope` are updated in place. */
  method UpdateRecord(record: FilterRecord, scope: ParamScoring.Scope, split: QuerySplit, request: map<string, string>)
    returns (fault: Option<Fault>)
    modifies record
    ensures fault.None? ==> ScoreCandidateConstraints(old(record.Snapshot()), scope, split, request) == Success(record.Snapshot())
    ensures fault.Some? ==> ScoreCandidateConstraints(old(record.Snapshot()), scope, split, request) == Failure(fault.value)
  {
    var stored := if scope == ParamScoring.Headers then record.entity.requestHeaders else record.entity.requestQueryParameters;
    var counts := if scope == ParamScoring.Headers then record.header else record.query;
    var r;
    if scope == ParamScoring.QueryParameters && split == AsWritten {
      r := CountQueryAsWritten(stored, request, counts);
    } else {
      r := CountConstraints(stored, request, counts);
    }
    if r.Failure? {
      return Some(r.error);
    }
    if scope == ParamScoring.Headers {
      record.header := r.value;
    } else {
      record.query := r.value;
    }
    return None;
  }

  /**
   * updateHeaderCounts (scope Headers) and updateQueryCounts (scope
   * QueryParameters, its split as `split` says): the counters of every
   * candidate are updated in place, in list order.
   */
  method UpdateCounts(list: seq<FilterRecord>, scope: ParamScoring.Scope, split: QuerySplit, request: map<string, string>)
    returns (fault: Option<Fault>)
    requires Distinct(list)
    modifies list
    ensures fault.None? ==> ScoreCandidatesConstraints(old(FilterSnapshots(list)), scope, split, request) == Success(FilterSnapshots(list))
    ensures fault.Some? ==> ScoreCandidatesConstraints(old(FilterSnapshots(list)), scope, split, request) == Failure(fault.value)
  {
    ghost var before := FilterSnapshots(list);
    var i := 0;
    while i < |list|
      invariant 0 <= i <= |list|
      invariant forall k :: 0 <= k < i ==> ScoreCandidateConstraints(before[k], scope, split, request) == Success(list[k].Snapshot())
      invariant forall k :: i <= k < |list| ==> list[k].Snapshot() == before[k]
    {
      assert forall k :: 0 <= k < |list| && k != i ==> list[k] != list[i];
      var f := UpdateRecord(list[i], scope, split, request);
      if f.Some? {
        MapAllFirstFailure(before, i, f => ScoreCandidateConstraints(f, scope, split, request));
        return f;
      }
      i := i + 1;
    }
    MapAllEach(before, FilterSnapshots(list), f => ScoreCandidateConstraints(f, scope, split, request));
    return None;
  }

  // ---------------------------------------------------------------------------
  // The query-parameter split as written
  // ---------------------------------------------------------------------------

  /** Where `.*` matched greedily from `from` ends: at the next line terminator, or at the end. */
  function AnyRunEnd(s: string, from: nat): (r: nat)
    requires from <= |s|
    ensures from <= r <= |s|
    ensures forall i :: from <= i < r ==> !IsLineTerminator(s[i])
    ensures r < |s| ==> IsLineTerminator(s[r])
    decreases |s| - from
  {
    if from < |s| && !IsLineTerminator(s[from]) then AnyRunEnd(s, from + 1) else from
  }

  /**
   * The loop of `Pattern.split(s, 0)` for the regular expression `.*`. Each
   * `find()` matches at `next` up to AnyRunEnd; after an empty match the next
   * search starts one further on; an empty match at the very beginning adds no
   * piece; `index` is where the pending piece starts. When nothing was cut the
   * text comes back whole; otherwise trailing empty pieces are dropped.
   */
  function AnySplitLoop(s: string, next: nat, index: nat, pieces: seq<string>): seq<string>
    requires index <= next <= index + 1 && index <= |s| && next <= |s| + 1
    decreases |s| + 1 - next
  {
    if next > |s| then
      if index == 0 then [s] else DropTrailingEmpty(pieces + [s[index..]])
    else
      var end := AnyRunEnd(s, next);
      var after := if end == next then end + 1 else end;
      if index == 0 && next == 0 && end == 0 then AnySplitLoop(s, after, index, pieces)
      else AnySplitLoop(s, after, end, pieces + [s[index..next]])
  }

  /** `s.split(".*")`. */
  function SplitOnAnyRun(s: string): seq<string>
  {
    AnySplitLoop(s, 0, 0, [])
  }

  /** Every piece of the split is at most one character long: all other characters are consumed by matches. */
  lemma {:induction false} AnySplitLoopShort(s: string, next: nat, index: nat, pieces: seq<string>)
    requires index <= next <= index + 1 && index <= |s| && next <= |s| + 1
    requires forall k :: 0 <= k < |pieces| ==> |pieces[k]| <= 1
    ensures var r := AnySplitLoop(s, next, index, pieces);
      forall k :: 0 <= k < |r| ==> |r[k]| <= 1
    decreases |s| + 1 - next
  {
    if next > |s| {
      if index != 0 {
        var all := pieces + [s[index..]];
        assert forall k :: 0 <= k < |all| ==> |all[k]| <= 1;
        var r := DropTrailingEmpty(all);
        assert forall k :: 0 <= k < |r| ==> r[k] == all[k];
      }
    } else {
      var end := AnyRunEnd(s, next);
      var after := if end == next then end + 1 else end;
      if index == 0 && next == 0 && end == 0 {
        AnySplitLoopShort(s, after, index, pieces);
        assert AnySplitLoop(s, next, index, pieces) == AnySplitLoop(s, after, index, pieces);
      } else {
        var more := pieces + [s[index..next]];
        assert forall k :: 0 <= k < |more| ==> |more[k]| <= 1;
        AnySplitLoopShort(s, after, end, more);
        assert AnySplitLoop(s, next, index, pieces) == AnySplitLoop(s, after, end, more);
      }
    }
  }

  /** The text holds no line terminator. */
  predicate NoLineTerminator(s: string)
  {
    forall i :: 0 <= i < |s| ==> !IsLineTerminator(s[i])
  }

  /** A non-empty text without line terminators splits into no pieces at all. */
  lemma AnySplitOfPlainText(s: string)
    requires s != [] && NoLineTerminator(s)
    ensures SplitOnAnyRun(s) == []
  {
    var n := |s|;
    assert AnyRunEnd(s, 0) == n;
    assert AnyRunEnd(s, n) == n;
    var one: seq<string> := [] + [s[0..0]];
    assert one == [""];
    assert SplitOnAnyRun(s) == AnySplitLoop(s, n, n, one);
    var two := one + [s[n..n]];
    assert AnySplitLoop(s, n, n, one) == AnySplitLoop(s, n + 1, n, two);
    var three := two + [s[n..]];
    assert three == ["", "", ""];
    assert DropTrailingEmpty(three) == DropTrailingEmpty(three[..2]);
    assert DropTrailingEmpty(three[..2]) == DropTrailingEmpty(three[..1]);
    assert three[..1][..0] == [];
  }

  lemma {:induction false} JoinNoLineTerminator(parts: seq<string>, sep: string)
    requires NoLineTerminator(sep)
    requires forall k :: 0 <= k < |parts| ==> NoLineTerminator(parts[k])
    ensures NoLineTerminator(Join(parts, sep))
    decreases |parts|
  {
    if |parts| > 1 {
      JoinNoLineTerminator(parts[1..], sep);
      var rest := Join(parts[1..], sep);
      assert Join(parts, sep) == parts[0] + sep + rest;
      assert NoLineTerminator(parts[0]);
    }
  }

  /** updateQueryCounts for one constraint text, as written: the same as for headers but split on the regular expression `.*`. */
  function ScoreQueryAsWritten(stored: string, request: map<string, string>, counts: Tiers): Result<Tiers>
  {
    if stored == AnyConstraints then Success(counts)
    else if |stored| < 4 then Failure(Runtime(StringIndexOutOfBounds))
    else
      match ParamScoring.DecodeEntries(SplitOnAnyRun(stored[2..|stored| - 2]))
      case Failure(e) => Failure(e)
      case Success(entries) => Success(CreditConstraints(counts, entries, request))
  }

  /**
   * As written, query scoring never credits anything: it either leaves the
   * counters as they are or fails on a piece too short to decode.
   */
  lemma QueryNeverCreditedAsWritten(stored: string, request: map<string, string>, counts: Tiers)
    ensures ScoreQueryAsWritten(stored, request, counts) == Success(counts)
      || ScoreQueryAsWritten(stored, request, counts) == Failure(Runtime(StringIndexOutOfBounds))
  {
    if stored != AnyConstraints && |stored| >= 4 {
      var mid := stored[2..|stored| - 2];
      var pieces := SplitOnAnyRun(mid);
      AnySplitLoopShort(mid, 0, 0, []);
      assert pieces == AnySplitLoop(mid, 0, 0, []);
      if pieces == [] {
        assert ParamScoring.DecodeEntries(pieces) == Success([]);
      } else {
        assert |pieces[0]| <= 1;
        assert ParamScoring.DecodeEntry(pieces[0]) == Failure(Runtime(StringIndexOutOfBounds));
        MapAllFirstFailure(pieces, 0, ParamScoring.DecodeEntry);
      }
    }
  }

  /**
   * For a stored text of storable entries without line terminators, the
   * corrected split credits every declared entry the request carries, while
   * the split as written leaves the counters as they were.
   */
  lemma QueryCountsLostAsWritten(entries: seq<(string, string)>, request: map<string, string>, counts: Tiers)
    requires entries != []
    requires forall i :: 0 <= i < |entries| ==> Storable(entries[i])
    requires forall i :: 0 <= i < |entries| ==> NoLineTerminator(entries[i].0) && NoLineTerminator(entries[i].1)
    ensures ScoreQueryAsWritten(EncodeConstraints(entries), request, counts) == Success(counts)
    ensures ScoreConstraints(EncodeConstraints(entries), request, counts) == Success(CreditConstraints(counts, entries, request))
  {
    var parts := ParamScoring.EncodeEntries(entries);
    var stored := EncodeConstraints(entries);
    var mid := Join(parts, AnyConstraints);
    assert stored[2..|stored| - 2] == mid;
    forall k | 0 <= k < |parts|
      ensures NoLineTerminator(parts[k])
    {
      var e := entries[k];
      assert parts[k] == "\\<" + e.0 + "=" + e.1 + "\\>";
      assert NoLineTerminator(e.0) && NoLineTerminator(e.1);
    }
    JoinNoLineTerminator(parts, AnyConstraints);
    assert |parts[0]| >= 4 && |mid| >= |parts[0]|;
    AnySplitOfPlainText(mid);
    assert ParamScoring.DecodeEntries([]) == Success([]);
    DecodeEncode(entries, request, counts);
  }

  /** `id=7` in one entry is storable and free of line terminators. */
  lemma SmallestEntryStorable()
    ensures Storable(("id", "7")) && NoLineTerminator("id") && NoLineTerminator("7")
  {
    assert '=' !in "id" && '(' !in "id" && '.' !in "id";
  }

  /** The smallest case, as written: `id=7` asked for and sent leaves the query counters at zero. */
  lemma QueryExactMatchIgnoredAsWritten(stored: string)
    requires stored == EncodeConstraints([("id", "7")])
    ensures ScoreQueryAsWritten(stored, map["id" := "7"], NoTiers) == Success(NoTiers)
  {
    SmallestEntryStorable();
    QueryCountsLostAsWritten([("id", "7")], map["id" := "7"], NoTiers);
  }

  /** Crediting `id=7` against a request that sends `id=7` counts one exact match. */
  lemma SmallestEntryCredit()
    ensures CreditConstraints(NoTiers, [("id", "7")], map["id" := "7"]) == NoTiers.(exact := 1)
  {
    var entries := [("id", "7")];
    var request := map["id" := "7"];
    assert entries[..0] == [];
    assert CreditConstraints(NoTiers, entries[..0], request) == NoTiers;
    assert entries[0].0 in request && request[entries[0].0] == entries[0].1;
    assert ValueCategory(entries[0].1, request[entries[0].0]) == Exact;
  }

  /**
   * A stray piece between the fillers, `.*x.*`: the split as written consumes
   * it and scoring goes on, while the corrected split hands it to `substring`,
   * which fails.
   */
  lemma StrayPieceSwallowedAsWritten(request: map<string, string>, counts: Tiers)
    ensures ScoreQueryAsWritten(".*x.*", request, counts) == Success(counts)
    ensures ScoreConstraints(".*x.*", request, counts) == Failure(Runtime(StringIndexOutOfBounds))
  {
    var stored := ".*x.*";
    assert stored[2..|stored| - 2] == "x";
    AnySplitOfPlainText("x");
    assert ParamScoring.DecodeEntries([]) == Success([]);
    assert IndexOf("x", AnyConstraints) < 0;
    assert Split("x", AnyConstraints) == ["x"];
    assert ParamScoring.DecodeEntry("x") == Failure(Runtime(StringIndexOutOfBounds));
    MapAllFirstFailure(["x"], 0, ParamScoring.DecodeEntry);
  }

  /** The smallest case, corrected: `id=7` asked for and sent is one exact query match. */
  lemma QueryExactMatchCredited(stored: string)
    requires stored == EncodeConstraints([("id", "7")])
    ensures ScoreConstraints(stored, map["id" := "7"], NoTiers) == Success(NoTiers.(exact := 1))
  {
    SmallestEntryStorable();
    DecodeEncode([("id", "7")], map["id" := "7"], NoTiers);
    SmallestEntryCredit();
  }

  // ---------------------------------------------------------------------------
  // The request handler
  // ---------------------------------------------------------------------------

  function RankOf(f: FilterData): Ranked
  {
    f.Rank()
  }

  /** The candidates after path scoring, query-parameter scoring (cut as `split` says) and header scoring. */
  function Scored(entities: seq<Entity>, req: Dispatcher.Request, custom: (string, string) -> bool, split: QuerySplit)
    : Result<seq<FilterData>>
  {
    match FilteredList(entities, req.uri, custom)
    case Failure(e) => Failure(e)
    case Success(fs) =>
      match ScoreCandidatesConstraints(fs, ParamScoring.QueryParameters, split, req.queryParameters)
      case Failure(e) => Failure(e)
      case Success(queried) => ScoreCandidatesConstraints(queried, ParamScoring.Headers, split, req.headers)
  }

  /**
   * The part of processAnyMockRequest after scoring: the first candidate after
   * sorting answers, and an empty list makes `get(0)` fail.
   */
  function Choose(fs: seq<FilterData>, isHttpStatus: int -> bool): Result<Dispatcher.Response>
  {
    if fs == [] then Failure(Runtime(IndexOutOfBounds))
    else
      var entity := Ranking.Sort(fs, RankOf)[0].entity;
      match ParseInt(entity.responseStatus)
      case Failure(e) => Failure(e)
      case Success(status) =>
        if !isHttpStatus(status) then Failure(Runtime(IllegalArgument))
        else Success(Dispatcher.Response(status, if IsBlank(entity.responseBody) then None else Some(entity.responseBody)))
  }

  /**
   * The answer of processAnyMockRequest, given the two alphabetized texts. The
   * lookup receives the request URI as it came in. The handler as written
   * answers Select(…, AsWritten); Select(…, Corrected) is the handler with the
   * query split corrected.
   */
  function Select(req: Dispatcher.Request, env: Dispatcher.Environment, queryText: string, headerText: string, split: QuerySplit)
    : Result<Dispatcher.Response>
  {
    var entities := env.lookup(req.verb, req.uri, headerText, queryText);
    if entities == [] then Success(Dispatcher.Response(Dispatcher.NotFound, None))
    else
      match Scored(entities, req, env.custom, split)
      case Failure(e) => Failure(e)
      case Success(fs) => Choose(fs, env.isHttpStatus)
  }

  /** The outcome a result stands for: a response, or an exception that escapes the handler. */
  function Outcome(r: Result<Dispatcher.Response>): Dispatcher.Outcome
  {
    match r
    case Failure(e) => Dispatcher.Escaped(e)
    case Success(response) => Dispatcher.Responded(response)
  }

  /**
   * `o` is an outcome of processAnyMockRequest on `req`: the headers were
   * alphabetized with `;` to `headerText`, the query parameters with `&` and a
   * leading `?` to `queryText`.
   */
  ghost predicate Handles(req: Dispatcher.Request, env: Dispatcher.Environment, queryText: string, headerText: string,
                          o: Dispatcher.Outcome)
  {
    && RequestFormat.AlphabetizedAs(req.headers, HeaderSeparator, headerText)
    && |queryText| >= 1 && queryText[..1] == QueryPrefix
    && RequestFormat.AlphabetizedAs(req.queryParameters, QuerySeparator, queryText[1..])
    && o == Outcome(Select(req, env, queryText, headerText, AsWritten))
  }

  /** getPathFilteredList, then updateQueryCounts and updateHeaderCounts, on one list of records. */
  method ScoreRecords(entities: seq<Entity>, req: Dispatcher.Request, custom: (string, string) -> bool, split: QuerySplit)
    returns (r: Result<seq<FilterData>>)
    ensures r == Scored(entities, req, custom, split)
  {
    var list := GetPathFilteredList(entities, req.uri, custom);
    if list.Failure? {
      return Failure(list.error);
    }
    var fault := UpdateCounts(list.value, ParamScoring.QueryParameters, split, req.queryParameters);
    if fault.Some? {
      return Failure(fault.value);
    }
    fault := UpdateCounts(list.value, ParamScoring.Headers, split, req.headers);
    if fault.Some? {
      return Failure(fault.value);
    }
    return Success(FilterSnapshots(list.value));
  }

  /** Sorting, `get(0)`, the status and the body. */
  method Answer(fs: seq<FilterData>, isHttpStatus: int -> bool) returns (o: Dispatcher.Outcome)
    ensures o == Outcome(Choose(fs, isHttpStatus))
  {
    var sorted := Ranking.Sort(fs, RankOf);
    if sorted == [] {
      return Dispatcher.Escaped(Runtime(IndexOutOfBounds));
    }
    var entity := sorted[0].entity;
    var status := ParseInt(entity.responseStatus);
    if status.Failure? {
      return Dispatcher.Escaped(status.error);
    }
    if !isHttpStatus(status.value) {
      return Dispatcher.Escaped(Runtime(IllegalArgument));
    }
    var body := if IsBlank(entity.responseBody) then None else Some(entity.responseBody);
    o := Dispatcher.Responded(Dispatcher.Response(status.value, body));
  }

  /** processAnyMockRequest once the two maps are alphabetized: the lookup, scoring and the answer. */
  method Route(req: Dispatcher.Request, env: Dispatcher.Environment, queryText: string, headerText: string, split: QuerySplit)
    returns (o: Dispatcher.Outcome)
    ensures o == Outcome(Select(req, env, queryText, headerText, split))
  {
    var entities := env.lookup(req.verb, req.uri, headerText, queryText);
    if entities == [] {
      return Dispatcher.Responded(Dispatcher.Response(Dispatcher.NotFound, None));
    }
    var fs := ScoreRecords(entities, req, env.custom, split);
    if fs.Failure? {
      return Dispatcher.Escaped(fs.error);
    }
    o := Answer(fs.value, env.isHttpStatus);
  }

  /** processAnyMockRequest in the controller, with updateQueryCounts as written. */
  method ProcessAnyMockRequest(req: Dispatcher.Request, env: Dispatcher.Environment)
    returns (o: Dispatcher.Outcome, ghost queryText: string, ghost headerText: string)
    ensures Handles(req, env, queryText, headerText, o)
  {
    var joined, _ := RequestFormat.Alphabetize(req.queryParameters, QuerySeparator);
    var queryParams := QueryPrefix + joined;
    var headerString, _ := RequestFormat.Alphabetize(req.headers, HeaderSeparator);
    assert queryParams[1..] == joined;
    queryText, headerText := queryParams, headerString;
    o := Route(req, env, queryParams, headerString, AsWritten);
  }

  // ---------------------------------------------------------------------------
  // What the legacy handler promises
  // ---------------------------------------------------------------------------

  /**
   * Every scored candidate is a stored definition whose path was kept, with
   * its path counters as path scoring gave them and its query-parameter and
   * header counters as its own constraint texts give them. With the query
   * split as written, every query counter stays at zero.
   */
  lemma ScoredMeaning(entities: seq<Entity>, req: Dispatcher.Request, custom: (string, string) -> bool, split: QuerySplit)
    requires Scored(entities, req, custom, split).Success?
    ensures Trim(req.uri).Success?
    ensures var fs := Scored(entities, req, custom, split).value;
      forall k :: 0 <= k < |fs| ==>
        && fs[k].entity in entities
        && ScorePath(fs[k].entity.apiPath, Trim(req.uri).value, custom) == Success(Some(fs[k].path))
        && ScopeScore(fs[k].entity.requestQueryParameters, ParamScoring.QueryParameters, split, req.queryParameters, NoTiers)
           == Success(fs[k].query)
        && ScoreConstraints(fs[k].entity.requestHeaders, req.headers, NoTiers) == Success(fs[k].header)
        && (split == AsWritten ==> fs[k].query == NoTiers)
  {
    var path := Trim(req.uri).value;
    KeptPathsMeaning(entities, path, custom);
    var kept := KeptPaths(entities, path, custom).value;
    ScoreCandidatesConstraintsMeaning(kept, ParamScoring.QueryParameters, split, req.queryParameters);
    var queried := ScoreCandidatesConstraints(kept, ParamScoring.QueryParameters, split, req.queryParameters).value;
    ScoreCandidatesConstraintsMeaning(queried, ParamScoring.Headers, split, req.headers);
    if split == AsWritten {
      forall k | 0 <= k < |queried|
        ensures queried[k].query == NoTiers
      {
        QueryNeverCreditedAsWritten(kept[k].entity.requestQueryParameters, req.queryParameters, NoTiers);
      }
    }
  }

  /**
   * As written, one query-parameter text scores alike whatever query
   * parameters the request sends.
   */
  lemma QueryScoreIgnoresRequestAsWritten(stored: string, request: map<string, string>, other: map<string, string>, counts: Tiers)
    ensures ScoreQueryAsWritten(stored, request, counts) == ScoreQueryAsWritten(stored, other, counts)
  {
    QueryNeverCreditedAsWritten(stored, request, counts);
    QueryNeverCreditedAsWritten(stored, other, counts);
  }

  /**
   * The handler as written answers alike whatever query parameters the request
   * sends, once the lookup has received the same texts: updateQueryCounts
   * contributes nothing to the ranking.
   */
  lemma QueryParametersIgnoredAsWritten(req: Dispatcher.Request, env: Dispatcher.Environment, queryText: string, headerText: string,
                                        other: map<string, string>)
    ensures Select(req, env, queryText, headerText, AsWritten)
         == Select(req.(queryParameters := other), env, queryText, headerText, AsWritten)
  {
    var req' := req.(queryParameters := other);
    var entities := env.lookup(req.verb, req.uri, headerText, queryText);
    match FilteredList(entities, req.uri, env.custom)
    case Failure(_) =>
    case Success(fs) =>
      forall k | 0 <= k < |fs|
        ensures ScoreCandidateConstraints(fs[k], ParamScoring.QueryParameters, AsWritten, req.queryParameters)
             == ScoreCandidateConstraints(fs[k], ParamScoring.QueryParameters, AsWritten, other)
      {
        QueryScoreIgnoresRequestAsWritten(fs[k].entity.requestQueryParameters, req.queryParameters, other, fs[k].query);
      }
      MapAllAgree(fs, f => ScoreCandidateConstraints(f, ParamScoring.QueryParameters, AsWritten, req.queryParameters),
                      f => ScoreCandidateConstraints(f, ParamScoring.QueryParameters, AsWritten, other));
      assert Scored(entities, req, env.custom, AsWritten) == Scored(entities, req', env.custom, AsWritten);
  }

  /**
   * Whenever the handler answers with a definition, it is the first of the
   * most specific candidates in the order the lookup returned them: no
   * candidate outranks it, and a tie with another candidate is not reported.
   */
  lemma AnswersWithFirstBest(req: Dispatcher.Request, env: Dispatcher.Environment, queryText: string, headerText: string,
                             split: QuerySplit, fs: seq<FilterData>)
    requires env.lookup(req.verb, req.uri, headerText, queryText) != []
    requires Scored(env.lookup(req.verb, req.uri, headerText, queryText), req, env.custom, split) == Success(fs)
    requires Select(req, env, queryText, headerText, split).Success?
    ensures fs != []
    ensures var w := Ranking.Best(fs, RankOf)[0];
      var response := Select(req, env, queryText, headerText, split).value;
      && ParseInt(w.entity.responseStatus) == Success(response.status)
      && response.body == (if IsBlank(w.entity.responseBody) then None else Some(w.entity.responseBody))
      && forall i :: 0 <= i < |fs| ==> Ranking.Compare(RankOf(w), RankOf(fs[i])) <= 0
  {
    Ranking.HeadIsFirstBest(fs, RankOf);
  }

  /**
   * When the lookup finds definitions but path scoring drops them all, `get(0)`
   * on the empty list escapes instead of a 404.
   */
  lemma EmptyFilterEscapes(req: Dispatcher.Request, env: Dispatcher.Environment, queryText: string, headerText: string,
                           split: QuerySplit)
    requires env.lookup(req.verb, req.uri, headerText, queryText) != []
    requires FilteredList(env.lookup(req.verb, req.uri, headerText, queryText), req.uri, env.custom) == Success([])
    ensures Select(req, env, queryText, headerText, split) == Failure(Runtime(IndexOutOfBounds))
  {
    var empty: seq<FilterData> := [];
    assert ScoreCandidatesConstraints(empty, ParamScoring.QueryParameters, split, req.queryParameters) == Success([]);
    assert ScoreCandidatesConstraints(empty, ParamScoring.Headers, split, req.headers) == Success([]);
  }

  /** The chosen candidate yields a 404 without a body exactly when the first best candidate's own status is 404 and its body is blank. */
  lemma ChooseNotFound(fs: seq<FilterData>, isHttpStatus: int -> bool)
    ensures Choose(fs, isHttpStatus) == Success(Dispatcher.Response(Dispatcher.NotFound, None)) <==>
      fs != []
      && var w := Ranking.Best(fs, RankOf)[0].entity;
         ParseInt(w.responseStatus) == Success(Dispatcher.NotFound) && isHttpStatus(Dispatcher.NotFound) && IsBlank(w.responseBody)
  {
    if fs != [] {
      Ranking.HeadIsFirstBest(fs, RankOf);
    }
  }

  /**
   * The handler answers 404 without a body exactly when the lookup finds
   * nothing, or when the chosen definition's own status is 404 and its body
   * is blank.
   */
  lemma NotFoundExactly(req: Dispatcher.Request, env: Dispatcher.Environment, queryText: string, headerText: string,
                        split: QuerySplit)
    ensures var entities := env.lookup(req.verb, req.uri, headerText, queryText);
      Select(req, env, queryText, headerText, split) == Success(Dispatcher.Response(Dispatcher.NotFound, None)) <==>
        entities == []
        || (&& Scored(entities, req, env.custom, split).Success?
            && Choose(Scored(entities, req, env.custom, split).value, env.isHttpStatus) == Success(Dispatcher.Response(Dispatcher.NotFound, None)))
  {
  }
}
