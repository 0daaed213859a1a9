/**
 * processAnyMockRequest: how a request is answered. The request's headers and
 * query parameters are alphabetized, its URI normalised, the stored definitions
 * whose patterns accept it are looked up, scored by path, query parameters and
 * headers, and ranked; the single best one answers with its status and its
 * response body after template expansion.
 */
module Dispatcher {
  import opened Faults
  import opened JavaStrings
  import opened JavaNumbers
  import opened MatchModel
  import opened Ranking
  import RequestFormat
  import StringOrder
  import PathScoring
  import ParamScoring
  import TemplateSyntax
  import Template
  import TemplateProperties

  const NotFound := 404
  const Conflict := 409
  const InternalServerError := 500
  const ConflictMessage := "Unable to process, because highest priority match belongs to more than one Mock API."

  /** A ResponseEntity: the status and, when there is one, the body. */
  datatype Response = Response(status: int, body: Option<string>)

  /** What processAnyMockRequest does: answer, or let an exception escape to the caller. */
  datatype Outcome = Responded(response: Response) | Escaped(fault: Fault)

  /** An incoming request: the verb, the request URI, and the header and query-parameter maps. */
  datatype Request = Request(verb: string, uri: string, headers: map<string, string>, queryParameters: map<string, string>)

  /**
   * What the dispatcher relies on and the model does not contain: the
   * repository lookup `gatherApiMocksByRegexp(verb, path, headerText,
   * queryText)`, the custom-regex matcher, and the codes HttpStatus knows.
   */
  datatype Environment = Environment(
    lookup: (string, string, string, string) -> seq<Entity>,
    custom: (string, string) -> bool,
    isHttpStatus: int -> bool)

  /** The candidates after path counting, then query counting, then header counting. */
  function Scored(entities: seq<Entity>, path: string, req: Request, custom: (string, string) -> bool): Result<seq<MatchData>>
  {
    match PathScoring.KeptPaths(entities, path, custom)
    case Failure(e) => Failure(e)
    case Success(kept) =>
      match ParamScoring.ScoreCandidates(kept, ParamScoring.QueryParameters, req.queryParameters)
      case Failure(e) => Failure(e)
      case Success(queried) => ParamScoring.ScoreCandidates(queried, ParamScoring.Headers, req.headers)
  }

  /** The decision reached before the body is expanded: a fixed response, or the chosen status and body template. */
  datatype Selection = Refused(response: Response) | Chosen(status: int, body: string)

  /** Ranking the scored candidates, the ambiguity check, and reading the winner's status. */
  function Choose(ms: seq<MatchData>, isHttpStatus: int -> bool): Result<Selection>
  {
    if ms == [] then Success(Refused(Response(NotFound, None)))
    else
      var sorted := Sort(ms, RankOf);
      if |sorted| > 1 && SamePriority(sorted[0], sorted[1]) then
        Success(Refused(Response(Conflict, Some(ConflictMessage))))
      else
        match ParseInt(sorted[0].entity.responseStatus)
        case Failure(e) => Failure(e)
        case Success(status) =>
          if isHttpStatus(status) then Success(Chosen(status, sorted[0].entity.responseBody))
          else Failure(Runtime(IllegalArgument))
  }

  /** Everything up to the template expansion, given the two alphabetized texts. */
  function Select(req: Request, env: Environment, queryText: string, headerText: string): Result<Selection>
  {
    match RequestFormat.NormaliseRequestUri(req.uri)
    case Failure(e) => Failure(e)
    case Success(path) =>
      var entities := env.lookup(req.verb, path, headerText, queryText);
      if entities == [] then Success(Refused(Response(NotFound, None)))
      else
        match Scored(entities, path, req, env.custom)
        case Failure(e) => Failure(e)
        case Success(ms) => Choose(ms, env.isHttpStatus)
  }

  /**
   * The answer once the body is expanded: an InvalidResponseBodyException
   * becomes a 500 carrying its message, any other exception escapes, and a
   * blank body is left out of the response.
   */
  function Finish(status: int, expanded: Result<string>): Outcome
  {
    match expanded
    case Failure(InvalidResponseBody(message)) => Responded(Response(InternalServerError, Some(message)))
    case Failure(e) => Escaped(e)
    case Success(body) => Responded(Response(status, if IsBlank(body) then None else Some(body)))
  }

  /**
   * `o` answers the decision `sel`, where the expansion of a chosen body made
   * the draws `dss` (none when no body is expanded).
   */
  ghost predicate Answers(sel: Result<Selection>, dss: seq<seq<Result<string>>>, o: Outcome)
  {
    match sel
    case Failure(e) => o == Escaped(e) && dss == []
    case Success(Refused(response)) => o == Responded(response) && dss == []
    case Success(Chosen(status, body)) =>
      var c := Template.Chain(TemplateSyntax.Passes, body, dss, Template.PassOutcome);
      c.Some? && o == Finish(status, c.value)
  }

  /**
   * `o` is an outcome of processAnyMockRequest on `req`, where the maps
   * alphabetized to `queryText` and `headerText` and the expansion made the
   * draws `dss`.
   */
  ghost predicate Handles(req: Request, env: Environment, queryText: string, headerText: string,
                          dss: seq<seq<Result<string>>>, o: Outcome)
  {
    && RequestFormat.AlphabetizedAs(req.queryParameters, RequestFormat.TokenSeparator, queryText)
    && RequestFormat.AlphabetizedAs(req.headers, RequestFormat.TokenSeparator, headerText)
    && Answers(Select(req, env, queryText, headerText), dss, o)
  }

  /**
   * generatedMockApiMatchDataListWithPathCounts, then
   * updateMockApiMatchDataListWithQueryCounts, then
   * updateMockApiMatchDataListWithHeaderCounts, on one list of records.
   */
  method ScoreRecords(entities: seq<Entity>, path: string, req: Request, custom: (string, string) -> bool)
    returns (r: Result<seq<MatchData>>)
    ensures r == Scored(entities, path, req, custom)
  {
    var list := PathScoring.PathCounts(entities, path, custom);
    if list.Failure? {
      return Failure(list.error);
    }
    var fault := ParamScoring.UpdateCounts(list.value, ParamScoring.QueryParameters, req.queryParameters);
    if fault.Some? {
      return Failure(fault.value);
    }
    fault := ParamScoring.UpdateCounts(list.value, ParamScoring.Headers, req.headers);
    if fault.Some? {
      return Failure(fault.value);
    }
    return Success(Snapshots(list.value));
  }

  /** The part of processAnyMockRequest after scoring: ranking, the ambiguity check, the status, and the body. */
  method Answer(ms: seq<MatchData>, isHttpStatus: int -> bool) returns (o: Outcome, ghost dss: seq<seq<Result<string>>>)
    ensures Answers(Choose(ms, isHttpStatus), dss, o)
  {
    dss := [];
    if ms == [] {
      return Responded(Response(NotFound, None)), dss;
    }
    var sorted := Sort(ms, RankOf);
    if |sorted| > 1 && SamePriority(sorted[0], sorted[1]) {
      return Responded(Response(Conflict, Some(ConflictMessage))), dss;
    }
    var entity := sorted[0].entity;
    var status := ParseInt(entity.responseStatus);
    if status.Failure? {
      return Escaped(status.error), dss;
    }
    if !isHttpStatus(status.value) {
      return Escaped(Runtime(IllegalArgument)), dss;
    }
    var body;
    body, dss := Template.Expand(entity.responseBody);
    o := Finish(status.value, body);
  }

  /** processAnyMockRequest once the two maps are alphabetized: normalising, the lookup, scoring and the answer. */
  method Route(req: Request, env: Environment, queryText: string, headerText: string)
    returns (o: Outcome, ghost dss: seq<seq<Result<string>>>)
    ensures Answers(Select(req, env, queryText, headerText), dss, o)
  {
    dss := [];
    var path := RequestFormat.NormaliseRequestUri(req.uri);
    if path.Failure? {
      return Escaped(path.error), dss;
    }
    var entities := env.lookup(req.verb, path.value, headerText, queryText);
    if entities == [] {
      return Responded(Response(NotFound, None)), dss;
    }
    var ms := ScoreRecords(entities, path.value, req, env.custom);
    if ms.Failure? {
      return Escaped(ms.error), dss;
    }
    o, dss := Answer(ms.value, env.isHttpStatus);
  }

  /** processAnyMockRequest. */
  method ProcessAnyMockRequest(req: Request, env: Environment)
    returns (o: Outcome, ghost queryText: string, ghost headerText: string, ghost dss: seq<seq<Result<string>>>)
    ensures Handles(req, env, queryText, headerText, dss, o)
  {
    var queryParams, _ := RequestFormat.Alphabetize(req.queryParameters, RequestFormat.TokenSeparator);
    var headerString, _ := RequestFormat.Alphabetize(req.headers, RequestFormat.TokenSeparator);
    queryText, headerText := queryParams, headerString;
    o, dss := Route(req, env, queryParams, headerString);
  }

  // ---------------------------------------------------------------------------
  // What the dispatcher promises
  // ---------------------------------------------------------------------------

  /** Scoring keeps nothing exactly when path scoring keeps nothing (header and query scoring never drop a candidate). */
  lemma ScoredEmpty(entities: seq<Entity>, path: string, req: Request, custom: (string, string) -> bool)
    ensures Scored(entities, path, req, custom) == Success([]) <==> PathScoring.KeptPaths(entities, path, custom) == Success([])
  {
    var empty: seq<MatchData> := [];
    assert MapAll(empty, m => ParamScoring.ScoreCandidate(m, ParamScoring.QueryParameters, req.queryParameters)) == Success([]);
    assert MapAll(empty, m => ParamScoring.ScoreCandidate(m, ParamScoring.Headers, req.headers)) == Success([]);
    match PathScoring.KeptPaths(entities, path, custom)
    case Failure(_) =>
    case Success(kept) =>
      ParamScoring.ScoreCandidatesMeaning(kept, ParamScoring.QueryParameters, req.queryParameters);
      match ParamScoring.ScoreCandidates(kept, ParamScoring.QueryParameters, req.queryParameters)
      case Failure(_) =>
      case Success(queried) =>
        ParamScoring.ScoreCandidatesMeaning(queried, ParamScoring.Headers, req.headers);
  }

  /**
   * The request is answered 404 without a body exactly when the URI
   * normalises and either the lookup finds nothing or no stored path accepts
   * the request path.
   */
  lemma NotFoundExactly(req: Request, env: Environment, queryText: string, headerText: string)
    ensures Select(req, env, queryText, headerText) == Success(Refused(Response(NotFound, None))) <==>
      && RequestFormat.NormaliseRequestUri(req.uri).Success?
      && var path := RequestFormat.NormaliseRequestUri(req.uri).value;
         var entities := env.lookup(req.verb, path, headerText, queryText);
         entities == [] || PathScoring.KeptPaths(entities, path, env.custom) == Success([])
  {
    if RequestFormat.NormaliseRequestUri(req.uri).Success? {
      var path := RequestFormat.NormaliseRequestUri(req.uri).value;
      ScoredEmpty(env.lookup(req.verb, path, headerText, queryText), path, req, env.custom);
    }
  }

  /**
   * The request is refused as ambiguous (409 with the fixed message) exactly
   * when scoring leaves candidates, at least two share the best counters, and
   * the first two of those agree on the presence-only counters.
   */
  lemma ConflictExactly(ms: seq<MatchData>, isHttpStatus: int -> bool)
    ensures Choose(ms, isHttpStatus) == Success(Refused(Response(Conflict, Some(ConflictMessage)))) <==>
      && ms != []
      && var b := Best(ms, RankOf);
         |b| >= 2 && b[0].query.present == b[1].query.present && b[0].header.present == b[1].header.present
  {
    if ms != [] {
      ConflictExactlyWhenBestTie(ms);
    }
  }

  /**
   * A request that gets past ranking is answered by the first of the most
   * specific candidates: its body template is the one expanded, its status
   * text reads as a code HttpStatus knows, no candidate outranks it, and no
   * other candidate ties with it.
   */
  lemma ChosenIsFirstBest(ms: seq<MatchData>, isHttpStatus: int -> bool, status: int, body: string)
    requires Choose(ms, isHttpStatus) == Success(Chosen(status, body))
    ensures ms != []
    ensures var w := Best(ms, RankOf)[0];
      && body == w.entity.responseBody
      && ParseInt(w.entity.responseStatus) == Success(status) && isHttpStatus(status)
      && (forall i :: 0 <= i < |ms| ==> Compare(RankOf(w), RankOf(ms[i])) <= 0)
    ensures var b := Best(ms, RankOf);
      |b| == 1 || b[0].query.present != b[1].query.present || b[0].header.present != b[1].header.present
  {
    HeadIsFirstBest(ms, RankOf);
    ConflictExactlyWhenBestTie(ms);
  }

  /**
   * A chosen body without `{` is served as stored: the response carries the
   * chosen status, and the body unless it is blank.
   */
  lemma PlainBodyServedAsStored(req: Request, env: Environment, queryText: string, headerText: string,
                                dss: seq<seq<Result<string>>>, o: Outcome, status: int, body: string)
    requires Select(req, env, queryText, headerText) == Success(Chosen(status, body))
    requires forall i :: 0 <= i < |body| ==> body[i] != '{'
    requires Handles(req, env, queryText, headerText, dss, o)
    ensures o == Responded(Response(status, if IsBlank(body) then None else Some(body)))
  {
    var c := Template.Chain(TemplateSyntax.Passes, body, dss, Template.PassOutcome);
    TemplateProperties.TemplateFree(body, dss, c.value);
  }

  /**
   * A template the expander rejects as invalid is answered 500 with the
   * rejection's message; any other exception of the expander escapes.
   */
  lemma ExpansionFaults(req: Request, env: Environment, queryText: string, headerText: string,
                        dss: seq<seq<Result<string>>>, o: Outcome, status: int, body: string, e: Fault)
    requires Select(req, env, queryText, headerText) == Success(Chosen(status, body))
    requires Handles(req, env, queryText, headerText, dss, o)
    requires Template.Expansion(body, dss, Failure(e))
    ensures e.InvalidResponseBody? ==> o == Responded(Response(InternalServerError, Some(e.message)))
    ensures e.Runtime? ==> o == Escaped(e)
  {
  }
}
