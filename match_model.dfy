/**
 * The data the matcher works on: the stored mock definition, the per-candidate
 * specificity counters, and the records that carry them while a request is
 * being matched.
 */
module MatchModel {

  /**
   * A stored mock definition: the request it matches (path, verb, header and
   * query-string constraints, all kept as regular-expression text) and the
   * response it returns.
   */
  datatype Entity = Entity(
    id: int,
    apiPath: string,
    requestVerb: string,
    requestHeaders: string,
    requestPathParameters: string,
    requestQueryParameters: string,
    responseBody: string,
    responseStatus: string)

  /** How one path segment, header or query parameter was matched. */
  datatype Category = Exact | Custom | Digit | AlphaNumeric | Wildcard | Exists

  /** Counters of the five specificity tiers, most specific first. */
  datatype Tiers = Tiers(exact: nat, custom: nat, digit: nat, alphaNumeric: nat, wildcard: nat)
  {
    function Total(): nat
    {
      exact + custom + digit + alphaNumeric + wildcard
    }

    /** One more match of category `c`. */
    function Credit(c: Category): (r: Tiers)
      requires c != Exists
      ensures r.Total() == Total() + 1
    {
      match c
      case Exact => this.(exact := exact + 1)
      case Custom => this.(custom := custom + 1)
      case Digit => this.(digit := digit + 1)
      case AlphaNumeric => this.(alphaNumeric := alphaNumeric + 1)
      case Wildcard => this.(wildcard := wildcard + 1)
    }
  }

  const NoTiers := Tiers(0, 0, 0, 0, 0)

  /** Counters of header or query-parameter matches: the five tiers and the presence-only tier. */
  datatype ParamCounts = ParamCounts(tiers: Tiers, present: nat)
  {
    function Total(): nat
    {
      tiers.Total() + present
    }

    function Credit(c: Category): (r: ParamCounts)
      ensures r.Total() == Total() + 1
      ensures c == Exists <==> r.tiers == tiers
    {
      if c == Exists then this.(present := present + 1) else this.(tiers := tiers.Credit(c))
    }
  }

  const NoParams := ParamCounts(NoTiers, 0)

  /** The fifteen counters the ranking comparator reads. */
  datatype Ranked = Ranked(path: Tiers, query: Tiers, header: Tiers)

  /** A candidate's counters as a value (a MockApiMatchData at one moment). */
  datatype MatchData = MatchData(entity: Entity, path: Tiers, query: ParamCounts, header: ParamCounts)
  {
    function Rank(): Ranked
    {
      Ranked(path, query.tiers, header.tiers)
    }
  }

  /** MockApiMatchData: a candidate and the counters the scoring passes update in place. */
  class MatchRecord {
    var entity: Entity
    var path: Tiers
    var query: ParamCounts
    var header: ParamCounts

    /** A new record after path scoring: the header and query counters start at zero. */
    constructor (entity: Entity, path: Tiers)
      ensures this.entity == entity && this.path == path
      ensures query == NoParams && header == NoParams
    {
      this.entity := entity;
      this.path := path;
      query := NoParams;
      header := NoParams;
    }

    function Snapshot(): MatchData
      reads this
    {
      MatchData(entity, path, query, header)
    }
  }

  /** The legacy controller's candidate counters as a value (a MockApiFilterData at one moment). */
  datatype FilterData = FilterData(entity: Entity, path: Tiers, query: Tiers, header: Tiers)
  {
    function Rank(): Ranked
    {
      Ranked(path, query, header)
    }
  }

  /** MockApiFilterData: the legacy controller's candidate, without presence-only counters. */
  class FilterRecord {
    var entity: Entity
    var path: Tiers
    var query: Tiers
    var header: Tiers

    constructor (entity: Entity, path: Tiers)
      ensures this.entity == entity && this.path == path
      ensures query == NoTiers && header == NoTiers
    {
      this.entity := entity;
      this.path := path;
      query := NoTiers;
      header := NoTiers;
    }

    function Snapshot(): FilterData
      reads this
    {
      FilterData(entity, path, query, header)
    }
  }

  /** The values of a list of records, in list order. */
  function Snapshots(rs: seq<MatchRecord>): (r: seq<MatchData>)
    reads rs
    ensures |r| == |rs|
    ensures forall k :: 0 <= k < |rs| ==> r[k] == rs[k].Snapshot()
  {
    if rs == [] then [] else Snapshots(rs[..|rs| - 1]) + [rs[|rs| - 1].Snapshot()]
  }

  /** The values of a list of legacy records, in list order. */
  function FilterSnapshots(rs: seq<FilterRecord>): (r: seq<FilterData>)
    reads rs
    ensures |r| == |rs|
    ensures forall k :: 0 <= k < |rs| ==> r[k] == rs[k].Snapshot()
  {
    if rs == [] then [] else FilterSnapshots(rs[..|rs| - 1]) + [rs[|rs| - 1].Snapshot()]
  }

  /** No object occurs twice in the list. */
  predicate Distinct<T(==)>(xs: seq<T>)
  {
    forall i, j :: 0 <= i < j < |xs| ==> xs[i] != xs[j]
  }

  /** Appending an object not yet in the list keeps it free of repeats. */
  lemma DistinctAppend<T>(xs: seq<T>, x: T)
    requires Distinct(xs) && x !in xs
    ensures Distinct(xs + [x])
  {
    var ys := xs + [x];
    forall i, j | 0 <= i < j < |ys|
      ensures ys[i] != ys[j]
    {
      assert ys[i] == xs[i];
      if j < |xs| {
        assert ys[j] == xs[j];
      }
    }
  }
}
