/**
  The /search endpoint of the HTTP API: the rows of the queries table that pass the
  optional filters, from the offset id on, in ascending id order, at most limit of them.
  PostgreSQL's full-text match of a query against a literal is a parameter.
 */
module SearchEndpoint {
  import opened Wrappers
  import opened Sequences
  import opened Ordering

  /** A row of the queries table; the timestamp type is left abstract. */
  datatype Query<Time> = Query(
    id: int,
    anonId: int,
    query: string,
    queryTime: Time,
    itemRank: Option<int>,
    clickUrl: Option<string>)

  /** The endpoint's query parameters; absent ones are None, and limit and offset default to 100 and 0. */
  datatype Params = Params(
    literal: Option<string>,
    anonId: Option<int>,
    queryId: Option<int>,
    limit: int,
    offset: int)

  /** PostgreSQL refuses a negative LIMIT, so the request fails. */
  datatype SearchError = NegativeLimit(limit: int)

  const DefaultLimit: int := 100
  const DefaultOffset: int := 0

  /** A request with no parameters given. */
  function Defaults(): Params
  {
    Params(None, None, None, DefaultLimit, DefaultOffset)
  }

  function Id<Time>(q: Query<Time>): int
  {
    q.id
  }

  /** Python truthiness of the optional parameters: None, "" and 0 switch a filter off. */
  predicate TextSet(o: Option<string>)
  {
    o.Some? && o.value != ""
  }

  predicate IntSet(o: Option<int>)
  {
    o.Some? && o.value != 0
  }

  /**
    The WHERE clause the endpoint builds: each truthy filter, and always id >= offset.
    matches(text, literal) stands for to_tsvector('english', text) matching literal.
   */
  predicate Admits<Time>(q: Query<Time>, p: Params, matches: (string, string) -> bool)
  {
    && (TextSet(p.literal) ==> matches(q.query, p.literal.value))
    && (IntSet(p.anonId) ==> q.anonId == p.anonId.value)
    && (IntSet(p.queryId) ==> q.id == p.queryId.value)
    && q.id >= p.offset
  }

  /** The rows that pass the WHERE clause, in the order the table holds them. */
  function Matching<Time>(rows: seq<Query<Time>>, p: Params, matches: (string, string) -> bool): seq<Query<Time>>
  {
    Filter(rows, (q: Query<Time>) => Admits(q, p, matches))
  }

  /**
    ... ORDER BY id ASC LIMIT limit over the matching rows. The request fails exactly
    when limit is negative; otherwise there are at most limit results.
   */
  function Search<Time>(rows: seq<Query<Time>>, p: Params, matches: (string, string) -> bool)
    : (r: Result<seq<Query<Time>>, SearchError>)
    ensures r.Err? <==> p.limit < 0
    ensures r.Ok? ==> |r.value| <= p.limit
  {
    if p.limit < 0 then Err(NegativeLimit(p.limit))
    else Ok(Take(SortBy(Matching(rows, p, matches), Id), p.limit))
  }

  /** Every result is a row of the table that passes every active filter and has id >= offset. */
  lemma SearchFilters<Time>(rows: seq<Query<Time>>, p: Params, matches: (string, string) -> bool)
    ensures var r := Search(rows, p, matches);
      r.Ok? ==> forall i :: 0 <= i < |r.value| ==>
        && r.value[i] in rows
        && r.value[i].id >= p.offset
        && (TextSet(p.literal) ==> matches(r.value[i].query, p.literal.value))
        && (IntSet(p.anonId) ==> r.value[i].anonId == p.anonId.value)
        && (IntSet(p.queryId) ==> r.value[i].id == p.queryId.value)
  {
    var sorted := SortBy(Matching(rows, p, matches), Id);
    SortByMembers(Matching(rows, p, matches), Id);
    if p.limit >= 0 {
      var r := Take(sorted, p.limit);
      forall i | 0 <= i < |r| ensures r[i] in Matching(rows, p, matches) {
        assert r[i] == sorted[i];
      }
    }
  }

  /** The results come in ascending id order; since id is the primary key, strictly ascending. */
  lemma SearchOrdered<Time>(rows: seq<Query<Time>>, p: Params, matches: (string, string) -> bool)
    requires UniqueKeys(rows, Id)
    ensures Search(rows, p, matches).Ok? ==> StrictlyAscending(Search(rows, p, matches).value, Id)
  {
    var m := Matching(rows, p, matches);
    FilterKeepsUniqueKeys(rows, (q: Query<Time>) => Admits(q, p, matches), Id);
    SortByStrict(m, Id);
  }

  /** A truthy query_id leaves at most one result, the row with that id. */
  lemma SearchById<Time>(rows: seq<Query<Time>>, p: Params, matches: (string, string) -> bool)
    requires UniqueKeys(rows, Id) && IntSet(p.queryId)
    ensures Search(rows, p, matches).Ok? ==> |Search(rows, p, matches).value| <= 1
  {
    SearchFilters(rows, p, matches);
    SearchOrdered(rows, p, matches);
    var r := Search(rows, p, matches);
    assert r.Ok? && |r.value| > 1 ==> Id(r.value[0]) < Id(r.value[1]);
  }

  /**
    The results are the first matching rows by id: a matching row that was left out
    has a larger id than every result, and when fewer than limit rows came back none
    was left out.
   */
  lemma SearchFirst<Time>(rows: seq<Query<Time>>, p: Params, matches: (string, string) -> bool, x: Query<Time>)
    requires UniqueKeys(rows, Id)
    requires x in rows && Admits(x, p, matches)
    ensures var r := Search(rows, p, matches);
      r.Ok? && x !in r.value ==> |r.value| == p.limit && forall i :: 0 <= i < |r.value| ==> r.value[i].id < x.id
  {
    var m := Matching(rows, p, matches);
    var sorted := SortBy(m, Id);
    SearchOrdered(rows, p, matches);
    FilterKeepsUniqueKeys(rows, (q: Query<Time>) => Admits(q, p, matches), Id);
    SortByStrict(m, Id);
    var r := Search(rows, p, matches);
    if r.Ok? && x !in r.value {
      var j :| 0 <= j < |rows| && rows[j] == x;
      assert x in m;
      assert x in multiset(m);
      assert x in multiset(sorted);
      var k :| 0 <= k < |sorted| && sorted[k] == x;
      assert p.limit < |sorted| && r.value == sorted[..p.limit];
      forall i | 0 <= i < |r.value| ensures r.value[i].id < x.id {
        assert r.value[i] == sorted[i];
      }
    }
  }

  /**
    Completeness: any strictly ascending listing of exactly the matching rows, cut at
    limit, is the response.
   */
  lemma SearchCharacterised<Time>(rows: seq<Query<Time>>, p: Params, matches: (string, string) -> bool,
                                  t: seq<Query<Time>>)
    requires UniqueKeys(rows, Id) && p.limit >= 0
    requires StrictlyAscending(t, Id)
    requires forall x :: x in t <==> x in rows && Admits(x, p, matches)
    ensures Search(rows, p, matches) == Ok(Take(t, p.limit))
  {
    var m := Matching(rows, p, matches);
    var sorted := SortBy(m, Id);
    FilterKeepsUniqueKeys(rows, (q: Query<Time>) => Admits(q, p, matches), Id);
    SortByStrict(m, Id);
    forall x ensures x in sorted <==> x in t {
      assert x in sorted <==> x in multiset(sorted);
      assert x in m <==> x in multiset(m);
      if x in rows && Admits(x, p, matches) {
        var j :| 0 <= j < |rows| && rows[j] == x;
      }
      if x in m {
        var k :| 0 <= k < |m| && m[k] == x;
      }
    }
    StrictlyAscendingUnique(sorted, t, Id);
  }

  /** An empty literal and a zero anon_id or query_id are the same requests as leaving them out. */
  lemma FalsyParamsIgnored<Time>(rows: seq<Query<Time>>, p: Params, matches: (string, string) -> bool)
    ensures Search(rows, p.(literal := Some("")), matches) == Search(rows, p.(literal := None), matches)
    ensures Search(rows, p.(anonId := Some(0)), matches) == Search(rows, p.(anonId := None), matches)
    ensures Search(rows, p.(queryId := Some(0)), matches) == Search(rows, p.(queryId := None), matches)
  {
    FilterSame(rows, p.(literal := Some("")), matches, p.(literal := None), matches);
    FilterSame(rows, p.(anonId := Some(0)), matches, p.(anonId := None), matches);
    FilterSame(rows, p.(queryId := Some(0)), matches, p.(queryId := None), matches);
  }

  /** Requests that admit the same rows match the same rows. */
  lemma {:induction false} FilterSame<Time>(rows: seq<Query<Time>>, p: Params, matches: (string, string) -> bool,
                                            p': Params, matches': (string, string) -> bool)
    requires forall q: Query<Time> :: Admits(q, p, matches) == Admits(q, p', matches')
    ensures Matching(rows, p, matches) == Matching(rows, p', matches')
  {
    if rows != [] {
      FilterSame(rows[1..], p, matches, p', matches');
    }
  }

  /**
    A request with no parameters: no full-text matching takes place, and the response
    is the first 100 rows by id among those with id >= 0.
   */
  lemma SearchDefaults<Time>(rows: seq<Query<Time>>, matches: (string, string) -> bool,
                             matches': (string, string) -> bool)
    ensures Search(rows, Defaults(), matches) == Search(rows, Defaults(), matches')
    ensures Search(rows, Defaults(), matches).Ok?
    ensures |Search(rows, Defaults(), matches).value| <= 100
    ensures forall i :: 0 <= i < |Search(rows, Defaults(), matches).value| ==>
      Search(rows, Defaults(), matches).value[i] in rows && Search(rows, Defaults(), matches).value[i].id >= 0
  {
    FilterSame(rows, Defaults(), matches, Defaults(), matches');
    SearchFilters(rows, Defaults(), matches);
  }
}
