/**
  The Row Source of the embedding script: Embedder.get_rows selects (id, query) pairs
  of the source table after a fixed resume id, in ascending id order, with an
  optional LIMIT taken from the max_rows setting.
 */
module RowSource {
  import opened Wrappers
  import opened Sequences
  import opened Ordering

  /** A source row as the pipeline reads it: the queries table's id and query text. */
  datatype QueryRow = QueryRow(queriesId: int, query: string)

  /** The SELECT resumes after this id; the script hard-codes it. */
  const StartAfterId: int := 130700

  /** PostgreSQL refuses a negative LIMIT, so a negative max_rows aborts the run. */
  datatype SelectError = NegativeLimit(maxRows: int)

  function Id(row: QueryRow): int
  {
    row.queriesId
  }

  predicate AfterStart(row: QueryRow)
  {
    row.queriesId > StartAfterId
  }

  /** SELECT id, query ... WHERE id > 130700 ORDER BY id ASC, before any LIMIT. */
  function Ordered(source: seq<QueryRow>): seq<QueryRow>
  {
    SortBy(Filter(source, AfterStart), Id)
  }

  /** The ordered selection is ascending and holds only source rows after the resume id. */
  lemma OrderedRows(source: seq<QueryRow>)
    ensures Ascending(Ordered(source), Id)
    ensures forall i :: 0 <= i < |Ordered(source)| ==> Ordered(source)[i] in source && Ordered(source)[i].queriesId > StartAfterId
  {
    var selected := Filter(source, AfterStart);
    SortByMembers(selected, Id);
    forall i | 0 <= i < |Ordered(source)|
      ensures Ordered(source)[i] in source && Ordered(source)[i].queriesId > StartAfterId
    {
      var k :| 0 <= k < |selected| && selected[k] == Ordered(source)[i];
    }
  }

  /** The rows get_rows streams; max_rows is applied only when it is truthy (not None, not 0). */
  function GetRows(source: seq<QueryRow>, maxRows: Option<int>): (r: Result<seq<QueryRow>, SelectError>)
    ensures r.Err? <==> maxRows.Some? && maxRows.value < 0
    ensures r.Ok? ==> Ascending(r.value, Id)
    ensures r.Ok? ==> forall i :: 0 <= i < |r.value| ==> r.value[i] in source && r.value[i].queriesId > StartAfterId
    ensures r.Ok? && maxRows.Some? && maxRows.value > 0 ==> |r.value| <= maxRows.value
  {
    var ordered := Ordered(source);
    OrderedRows(source);
    match maxRows
    case None => Ok(ordered)
    case Some(n) =>
      if n < 0 then Err(NegativeLimit(n))
      else if n == 0 then Ok(ordered)
      else Ok(Take(ordered, n))
  }

  /** Without a cap, the selection holds exactly the source rows after the resume id, ids strictly ascending. */
  lemma GetRowsExact(source: seq<QueryRow>)
    requires UniqueKeys(source, Id)
    ensures GetRows(source, None).Ok?
    ensures StrictlyAscending(GetRows(source, None).value, Id)
    ensures forall x :: x in GetRows(source, None).value <==> x in source && x.queriesId > StartAfterId
  {
    FilterKeepsUniqueKeys(source, AfterStart, Id);
    SortByStrict(Filter(source, AfterStart), Id);
    var ordered := Ordered(source);
    forall x ensures x in ordered <==> x in source && x.queriesId > StartAfterId {
      assert x in ordered <==> x in multiset(ordered);
      assert x in Filter(source, AfterStart) <==> x in multiset(Filter(source, AfterStart));
      if x in source && AfterStart(x) {
        var k :| 0 <= k < |source| && source[k] == x;
      }
      if x in Filter(source, AfterStart) {
        var k :| 0 <= k < |Filter(source, AfterStart)| && Filter(source, AfterStart)[k] == x;
      }
    }
  }

  /**
    Any sequence that lists exactly the source rows after the resume id in strictly
    ascending id order is what get_rows yields uncapped, and its first max_rows rows
    are what it yields capped.
   */
  lemma GetRowsCharacterised(source: seq<QueryRow>, t: seq<QueryRow>)
    requires UniqueKeys(source, Id)
    requires StrictlyAscending(t, Id)
    requires forall x :: x in t <==> x in source && x.queriesId > StartAfterId
    ensures GetRows(source, None) == Ok(t)
    ensures GetRows(source, Some(0)) == Ok(t)
    ensures forall n :: n > 0 ==> GetRows(source, Some(n)) == Ok(Take(t, n))
  {
    GetRowsExact(source);
    StrictlyAscendingUnique(Ordered(source), t, Id);
  }
}
