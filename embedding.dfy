/**
  What the embedding script's main does, stated on values: the text-to-embedding
  cache and its contract, embedding one row and one batch of rows, and running the
  batches in order with one insert per batch.
 */
module Embedding {
  import opened Wrappers
  import opened Sequences
  import opened RowSource
  import opened Batching
  import opened Dedup

  /** An embedded row: the source row's id and an opaque embedding value. */
  datatype EmbeddedQuery<E> = EmbeddedQuery(queriesId: int, embedding: E)

  datatype RunError =
    | RowSourceFailed(cause: SelectError)
      /** The provider client raised (rate limit, network, malformed answer). */
    | ProviderFailed(query: string)
      /** The provider answered without any embedding, so embeddings[0] fails. */
    | EmptyReply(query: string)

  /** The query texts of the rows, in order. */
  function Texts(rows: seq<QueryRow>): seq<string>
  {
    seq(|rows|, k requires 0 <= k < |rows| => rows[k].query)
  }

  /** The (queries_id, embedding) pairs save_embeddings inserts, in order. */
  function ToPairs<E>(embeddings: seq<EmbeddedQuery<E>>): seq<(int, E)>
  {
    seq(|embeddings|, k requires 0 <= k < |embeddings| => (embeddings[k].queriesId, embeddings[k].embedding))
  }

  /** c1 agrees with c0 on every text c0 holds. */
  ghost predicate Extends<E>(c0: map<string, E>, c1: map<string, E>)
  {
    forall t :: t in c0 ==> t in c1 && c1[t] == c0[t]
  }

  /** The embedding the cache keeps from the provider's n-th call, made for text t alone. */
  function Answer<E>(reply: (nat, seq<string>) -> Option<seq<E>>, n: nat, t: string): Option<E>
  {
    match reply(n, [t])
    case Some(es) => if es == [] then None else Some(es[0])
    case None => None
  }

  /** The j-th newly seen text was sent alone as call start + j, and the cache holds the answer. */
  ghost predicate Answers<E>(cache: map<string, E>, unseen: seq<string>, start: nat, reply: (nat, seq<string>) -> Option<seq<E>>)
  {
    forall j :: 0 <= j < |unseen| ==> unseen[j] in cache && Answer(reply, start + j, unseen[j]) == Some(cache[unseen[j]])
  }

  /**
    c1 is the cache c0 after embedding the texts ts when the provider's calls are
    numbered from start: it holds exactly the old texts and the texts of ts, keeps
    the old entries, and maps each newly seen text to the provider's answer for it.
   */
  ghost predicate Learned<E>(c0: map<string, E>, c1: map<string, E>, start: nat,
                             reply: (nat, seq<string>) -> Option<seq<E>>, ts: seq<string>)
  {
    && c1.Keys == c0.Keys + Distinct(ts)
    && Extends(c0, c1)
    && Answers(c1, NewTexts(ts, c0.Keys), start, reply)
  }

  ghost predicate Covers<E>(cache: map<string, E>, rows: seq<QueryRow>)
  {
    forall k :: 0 <= k < |rows| ==> rows[k].query in cache
  }

  ghost predicate CoversBatches<E>(cache: map<string, E>, batches: seq<seq<QueryRow>>)
  {
    forall j, k :: 0 <= j < |batches| && 0 <= k < |batches[j]| ==> batches[j][k].query in cache
  }

  lemma TextsAppend(a: seq<QueryRow>, b: seq<QueryRow>)
    ensures Texts(a + b) == Texts(a) + Texts(b)
  {
  }

  /** A cache hit leaves the cache as it is, and it has then learned one more text. */
  lemma LearnHit<E>(c0: map<string, E>, c: map<string, E>, start: nat,
                    reply: (nat, seq<string>) -> Option<seq<E>>, ts: seq<string>, t: string)
    requires Learned(c0, c, start, reply, ts)
    requires t in c
    ensures Learned(c0, c, start, reply, ts + [t])
    ensures NewTexts(ts + [t], c0.Keys) == NewTexts(ts, c0.Keys)
  {
    NewTextsSnoc(ts, t, c0.Keys);
    DistinctAppend(ts, [t]);
    assert Distinct([t]) == {t};
    assert t in c0.Keys || t in Distinct(ts);
  }

  lemma AnswersSnoc<E>(c: map<string, E>, f: seq<string>, start: nat,
                       reply: (nat, seq<string>) -> Option<seq<E>>, t: string, v: E)
    requires Answers(c, f, start, reply)
    requires t !in c
    requires Answer(reply, start + |f|, t) == Some(v)
    ensures Answers(c[t := v], f + [t], start, reply)
  {
    var c', f' := c[t := v], f + [t];
    forall j | 0 <= j < |f'|
      ensures f'[j] in c' && Answer(reply, start + j, f'[j]) == Some(c'[f'[j]])
    {
      if j < |f| {
        assert f'[j] == f[j];
      } else {
        assert f'[j] == t;
      }
    }
  }

  lemma AnswersAppend<E>(c1: map<string, E>, c2: map<string, E>, fa: seq<string>, fb: seq<string>, start: nat,
                         reply: (nat, seq<string>) -> Option<seq<E>>)
    requires Answers(c1, fa, start, reply) && Extends(c1, c2)
    requires Answers(c2, fb, start + |fa|, reply)
    ensures Answers(c2, fa + fb, start, reply)
  {
    var f := fa + fb;
    forall j | 0 <= j < |f|
      ensures f[j] in c2 && Answer(reply, start + j, f[j]) == Some(c2[f[j]])
    {
      if j < |fa| {
        assert f[j] == fa[j];
      } else {
        assert f[j] == fb[j - |fa|];
        assert start + |fa| + (j - |fa|) == start + j;
      }
    }
  }

  /** A successful miss stores the provider's answer for the next call number. */
  lemma LearnMiss<E>(c0: map<string, E>, c: map<string, E>, start: nat,
                     reply: (nat, seq<string>) -> Option<seq<E>>, ts: seq<string>, t: string, v: E)
    requires Learned(c0, c, start, reply, ts)
    requires t !in c
    requires Answer(reply, start + |NewTexts(ts, c0.Keys)|, t) == Some(v)
    ensures Learned(c0, c[t := v], start, reply, ts + [t])
    ensures NewTexts(ts + [t], c0.Keys) == NewTexts(ts, c0.Keys) + [t]
  {
    AnswersSnoc(c, NewTexts(ts, c0.Keys), start, reply, t, v);
    NewTextsSnoc(ts, t, c0.Keys);
    DistinctAppend(ts, [t]);
    assert Distinct([t]) == {t};
    assert c[t := v].Keys == c0.Keys + Distinct(ts + [t]);
  }

  lemma ExtendsTrans<E>(c0: map<string, E>, c1: map<string, E>, c2: map<string, E>)
    requires Extends(c0, c1) && Extends(c1, c2)
    ensures Extends(c0, c2)
  {
  }

  /** Embedding a then b from where a left the cache is embedding a + b. */
  lemma LearnedCompose<E>(c0: map<string, E>, c1: map<string, E>, c2: map<string, E>, start: nat,
                          reply: (nat, seq<string>) -> Option<seq<E>>, a: seq<string>, b: seq<string>)
    requires Learned(c0, c1, start, reply, a)
    requires Learned(c1, c2, start + |NewTexts(a, c0.Keys)|, reply, b)
    ensures Learned(c0, c2, start, reply, a + b)
  {
    AnswersAppend(c1, c2, NewTexts(a, c0.Keys), NewTexts(b, c1.Keys), start, reply);
    NewTextsAppend(a, b, c0.Keys);
    DistinctAppend(a, b);
    ExtendsTrans(c0, c1, c2);
  }


  /** The embedded rows once the cache holds their texts: each row's id with its text's cached embedding. */
  function Embeddings<E>(rows: seq<QueryRow>, cache: map<string, E>): seq<EmbeddedQuery<E>>
    requires Covers(cache, rows)
  {
    seq(|rows|, k requires 0 <= k < |rows| => EmbeddedQuery(rows[k].queriesId, cache[rows[k].query]))
  }

  /** What one save_embeddings receives for rows once the cache holds their texts. */
  function Pairs<E>(rows: seq<QueryRow>, cache: map<string, E>): seq<(int, E)>
    requires Covers(cache, rows)
  {
    ToPairs(Embeddings(rows, cache))
  }

  /** One insert per batch. */
  function MapPairs<E>(batches: seq<seq<QueryRow>>, cache: map<string, E>): seq<seq<(int, E)>>
    requires CoversBatches(cache, batches)
  {
    seq(|batches|, j requires 0 <= j < |batches| => Pairs(batches[j], cache))
  }

  lemma EmbeddingsStable<E>(rows: seq<QueryRow>, c: map<string, E>, c': map<string, E>)
    requires Covers(c, rows) && Extends(c, c')
    ensures Covers(c', rows) && Embeddings(rows, c') == Embeddings(rows, c)
  {
  }

  lemma EmbeddingsSnoc<E>(init: seq<QueryRow>, row: QueryRow, c: map<string, E>, c': map<string, E>)
    requires Covers(c, init) && Extends(c, c') && row.query in c'
    ensures Covers(c', init + [row])
    ensures Embeddings(init + [row], c') == Embeddings(init, c) + [EmbeddedQuery(row.queriesId, c'[row.query])]
  {
    EmbeddingsStable(init, c, c');
  }

  lemma MapPairsStable<E>(batches: seq<seq<QueryRow>>, c: map<string, E>, c': map<string, E>)
    requires CoversBatches(c, batches) && Extends(c, c')
    ensures CoversBatches(c', batches) && MapPairs(batches, c') == MapPairs(batches, c)
  {
    forall j | 0 <= j < |batches| ensures Pairs(batches[j], c') == Pairs(batches[j], c) {
      EmbeddingsStable(batches[j], c, c');
    }
  }

  lemma MapPairsSnoc<E>(init: seq<seq<QueryRow>>, last: seq<QueryRow>, c: map<string, E>)
    requires CoversBatches(c, init) && Covers(c, last)
    ensures CoversBatches(c, init + [last]) && MapPairs(init + [last], c) == MapPairs(init, c) + [Pairs(last, c)]
  {
    var batches := init + [last];
    assert forall j :: 0 <= j < |init| ==> batches[j] == init[j];
  }

  lemma PairsAppend<E>(a: seq<QueryRow>, b: seq<QueryRow>, c: map<string, E>)
    requires Covers(c, a) && Covers(c, b)
    ensures Covers(c, a + b) && Pairs(a + b, c) == Pairs(a, c) + Pairs(b, c)
  {
  }

  /** Flattening the inserts of the batches gives the pairs of all their rows, in order. */
  lemma {:induction false} FlattenMapPairs<E>(batches: seq<seq<QueryRow>>, c: map<string, E>)
    requires CoversBatches(c, batches)
    ensures Covers(c, Flatten(batches)) && Flatten(MapPairs(batches, c)) == Pairs(Flatten(batches), c)
    decreases |batches|
  {
    if batches != [] {
      var init, last := batches[..|batches| - 1], batches[|batches| - 1];
      assert batches == init + [last];
      assert MapPairs(batches, c) == MapPairs(init, c) + [Pairs(last, c)];
      FlattenMapPairs(init, c);
      FlattenSnoc(init, last);
      FlattenSnoc(MapPairs(init, c), Pairs(last, c));
      PairsAppend(Flatten(init), last, c);
    }
  }

  /**
    The state of embedding a batch row by row: the rows embedded so far or the error
    that stopped it, the cache, and the texts sent to the provider, one call each.
   */
  datatype Progress<E> = Progress(result: Result<seq<EmbeddedQuery<E>>, RunError>, cache: map<string, E>, sent: seq<string>)

  /**
    embed on values, when the provider's next call is number n: the result and the
    new cache. A hit returns the cached embedding; a miss keeps the first embedding of
    the provider's answer for the text alone, or fails when there is none.
   */
  function EmbedOne<E>(reply: (nat, seq<string>) -> Option<seq<E>>, n: nat, cache: map<string, E>,
                       queriesId: int, query: string): (Result<EmbeddedQuery<E>, RunError>, map<string, E>)
  {
    if query in cache then (Ok(EmbeddedQuery(queriesId, cache[query])), cache)
    else
      match reply(n, [query])
      case None => (Err(ProviderFailed(query)), cache)
      case Some(es) =>
        if es == [] then (Err(EmptyReply(query)), cache)
        else (Ok(EmbeddedQuery(queriesId, es[0])), cache[query := es[0]])
  }

  /**
    embed keeps the id; a hit returns the cached embedding and leaves the cache as it
    is; a miss succeeds exactly when the provider's answer holds an embedding, and
    then caches that embedding for the text and changes no other entry; a failed miss
    leaves the cache as it is.
   */
  lemma EmbedOneCases<E>(reply: (nat, seq<string>) -> Option<seq<E>>, n: nat, cache: map<string, E>,
                         queriesId: int, query: string)
    ensures var (r, cache') := EmbedOne(reply, n, cache, queriesId, query);
      && (r.Ok? ==> r.value.queriesId == queriesId)
      && (query in cache ==> r == Ok(EmbeddedQuery(queriesId, cache[query])) && cache' == cache)
      && (query !in cache ==>
            && (r.Ok? <==> Answer(reply, n, query).Some?)
            && (r.Ok? ==> r.value.embedding == Answer(reply, n, query).value && cache' == cache[query := r.value.embedding])
            && (r.Err? ==> cache' == cache))
  {
  }

  /** embed applied to one more row of a batch, the calls being numbered from start; an error stops everything. */
  function EmbedStep<E>(reply: (nat, seq<string>) -> Option<seq<E>>, start: nat, p: Progress<E>, row: QueryRow): Progress<E>
  {
    if p.result.Err? then p
    else
      var o := EmbedOne(reply, start + |p.sent|, p.cache, row.queriesId, row.query);
      var sent := if row.query in p.cache then p.sent else p.sent + [row.query];
      Progress(if o.0.Err? then Err(o.0.error) else Ok(p.result.value + [o.0.value]), o.1, sent)
  }

  /** The list comprehension of main over one batch, starting from the given cache. */
  function EmbedRows<E>(reply: (nat, seq<string>) -> Option<seq<E>>, start: nat, cache: map<string, E>, rows: seq<QueryRow>): Progress<E>
    decreases |rows|
  {
    if rows == [] then Progress(Ok([]), cache, [])
    else EmbedStep(reply, start, EmbedRows(reply, start, cache, rows[..|rows| - 1]), rows[|rows| - 1])
  }

  /** Embedding one more row of rows, from the state reached before it. */
  lemma EmbedRowsNext<E>(reply: (nat, seq<string>) -> Option<seq<E>>, start: nat, c: map<string, E>,
                         rows: seq<QueryRow>, i: nat, done: seq<EmbeddedQuery<E>>, cache: map<string, E>, sent: seq<string>,
                         e: Result<EmbeddedQuery<E>, RunError>, cache': map<string, E>)
    requires i < |rows| && EmbedRows(reply, start, c, rows[..i]) == Progress(Ok(done), cache, sent)
    requires (e, cache') == EmbedOne(reply, start + |sent|, cache, rows[i].queriesId, rows[i].query)
    ensures var sent' := if rows[i].query in cache then sent else sent + [rows[i].query];
      EmbedRows(reply, start, c, rows[..i + 1]) == Progress(if e.Err? then Err(e.error) else Ok(done + [e.value]), cache', sent')
  {
    assert rows[..i + 1][..i] == rows[..i];
  }

  /** Embedding all the rows is embedding the prefix that holds all of them. */
  lemma EmbedRowsWhole<E>(reply: (nat, seq<string>) -> Option<seq<E>>, start: nat, c: map<string, E>, rows: seq<QueryRow>)
    ensures EmbedRows(reply, start, c, rows[..|rows|]) == EmbedRows(reply, start, c, rows)
  {
    assert rows[..|rows|] == rows;
  }

  /** Once a row has failed, the later rows change nothing. */
  lemma {:induction false} EmbedRowsSticky<E>(reply: (nat, seq<string>) -> Option<seq<E>>, start: nat,
                                              c: map<string, E>, rows: seq<QueryRow>, i: nat)
    requires i <= |rows| && EmbedRows(reply, start, c, rows[..i]).result.Err?
    ensures EmbedRows(reply, start, c, rows) == EmbedRows(reply, start, c, rows[..i])
    decreases |rows|
  {
    if i < |rows| {
      var init := rows[..|rows| - 1];
      assert init[..i] == rows[..i];
      EmbedRowsSticky(reply, start, c, init, i);
    } else {
      assert rows[..i] == rows;
    }
  }

  /** Embedding never drops or changes a cached entry. */
  lemma {:induction false} EmbedRowsExtends<E>(reply: (nat, seq<string>) -> Option<seq<E>>, start: nat,
                                               c: map<string, E>, rows: seq<QueryRow>)
    ensures Extends(c, EmbedRows(reply, start, c, rows).cache)
    decreases |rows|
  {
    if rows != [] {
      var q := EmbedRows(reply, start, c, rows[..|rows| - 1]);
      EmbedRowsExtends(reply, start, c, rows[..|rows| - 1]);
      assert Extends(q.cache, EmbedStep(reply, start, q, rows[|rows| - 1]).cache);
    }
  }

  /**
    What a successful embedding of rows leaves: each text that was neither cached nor
    seen earlier in rows was sent exactly once, in first-occurrence order; the cache
    has learned the provider's answers for them; every row got its own id with the
    cached embedding of its text.
   */
  ghost predicate EmbeddedAll<E>(reply: (nat, seq<string>) -> Option<seq<E>>, start: nat,
                                 c: map<string, E>, rows: seq<QueryRow>, p: Progress<E>)
  {
    && p.result.Ok?
    && Learned(c, p.cache, start, reply, Texts(rows))
    && p.sent == NewTexts(Texts(rows), c.Keys)
    && Covers(p.cache, rows)
    && p.result.value == Embeddings(rows, p.cache)
  }

  /** A hit appends the cached embedding and sends nothing. */
  lemma EmbedStepHit<E>(reply: (nat, seq<string>) -> Option<seq<E>>, start: nat,
                        c: map<string, E>, init: seq<QueryRow>, row: QueryRow, q: Progress<E>)
    requires EmbeddedAll(reply, start, c, init, q)
    requires row.query in q.cache
    ensures EmbeddedAll(reply, start, c, init + [row],
                        Progress(Ok(q.result.value + [EmbeddedQuery(row.queriesId, q.cache[row.query])]), q.cache, q.sent))
  {
    TextsAppend(init, [row]);
    assert Texts([row]) == [row.query];
    LearnHit(c, q.cache, start, reply, Texts(init), row.query);
    EmbeddingsSnoc(init, row, q.cache, q.cache);
  }

  /** The shape of a successful miss: one more call, with its answer cached and appended. */
  lemma MissShape<E>(reply: (nat, seq<string>) -> Option<seq<E>>, start: nat, q: Progress<E>, row: QueryRow)
    requires q.result.Ok? && row.query !in q.cache && EmbedStep(reply, start, q, row).result.Ok?
    ensures var v := EmbedStep(reply, start, q, row).cache[row.query];
      && Answer(reply, start + |q.sent|, row.query) == Some(v)
      && EmbedStep(reply, start, q, row)
         == Progress(Ok(q.result.value + [EmbeddedQuery(row.queriesId, v)]), q.cache[row.query := v], q.sent + [row.query])
  {
  }

  /** A successful miss sends the text as the next call and caches the answer. */
  lemma EmbedStepMiss<E>(reply: (nat, seq<string>) -> Option<seq<E>>, start: nat,
                         c: map<string, E>, init: seq<QueryRow>, row: QueryRow, q: Progress<E>, v: E)
    requires EmbeddedAll(reply, start, c, init, q)
    requires row.query !in q.cache && Answer(reply, start + |q.sent|, row.query) == Some(v)
    ensures EmbeddedAll(reply, start, c, init + [row],
                        Progress(Ok(q.result.value + [EmbeddedQuery(row.queriesId, v)]), q.cache[row.query := v], q.sent + [row.query]))
  {
    var c' := q.cache[row.query := v];
    TextsAppend(init, [row]);
    assert Texts([row]) == [row.query];
    LearnMiss(c, q.cache, start, reply, Texts(init), row.query, v);
    EmbeddingsSnoc(init, row, q.cache, c');
  }


  /**
    Row k is where embedding rows stopped: the rows before it went through, its text
    was not cached, and the provider's call for it raised or returned no embedding.
    The call was made and nothing was cached for it.
   */
  ghost predicate FailsAt<E>(reply: (nat, seq<string>) -> Option<seq<E>>, start: nat,
                             c: map<string, E>, rows: seq<QueryRow>, k: nat)
    requires k < |rows|
  {
    var q := EmbedRows(reply, start, c, rows[..k]);
    var t := rows[k].query;
    && q.result.Ok?
    && t !in q.cache
    && Answer(reply, start + |q.sent|, t) == None
    && EmbedRows(reply, start, c, rows)
       == Progress(Err(if reply(start + |q.sent|, [t]).None? then ProviderFailed(t) else EmptyReply(t)), q.cache, q.sent + [t])
  }

  /** Some row of rows is where embedding them failed. */
  ghost predicate FailsInRow<E>(reply: (nat, seq<string>) -> Option<seq<E>>, start: nat,
                                c: map<string, E>, rows: seq<QueryRow>)
  {
    exists k: nat :: k < |rows| && FailsAt(reply, start, c, rows, k)
  }

  /** The shape of a failing step: a miss whose call raised or returned no embedding. */
  lemma FailShape<E>(reply: (nat, seq<string>) -> Option<seq<E>>, start: nat, q: Progress<E>, row: QueryRow)
    requires q.result.Ok? && EmbedStep(reply, start, q, row).result.Err?
    ensures var t := row.query;
      && t !in q.cache
      && Answer(reply, start + |q.sent|, t) == None
      && EmbedStep(reply, start, q, row)
         == Progress(Err(if reply(start + |q.sent|, [t]).None? then ProviderFailed(t) else EmptyReply(t)), q.cache, q.sent + [t])
  {
  }

  /** A row where a prefix of rows failed is where rows failed. */
  lemma FailsAtLonger<E>(reply: (nat, seq<string>) -> Option<seq<E>>, start: nat,
                         c: map<string, E>, rows: seq<QueryRow>, k: nat)
    requires k + 1 < |rows| && FailsAt(reply, start, c, rows[..|rows| - 1], k)
    ensures FailsAt(reply, start, c, rows, k)
  {
    var init := rows[..|rows| - 1];
    assert init[..k] == rows[..k];
    assert rows[..|init|] == init;
    EmbedRowsSticky(reply, start, c, rows, |init|);
  }


  /**
    The state of main after some batches: how it stands, the cache, the texts sent
    to the provider, and the inserts made into the target.
   */
  datatype RunState<E> = RunState(result: Result<(), RunError>, cache: map<string, E>, sent: seq<string>, writes: seq<seq<(int, E)>>)

  /** After embedding a batch: save it with one insert, or stop with the error and save nothing. */
  function Advance<E>(s: RunState<E>, p: Progress<E>): RunState<E>
  {
    if p.result.Err? then RunState(Err(p.result.error), p.cache, s.sent + p.sent, s.writes)
    else RunState(Ok(()), p.cache, s.sent + p.sent, s.writes + [ToPairs(p.result.value)])
  }

  /** The run after one more batch: nothing once an error has happened, else the batch embedded and saved. */
  function Continue<E>(reply: (nat, seq<string>) -> Option<seq<E>>, start: nat, s: RunState<E>,
                       batch: seq<QueryRow>): RunState<E>
  {
    if s.result.Err? then s
    else Advance(s, EmbedRows(reply, start + |s.sent|, s.cache, batch))
  }

  /** main's loop is embedded in full and then saved with one insert; the first error stops it. */
  function RunBatches<E>(reply: (nat, seq<string>) -> Option<seq<E>>, start: nat, cache: map<string, E>,
                         batches: seq<seq<QueryRow>>): RunState<E>
    decreases |batches|
  {
    if batches == [] then RunState(Ok(()), cache, [], [])
    else Continue(reply, start, RunBatches(reply, start, cache, batches[..|batches| - 1]), batches[|batches| - 1])
  }

  /** Running one more batch of batches, from the state reached before it. */
  lemma RunBatchesNext<E>(reply: (nat, seq<string>) -> Option<seq<E>>, start: nat, c: map<string, E>,
                          batches: seq<seq<QueryRow>>, j: nat, s: RunState<E>, p: Progress<E>)
    requires j < |batches| && RunBatches(reply, start, c, batches[..j]) == s && s.result.Ok?
    requires p == EmbedRows(reply, start + |s.sent|, s.cache, batches[j])
    ensures RunBatches(reply, start, c, batches[..j + 1]) == Advance(s, p)
  {
    var b := batches[..j + 1];
    assert b[..|b| - 1] == batches[..j];
    assert b[|b| - 1] == batches[j];
    assert RunBatches(reply, start, c, b) == Continue(reply, start, s, batches[j]);
  }

  /** Running all the batches is running the prefix that holds all of them. */
  lemma RunBatchesWhole<E>(reply: (nat, seq<string>) -> Option<seq<E>>, start: nat, c: map<string, E>,
                           batches: seq<seq<QueryRow>>)
    ensures RunBatches(reply, start, c, batches[..|batches|]) == RunBatches(reply, start, c, batches)
  {
    assert batches[..|batches|] == batches;
  }

  /** Once a batch has failed, the later batches change nothing. */
  lemma {:induction false} RunBatchesSticky<E>(reply: (nat, seq<string>) -> Option<seq<E>>, start: nat,
                                               c: map<string, E>, batches: seq<seq<QueryRow>>, j: nat)
    requires j <= |batches| && RunBatches(reply, start, c, batches[..j]).result.Err?
    ensures RunBatches(reply, start, c, batches) == RunBatches(reply, start, c, batches[..j])
    decreases |batches|
  {
    if j < |batches| {
      var init := batches[..|batches| - 1];
      assert init[..j] == batches[..j];
      RunBatchesSticky(reply, start, c, init, j);
    } else {
      assert batches[..j] == batches;
    }
  }

  /**
    What a successful run over batches leaves: one insert per batch, in batch order,
    each holding the batch's rows with their cached embeddings; the provider was
    called once for each text new to the cache, over all batches, in first-occurrence
    order, and the cache has learned its answers.
   */
  ghost predicate SavedAll<E>(reply: (nat, seq<string>) -> Option<seq<E>>, start: nat,
                              c: map<string, E>, batches: seq<seq<QueryRow>>, s: RunState<E>)
  {
    && s.result.Ok?
    && Learned(c, s.cache, start, reply, Texts(Flatten(batches)))
    && s.sent == NewTexts(Texts(Flatten(batches)), c.Keys)
    && CoversBatches(s.cache, batches)
    && s.writes == MapPairs(batches, s.cache)
  }

  /** The cache and the calls after one more batch. */
  lemma LearnBatch<E>(reply: (nat, seq<string>) -> Option<seq<E>>, start: nat, c: map<string, E>,
                      init: seq<seq<QueryRow>>, last: seq<QueryRow>, c1: map<string, E>, c2: map<string, E>, next: nat)
    requires Learned(c, c1, start, reply, Texts(Flatten(init)))
    requires next == start + |NewTexts(Texts(Flatten(init)), c.Keys)|
    requires Learned(c1, c2, next, reply, Texts(last))
    ensures Learned(c, c2, start, reply, Texts(Flatten(init + [last])))
    ensures NewTexts(Texts(Flatten(init + [last])), c.Keys)
            == NewTexts(Texts(Flatten(init)), c.Keys) + NewTexts(Texts(last), c1.Keys)
  {
    FlattenSnoc(init, last);
    TextsAppend(Flatten(init), last);
    LearnedCompose(c, c1, c2, start, reply, Texts(Flatten(init)), Texts(last));
    NewTextsAppend(Texts(Flatten(init)), Texts(last), c.Keys);
  }

  /** Embedding and saving one more batch keeps SavedAll. */
  lemma SaveStep<E>(reply: (nat, seq<string>) -> Option<seq<E>>, start: nat, c: map<string, E>,
                    batches: seq<seq<QueryRow>>, s: RunState<E>,
                    init: seq<seq<QueryRow>>, last: seq<QueryRow>, s0: RunState<E>, p: Progress<E>)
    requires batches != [] && init == batches[..|batches| - 1] && last == batches[|batches| - 1]
    requires s == Advance(s0, p)
    requires SavedAll(reply, start, c, init, s0)
    requires EmbeddedAll(reply, start + |s0.sent|, s0.cache, last, p)
    ensures SavedAll(reply, start, c, batches, s)
  {
    assert batches == init + [last];
    LearnBatch(reply, start, c, init, last, s0.cache, p.cache, start + |s0.sent|);
    MapPairsStable(init, s0.cache, p.cache);
    MapPairsSnoc(init, last, p.cache);
  }


  /** A successful step comes from a successful run and a successful batch. */
  lemma ContinueOk<E>(reply: (nat, seq<string>) -> Option<seq<E>>, start: nat, s0: RunState<E>, last: seq<QueryRow>)
    requires Continue(reply, start, s0, last).result.Ok?
    ensures s0.result.Ok? && EmbedRows(reply, start + |s0.sent|, s0.cache, last).result.Ok?
    ensures Continue(reply, start, s0, last) == Advance(s0, EmbedRows(reply, start + |s0.sent|, s0.cache, last))
  {
  }


  /**
    What a failed run over batches leaves: the batches before the failing one were
    saved, in order, and nothing of the failing batch or the ones after it was.
   */
  ghost predicate SavedBefore<E>(batches: seq<seq<QueryRow>>, s: RunState<E>)
  {
    && |s.writes| < |batches|
    && CoversBatches(s.cache, batches[..|s.writes|])
    && s.writes == MapPairs(batches[..|s.writes|], s.cache)
  }

  /**
    Where a failed run stopped: every batch before batch |s.writes| went through,
    that batch failed while it was being embedded, and the run ends in the state its
    failure leaves (its error, nothing saved for it, and no batch after it started).
   */
  ghost predicate StoppedAt<E>(reply: (nat, seq<string>) -> Option<seq<E>>, start: nat,
                               c: map<string, E>, batches: seq<seq<QueryRow>>, s: RunState<E>)
  {
    && |s.writes| < |batches|
    && Stops(reply, start, RunBatches(reply, start, c, batches[..|s.writes|]), batches[|s.writes|], s)
  }

  /** From s0, which has not failed, batch failed while it was being embedded and the run ended in s. */
  ghost predicate Stops<E>(reply: (nat, seq<string>) -> Option<seq<E>>, start: nat, s0: RunState<E>,
                           batch: seq<QueryRow>, s: RunState<E>)
  {
    && s0.result.Ok?
    && EmbedRows(reply, start + |s0.sent|, s0.cache, batch).result.Err?
    && s == Advance(s0, EmbedRows(reply, start + |s0.sent|, s0.cache, batch))
  }

  /** A run that stopped in an earlier batch stopped there whatever batch comes next. */
  lemma StoppedEarlier<E>(reply: (nat, seq<string>) -> Option<seq<E>>, start: nat, c: map<string, E>,
                          init: seq<seq<QueryRow>>, last: seq<QueryRow>, s: RunState<E>)
    requires StoppedAt(reply, start, c, init, s)
    ensures StoppedAt(reply, start, c, init + [last], s)
  {
    var j := |s.writes|;
    assert (init + [last])[..j] == init[..j];
    assert (init + [last])[j] == init[j];
  }

  /** A run whose batches before the last all went through, and whose last batch failed, stopped at the last. */
  lemma StoppedLast<E>(reply: (nat, seq<string>) -> Option<seq<E>>, start: nat, c: map<string, E>,
                       init: seq<seq<QueryRow>>, last: seq<QueryRow>, s0: RunState<E>, s: RunState<E>)
    requires s0 == RunBatches(reply, start, c, init) && |s0.writes| == |init|
    requires Stops(reply, start, s0, last, s)
    ensures StoppedAt(reply, start, c, init + [last], s)
  {
    var b := init + [last];
    assert |s.writes| == |init|;
    assert b[..|init|] == init;
    assert b[|init|] == last;
    assert RunBatches(reply, start, c, b[..|s.writes|]) == s0;
  }

  /** A failure in the last batch leaves the inserts of all the batches before it. */
  lemma FailLast<E>(reply: (nat, seq<string>) -> Option<seq<E>>, start: nat, c: map<string, E>,
                    init: seq<seq<QueryRow>>, last: seq<QueryRow>, s0: RunState<E>, s: RunState<E>)
    requires SavedAll(reply, start, c, init, s0)
    requires s.writes == s0.writes && Extends(s0.cache, s.cache)
    ensures SavedBefore(init + [last], s)
  {
    MapPairsStable(init, s0.cache, s.cache);
    assert (init + [last])[..|init|] == init;
  }

  /** A failure in an earlier batch leaves what it left. */
  lemma FailEarlier<E>(init: seq<seq<QueryRow>>, last: seq<QueryRow>, s: RunState<E>)
    requires SavedBefore(init, s)
    ensures SavedBefore(init + [last], s)
  {
    assert init[..|s.writes|] == (init + [last])[..|s.writes|];
  }
}
