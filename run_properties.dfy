/**
  What a run of the embedding script leaves behind, proved by induction over the
  rows of a batch and over the batches: on success, the cache, the provider's calls
  and the inserts; on failure, where it stopped and what was saved before.
 */
module RunProperties {
  import opened Wrappers
  import opened Sequences
  import opened RowSource
  import opened Batching
  import opened Dedup
  import opened Embedding

  /** On success, embedding rows leaves what EmbeddedAll describes. */
  lemma {:induction false} EmbedRowsOk<E>(reply: (nat, seq<string>) -> Option<seq<E>>, start: nat,
                                          c: map<string, E>, rows: seq<QueryRow>)
    ensures EmbedRows(reply, start, c, rows).result.Ok? ==> EmbeddedAll(reply, start, c, rows, EmbedRows(reply, start, c, rows))
    decreases |rows|
  {
    var p := EmbedRows(reply, start, c, rows);
    if rows == [] {
      assert Distinct(Texts(rows)) == {};
    } else if p.result.Ok? {
      var init, row := rows[..|rows| - 1], rows[|rows| - 1];
      assert rows == init + [row];
      var q := EmbedRows(reply, start, c, init);
      EmbedRowsOk(reply, start, c, init);
      if row.query in q.cache {
        EmbedStepHit(reply, start, c, init, row, q);
      } else {
        MissShape(reply, start, q, row);
        EmbedStepMiss(reply, start, c, init, row, q, p.cache[row.query]);
      }
    }
  }

  /** A failed batch failed at one row. */
  lemma {:induction false} EmbedRowsErr<E>(reply: (nat, seq<string>) -> Option<seq<E>>, start: nat,
                                           c: map<string, E>, rows: seq<QueryRow>)
    ensures EmbedRows(reply, start, c, rows).result.Err? ==> exists k: nat :: k < |rows| && FailsAt(reply, start, c, rows, k)
    decreases |rows|
  {
    if rows != [] && EmbedRows(reply, start, c, rows).result.Err? {
      var init := rows[..|rows| - 1];
      var q := EmbedRows(reply, start, c, init);
      if q.result.Err? {
        EmbedRowsErr(reply, start, c, init);
        var k: nat :| k < |init| && FailsAt(reply, start, c, init, k);
        FailsAtLonger(reply, start, c, rows, k);
      } else {
        FailShape(reply, start, q, rows[|rows| - 1]);
        assert rows[..|init|] == init;
        assert FailsAt(reply, start, c, rows, |init|);
      }
    }
  }

  /** A successful step: the batch was embedded as EmbeddedAll says, and saved. */
  lemma SaveBatch<E>(reply: (nat, seq<string>) -> Option<seq<E>>, start: nat, c: map<string, E>,
                     batches: seq<seq<QueryRow>>, s: RunState<E>,
                     init: seq<seq<QueryRow>>, last: seq<QueryRow>, s0: RunState<E>)
    requires batches != [] && init == batches[..|batches| - 1] && last == batches[|batches| - 1]
    requires SavedAll(reply, start, c, init, s0)
    requires EmbedRows(reply, start + |s0.sent|, s0.cache, last).result.Ok?
    requires s == Advance(s0, EmbedRows(reply, start + |s0.sent|, s0.cache, last))
    ensures SavedAll(reply, start, c, batches, s)
  {
    var p := EmbedRows(reply, start + |s0.sent|, s0.cache, last);
    EmbedRowsOk(reply, start + |s0.sent|, s0.cache, last);
    SaveStep(reply, start, c, batches, s, init, last, s0, p);
  }

  /** On success, a run over batches leaves what SavedAll describes. */
  lemma {:induction false} RunBatchesOk<E>(reply: (nat, seq<string>) -> Option<seq<E>>, start: nat,
                                           c: map<string, E>, batches: seq<seq<QueryRow>>)
    ensures RunBatches(reply, start, c, batches).result.Ok? ==> SavedAll(reply, start, c, batches, RunBatches(reply, start, c, batches))
    decreases |batches|
  {
    var s := RunBatches(reply, start, c, batches);
    if batches == [] {
      assert Distinct(Texts(Flatten(batches))) == {};
    } else if s.result.Ok? {
      var init, last := batches[..|batches| - 1], batches[|batches| - 1];
      var s0 := RunBatches(reply, start, c, init);
      assert s == Continue(reply, start, s0, last);
      ContinueOk(reply, start, s0, last);
      RunBatchesOk(reply, start, c, init);
      SaveBatch(reply, start, c, batches, s, init, last, s0);
    }
  }

  /** A failed run stopped at one batch, as StoppedAt describes. */
  lemma {:induction false} RunBatchesStops<E>(reply: (nat, seq<string>) -> Option<seq<E>>, start: nat,
                                              c: map<string, E>, batches: seq<seq<QueryRow>>)
    ensures RunBatches(reply, start, c, batches).result.Err? ==> StoppedAt(reply, start, c, batches, RunBatches(reply, start, c, batches))
    decreases |batches|
  {
    var s := RunBatches(reply, start, c, batches);
    if batches != [] && s.result.Err? {
      var init, last := batches[..|batches| - 1], batches[|batches| - 1];
      assert batches == init + [last];
      var s0 := RunBatches(reply, start, c, init);
      assert s == Continue(reply, start, s0, last);
      if s0.result.Err? {
        RunBatchesStops(reply, start, c, init);
        StoppedEarlier(reply, start, c, init, last, s);
      } else {
        RunBatchesOk(reply, start, c, init);
        assert Stops(reply, start, s0, last, s);
        StoppedLast(reply, start, c, init, last, s0, s);
      }
    }
  }

  /**
    On failure, a run over batches stopped at batch |writes|: every batch before it
    was saved, in order, with one insert each; that batch failed while it was being
    embedded and the run's error is its error; nothing of it or of any later batch
    was saved.
   */
  lemma RunBatchesErr<E>(reply: (nat, seq<string>) -> Option<seq<E>>, start: nat,
                         c: map<string, E>, batches: seq<seq<QueryRow>>)
    ensures RunBatches(reply, start, c, batches).result.Err? ==> SavedBefore(batches, RunBatches(reply, start, c, batches))
    ensures RunBatches(reply, start, c, batches).result.Err? ==> StoppedAt(reply, start, c, batches, RunBatches(reply, start, c, batches))
  {
    RunBatchesStops(reply, start, c, batches);
    var s := RunBatches(reply, start, c, batches);
    if s.result.Err? {
      var init, last := batches[..|s.writes|], batches[|s.writes|];
      var s0 := RunBatches(reply, start, c, init);
      RunBatchesOk(reply, start, c, init);
      EmbedRowsExtends(reply, start + |s0.sent|, s0.cache, last);
      FailLast(reply, start, c, init, last, s0, s);
      assert (init + [last])[..|s.writes|] == batches[..|s.writes|];
    }
  }

  /**
    The row a failed run stopped at: in the batch where it stopped, some row is where
    embedding failed (its text was uncached and the provider's call for it raised or
    returned no embedding); by StoppedAt the run's error is that row's error.
   */
  lemma StoppedRow<E>(reply: (nat, seq<string>) -> Option<seq<E>>, start: nat,
                      c: map<string, E>, batches: seq<seq<QueryRow>>, s: RunState<E>)
    requires StoppedAt(reply, start, c, batches, s)
    ensures var s0 := RunBatches(reply, start, c, batches[..|s.writes|]);
      FailsInRow(reply, start + |s0.sent|, s0.cache, batches[|s.writes|])
  {
    var s0 := RunBatches(reply, start, c, batches[..|s.writes|]);
    EmbedRowsErr(reply, start + |s0.sent|, s0.cache, batches[|s.writes|]);
  }

  /**
    main end to end over the selected rows: on success the inserts are one per batch,
    and together they hold every selected row once, in order, with its own id and
    the embedding of its text, so equal texts get equal embeddings; the provider was
    called exactly once per distinct text that was not already cached.
   */
  lemma RunAllRows<E>(reply: (nat, seq<string>) -> Option<seq<E>>, start: nat,
                      c: map<string, E>, rows: seq<QueryRow>, batchSize: int)
    ensures var s := RunBatches(reply, start, c, Chunks(rows, batchSize));
      s.result.Ok? ==>
        && |s.writes| == |Chunks(rows, batchSize)|
        && Covers(s.cache, rows)
        && Flatten(s.writes) == Pairs(rows, s.cache)
        && (forall i, j :: 0 <= i < j < |rows| && rows[i].query == rows[j].query ==> Flatten(s.writes)[i].1 == Flatten(s.writes)[j].1)
        && (forall t :: t in s.sent <==> t in Texts(rows) && t !in c)
        && |s.sent| == |Distinct(Texts(rows)) - c.Keys|
  {
    var batches := Chunks(rows, batchSize);
    var s := RunBatches(reply, start, c, batches);
    if s.result.Ok? {
      RunBatchesOk(reply, start, c, batches);
      FlattenChunks(rows, batchSize);
      FlattenMapPairs(batches, s.cache);
      NewTextsMembers(Texts(rows), c.Keys);
      CallCount(Texts(rows), c.Keys);
    }
  }
}
