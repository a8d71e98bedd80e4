/**
  The embedding script's pipeline: an Embedder that reads the selected rows, cuts them
  into batches, embeds each row through a text-to-embedding cache that calls the
  provider once per unseen text with a single-item request, and writes each batch's
  (id, embedding) pairs to the target table with one insert.
 */
module Pipeline {
  import opened Wrappers
  import opened Sequences
  import opened RowSource
  import opened Batching
  import opened Dedup
  import opened Embedding

  /**
    The embedding provider. Its answers need not be the same from one call to the next,
    so `reply(n, texts)` is its answer to the n-th call made in the run: None when
    the call raises. `log` records the texts of every call made.
   */
  class Provider<E> {
    const reply: (nat, seq<string>) -> Option<seq<E>>
    var calls: nat
    ghost var log: seq<seq<string>>

    ghost predicate Valid()
      reads this
    {
      calls == |log|
    }

    constructor (reply: (nat, seq<string>) -> Option<seq<E>>)
      ensures Valid() && this.reply == reply && log == []
    {
      this.reply := reply;
      calls := 0;
      log := [];
    }

    method Embed(texts: seq<string>) returns (r: Option<seq<E>>)
      requires Valid()
      modifies this
      ensures Valid()
      ensures log == old(log) + [texts]
      ensures r == reply(old(calls), texts)
    {
      r := reply(calls, texts);
      calls := calls + 1;
      log := log + [texts];
    }
  }

  /** The target table, as the rows it holds and the multi-row inserts made into it. */
  class Target<E> {
    ghost var rows: seq<(int, E)>
    ghost var writes: seq<seq<(int, E)>>

    constructor ()
      ensures rows == [] && writes == []
    {
      rows := [];
      writes := [];
    }

    method InsertMany(pairs: seq<(int, E)>)
      modifies this
      ensures rows == old(rows) + pairs
      ensures writes == old(writes) + [pairs]
    {
      rows := rows + pairs;
      writes := writes + [pairs];
    }
  }

  class Embedder<E> {
    const batchSize: int
    const maxRows: Option<int>
    const provider: Provider<E>
    const target: Target<E>
    /** The text-to-embedding cache; it lives as long as the Embedder. */
    var cache: map<string, E>

    ghost predicate Valid()
      reads this, provider
    {
      provider.Valid()
    }

    constructor (batchSize: int, maxRows: Option<int>, provider: Provider<E>, target: Target<E>)
      requires provider.Valid()
      ensures Valid()
      ensures this.batchSize == batchSize && this.maxRows == maxRows
      ensures this.provider == provider && this.target == target
      ensures cache == map[]
    {
      this.batchSize := batchSize;
      this.maxRows := maxRows;
      this.provider := provider;
      this.target := target;
      cache := map[];
    }

    /** get_batches: the batches of rows, in order. */
    method GetBatches(rows: seq<QueryRow>) returns (batches: seq<seq<QueryRow>>)
      ensures batches == Chunks(rows, batchSize)
    {
      batches := [];
      var batch: seq<QueryRow> := [];
      var i := 0;
      ghost var from := 0;
      while i < |rows|
        invariant 0 <= from <= i <= |rows|
        invariant batch == rows[from..i]
        invariant batchSize >= 1 ==> |batch| < batchSize
        invariant Chunks(rows, batchSize) == batches + Chunks(rows[from..], batchSize)
      {
        batch := batch + [rows[i]];
        i := i + 1;
        assert batch == rows[from..i];
        if |batch| == batchSize {
          ChunksFull(rows, batchSize, from, i);
          AppendAssoc(batches, [batch], Chunks(rows[i..], batchSize));
          batches := batches + [batch];
          batch := [];
          from := i;
        }
      }
      ChunksRest(rows, batchSize, from);
      assert rows[from..] == batch;
      if batch != [] {
        batches := batches + [batch];
      }
    }

    /**
      embed: a hit returns the cached embedding and makes no call; a miss makes one
      call for [query] alone and caches the first embedding of the answer.
     */
    method Embed(queriesId: int, query: string) returns (r: Result<EmbeddedQuery<E>, RunError>)
      requires Valid()
      modifies this, provider
      ensures Valid()
      ensures (r, cache) == EmbedOne(provider.reply, old(provider.calls), old(cache), queriesId, query)
      ensures provider.log == old(provider.log) + (if query in old(cache) then [] else [[query]])
    {
      if query in cache {
        return Ok(EmbeddedQuery(queriesId, cache[query]));
      }
      var answer := provider.Embed([query]);
      if answer.None? {
        return Err(ProviderFailed(query));
      }
      var embeddings := answer.value;
      if |embeddings| == 0 {
        return Err(EmptyReply(query));
      }
      var embedding := EmbeddedQuery(queriesId, embeddings[0]);
      cache := cache[query := embedding.embedding];
      r := Ok(embedding);
    }

    /**
      One row of the list comprehension: embed it, and account for it in what the
      batch has done so far (the rows before it went through, with done as their
      embeddings, and sent as the texts sent to the provider).
     */
    method EmbedNext(batch: seq<QueryRow>, i: nat, done: seq<EmbeddedQuery<E>>, ghost calls0: nat,
                     ghost c0: map<string, E>, ghost log0: seq<seq<string>>, ghost sent: seq<string>)
      returns (r: Result<seq<EmbeddedQuery<E>>, RunError>, ghost sent': seq<string>)
      requires Valid() && i < |batch|
      requires provider.log == log0 + Singletons(sent) && provider.calls == calls0 + |sent|
      requires EmbedRows(provider.reply, calls0, c0, batch[..i]) == Progress(Ok(done), cache, sent)
      modifies this, provider
      ensures Valid()
      ensures provider.log == log0 + Singletons(sent') && provider.calls == calls0 + |sent'|
      ensures EmbedRows(provider.reply, calls0, c0, batch[..i + 1]) == Progress(r, cache, sent')
    {
      ghost var before, t := cache, batch[i].query;
      var e := Embed(batch[i].queriesId, batch[i].query);
      EmbedRowsNext(provider.reply, calls0, c0, batch, i, done, before, sent, e, cache);
      LogSnoc(log0, sent, t, t in before);
      sent' := if t in before then sent else sent + [t];
      r := if e.Err? then Err(e.error) else Ok(done + [e.value]);
    }

    /** The list comprehension of main: embed every row of the batch, in order, stopping at the first error. */
    method EmbedBatch(batch: seq<QueryRow>) returns (r: Result<seq<EmbeddedQuery<E>>, RunError>, ghost p: Progress<E>)
      requires Valid()
      modifies this, provider
      ensures Valid()
      ensures p == EmbedRows(provider.reply, old(provider.calls), old(cache), batch)
      ensures r == p.result && cache == p.cache && provider.log == old(provider.log) + Singletons(p.sent)
    {
      ghost var c0, log0, calls0 := cache, provider.log, provider.calls;
      p := EmbedRows(provider.reply, calls0, c0, batch);
      ghost var sent: seq<string> := [];
      r := Ok([]);
      var i := 0;
      while i < |batch| && r.Ok?
        invariant 0 <= i <= |batch|
        invariant Valid()
        invariant provider.log == log0 + Singletons(sent) && provider.calls == calls0 + |sent|
        invariant EmbedRows(provider.reply, calls0, c0, batch[..i]) == Progress(r, cache, sent)
      {
        r, sent := EmbedNext(batch, i, r.value, calls0, c0, log0, sent);
        i := i + 1;
      }
      if i < |batch| {
        EmbedRowsSticky(provider.reply, calls0, c0, batch, i);
      } else {
        EmbedRowsWhole(provider.reply, calls0, c0, batch);
      }
    }

    /** save_embeddings: one multi-row insert of the (id, embedding) pairs, in order. */
    method SaveEmbeddings(embeddings: seq<EmbeddedQuery<E>>)
      modifies target
      ensures target.writes == old(target.writes) + [ToPairs(embeddings)]
      ensures target.rows == old(target.rows) + ToPairs(embeddings)
    {
      target.InsertMany(ToPairs(embeddings));
    }

    /** One pass of main's loop: embed the whole batch, then save it with one insert unless embedding failed. */
    method ProcessBatch(batch: seq<QueryRow>) returns (r: Result<(), RunError>, ghost p: Progress<E>)
      requires Valid()
      modifies this, provider, target
      ensures Valid()
      ensures p == EmbedRows(provider.reply, old(provider.calls), old(cache), batch)
      ensures
        && r == (if p.result.Err? then Err(p.result.error) else Ok(()))
        && cache == p.cache
        && provider.log == old(provider.log) + Singletons(p.sent)
        && target.writes == old(target.writes) + (if p.result.Err? then [] else [ToPairs(p.result.value)])
        && target.rows == old(target.rows) + (if p.result.Err? then [] else ToPairs(p.result.value))
    {
      var embeddings, q := EmbedBatch(batch);
      p := q;
      if embeddings.Err? {
        r := Err(embeddings.error);
        return;
      }
      SaveEmbeddings(embeddings.value);
      r := Ok(());
    }

    /** main's loop over the batches, in order; the first error stops it. */
    method ProcessBatches(batches: seq<seq<QueryRow>>) returns (r: Result<(), RunError>)
      requires Valid()
      modifies this, provider, target
      ensures Valid()
      ensures var s := RunBatches(provider.reply, old(provider.calls), old(cache), batches);
        && r == s.result
        && cache == s.cache
        && provider.log == old(provider.log) + Singletons(s.sent)
        && target.writes == old(target.writes) + s.writes
        && target.rows == old(target.rows) + Flatten(s.writes)
    {
      ghost var c0, log0, calls0, rows0, writes0 := cache, provider.log, provider.calls, target.rows, target.writes;
      ghost var sent: seq<string> := [];
      ghost var writes: seq<seq<(int, E)>> := [];
      var j := 0;
      while j < |batches|
        invariant 0 <= j <= |batches|
        invariant Valid()
        invariant provider.log == log0 + Singletons(sent) && provider.calls == calls0 + |sent|
        invariant target.writes == writes0 + writes && target.rows == rows0 + Flatten(writes)
        invariant RunBatches(provider.reply, calls0, c0, batches[..j]) == RunState(Ok(()), cache, sent, writes)
      {
        ghost var before := cache;
        var result, p := ProcessBatch(batches[j]);
        RunBatchesNext(provider.reply, calls0, c0, batches, j, RunState(Ok(()), before, sent, writes), p);
        SingletonsAppend(sent, p.sent);
        AppendAssoc(log0, Singletons(sent), Singletons(p.sent));
        ghost var w := if p.result.Err? then [] else [ToPairs(p.result.value)];
        FlattenSnoc(writes, if p.result.Err? then [] else ToPairs(p.result.value));
        sent := sent + p.sent;
        if result.Err? {
          RunBatchesSticky(provider.reply, calls0, c0, batches, j + 1);
          return result;
        }
        AppendAssoc(writes0, writes, w);
        AppendAssoc(rows0, Flatten(writes), if p.result.Err? then [] else ToPairs(p.result.value));
        writes := writes + w;
        j := j + 1;
      }
      RunBatchesWhole(provider.reply, calls0, c0, batches);
      r := Ok(());
    }

    /**
      main over the source table: select the rows, cut them into batches, and embed
      and save each batch in turn. A failed selection changes nothing; otherwise the
      run is RunBatches over the batches, whose inserts the target receives in order.
     */
    method Run(source: seq<QueryRow>) returns (r: Result<(), RunError>)
      requires Valid()
      modifies this, provider, target
      ensures Valid()
      ensures match GetRows(source, maxRows)
        case Err(e) =>
          && r == Err(RowSourceFailed(e))
          && cache == old(cache)
          && provider.log == old(provider.log)
          && target.rows == old(target.rows) && target.writes == old(target.writes)
        case Ok(rows) =>
          var s := RunBatches(provider.reply, old(provider.calls), old(cache), Chunks(rows, batchSize));
          && r == s.result
          && cache == s.cache
          && provider.log == old(provider.log) + Singletons(s.sent)
          && target.writes == old(target.writes) + s.writes
          && target.rows == old(target.rows) + Flatten(s.writes)
    {
      var selected := GetRows(source, maxRows);
      if selected.Err? {
        return Err(RowSourceFailed(selected.error));
      }
      var batches := GetBatches(selected.value);
      r := ProcessBatches(batches);
    }
  }
}
