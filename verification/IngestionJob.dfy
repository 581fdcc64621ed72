// The worker's job as it runs.
module IngestionJob {
  import opened Wrappers
  import opened Chunking
  import opened Ingestion
  import opened IngestionLaws

  // Contents in the order they first stand, and the drafts of each.
  method GroupByContent(missing: seq<Draft>) returns (order: seq<string>, groups: map<string, seq<Draft>>)
    ensures order == Distinct(Texts(missing))
    ensures forall t :: t in order ==> t in groups && groups[t] == WithContent(missing, t)
  {
    order, groups := [], map[];
    assert Texts(missing[..0]) == [];
    for k := 0 to |missing|
      invariant order == Distinct(Texts(missing[..k]))
      invariant forall t :: t in groups <==> t in order
      invariant forall t :: t in order ==> groups[t] == WithContent(missing[..k], t)
      invariant forall t :: t !in order ==> WithContent(missing[..k], t) == []
    {
      var d := missing[k];
      assert missing[..k + 1][..k] == missing[..k];
      assert Texts(missing[..k + 1])[..k] == Texts(missing[..k]);
      assert Texts(missing[..k + 1])[k] == d.content;
      if d.content in groups {
        groups := groups[d.content := groups[d.content] + [d]];
      } else {
        groups := groups[d.content := [d]];
        order := order + [d.content];
      }
    }
    assert missing[..|missing|] == missing;
  }

  method RowsOf(batch: seq<string>, ghost missing: seq<Draft>, groups: map<string, seq<Draft>>) returns (rows: seq<Draft>)
    requires forall t :: t in batch ==> t in groups && groups[t] == WithContent(missing, t)
    ensures rows == OfContents(missing, batch)
  {
    rows := [];
    for k := 0 to |batch|
      invariant rows == OfContents(missing, batch[..k])
    {
      assert batch[..k + 1][..k] == batch[..k];
      rows := rows + groups[batch[k]];
    }
    assert batch[..|batch|] == batch;
  }

  class SourceRow {
    var source: Option<Source>

    constructor ()
      ensures source == Uploaded().source
    {
      source := Some(Source(Pending, None, None, map[]));
    }

    method KeepReusable(job: Job, digest: Digest) returns (missing: seq<Draft>)
      requires source.Some?
      modifies this
      ensures var kept := Kept(old(source).value.chunks, job, digest);
              source == Some(old(source).value.(chunks := kept)) && missing == Without(job.drafts, kept.Keys)
    {
      var chunks := source.value.chunks;
      var kept: map<nat, Chunk> := map[];
      var rest := chunks.Keys;
      while rest != {}
        invariant rest <= chunks.Keys
        invariant forall i :: i in kept <==> i in chunks && i !in rest && Reusable(chunks[i], i, job, digest)
        invariant forall i :: i in kept ==> kept[i] == chunks[i]
        decreases |rest|
      {
        var i: nat :| i in rest;
        if Reusable(chunks[i], i, job, digest) {
          kept := kept[i := chunks[i]];
        }
        var one: set<nat> := {i};
        rest := rest - one;
      }
      assert kept == Kept(chunks, job, digest);
      source := Some(source.value.(chunks := kept));
      missing := [];
      for k := 0 to |job.drafts|
        invariant missing == Without(job.drafts[..k], kept.Keys)
      {
        assert job.drafts[..k + 1][..k] == job.drafts[..k];
        if job.drafts[k].index !in kept {
          missing := missing + [job.drafts[k]];
        }
      }
      assert job.drafts[..|job.drafts|] == job.drafts;
    }

    // Embeds and stores a batch's rows, or stores none.
    method StoreBatch(rows: seq<Draft>, provider: Provider) returns (stored: bool)
      requires source.Some?
      modifies this
      ensures var chunks := Inserted(old(source).value.chunks, rows, provider);
              && stored == chunks.Some?
              && source == if stored then Some(old(source).value.(chunks := chunks.value)) else old(source)
      ensures stored ==> source.Some? && forall k :: 0 <= k < |rows| ==>
                && rows[k].index in source.value.chunks
                && var c := source.value.chunks[rows[k].index];
                   && c.content == rows[k].content && c.start == rows[k].start && c.end == rows[k].end
                   && c.page == rows[k].page && c.tokens == rows[k].tokens && c.provider == provider
                   && c.embedding == Vector(provider, rows[k].content)
    {
      var chunks := source.value.chunks;
      for k := 0 to |rows|
        invariant Inserted(source.value.chunks, rows[..k], provider) == Some(chunks)
        invariant source == old(source)
        invariant forall j :: 0 <= j < k ==>
                    rows[j].index in chunks && chunks[rows[j].index] == ChunkOf(rows[j], provider)
      {
        assert rows[..k + 1][..k] == rows[..k];
        if rows[k].index in chunks {
          StaysTaken(source.value.chunks, rows, k + 1, provider);
          return false;
        }
        chunks := chunks[rows[k].index := ChunkOf(rows[k], provider)];
      }
      assert rows[..|rows|] == rows;
      source := Some(source.value.(chunks := chunks));
      stored := true;
    }

    method FinishAs(status: Status, error: Option<string>, count: Option<nat>)
      modifies this
      ensures source == FinishedAs(old(source), status, error, count)
      ensures if old(source).Some? && old(source).value.status == Processing then
                && source.Some? && source.value.status == status && source.value.error == error
                && source.value.chunks == old(source).value.chunks
                && source.value.count == (if count.Some? then count else old(source).value.count)
              else source == old(source)
    {
      if source.Some? && source.value.status.Processing? {
        var total := if count.Some? then count else source.value.count;
        source := Some(source.value.(status := status, error := error, count := total));
      }
    }

    // A whole run that nothing interrupts but, perhaps, the provider failing at
    // some batch.
    method Process(job: Job, digest: Digest, size: nat, failAt: Option<nat>) returns (sent: seq<string>)
      requires source.Some? && (source.value.status.Pending? || source.value.status.Processing?)
      requires Honest(source.value.chunks) && Numbered(job.drafts) && Injective(digest) && size > 0
      modifies this
      ensures source.Some? && Honest(source.value.chunks)
      ensures NoRepeats(sent)
      ensures OnlyMissing(sent, old(source.value.chunks), job)
      ensures source.value.status.Failed? || (source.value.status.Ready? && HoldsJob(source.value, job))
      ensures failAt.None? ==> source.value.status.Ready?
      ensures source.value.error == if source.value.status.Failed? then Some("embedding.failed") else None
    {
      hide Progress, Distinct, Texts, Without, OfContents, WithContent, Inserted, Kept, Injective, Honest, Numbered,
        Matches, HoldsJob, OnlyMissing;
      ghost var before := source.value.chunks;
      source := Some(source.value.(status := Processing, error := None));
      ghost var kept := Kept(before, job, digest);
      KeptProgress(source.value, job, digest);
      var missing := KeepReusable(job, digest);
      var contents, groups := GroupByContent(missing);
      NothingSent(missing);
      sent := [];
      var done := 0;
      var number := 0;
      while done < |contents|
        invariant done <= |contents| && sent == contents[..done] && source.Some? && source.value.status.Processing?
        invariant Progress(source.value.chunks, Embedding(job, kept, missing, contents, done, sent))
        decreases |contents| - done
      {
        ghost var run := Embedding(job, kept, missing, contents, done, sent);
        ProgressHonest(source.value.chunks, run);
        if failAt == Some(number) {
          FinishAs(Failed, Some("embedding.failed"), None);
          SentAreMissing(before, job, digest, done);
          return;
        }
        var batch := if |contents| - done <= size then contents[done..] else contents[done..done + size];
        assert batch == Batch(contents, done, size);
        BatchInside(contents, done, size);
        BatchCommits(source.value.chunks, run, size);
        NextBatch(source.value.chunks, run, size);
        var rows := RowsOf(batch, missing, groups);
        var stored := StoreBatch(rows, job.provider);
        sent := sent + batch;
        done := done + |batch|;
        number := number + 1;
      }
      SentAreMissing(before, job, digest, done);
      ghost var run := Embedding(job, kept, missing, contents, done, sent);
      ProgressHonest(source.value.chunks, run);
      AllStored(Source(Ready, None, Some(|job.drafts|), source.value.chunks), run);
      FinishAs(Ready, None, Some(|job.drafts|));
    }
  }

  lemma {:induction false} StaysTaken(chunks: map<nat, Chunk>, rows: seq<Draft>, k: nat, provider: Provider)
    requires k <= |rows| && Inserted(chunks, rows[..k], provider).None?
    ensures Inserted(chunks, rows, provider).None?
    decreases |rows|
  {
    if k < |rows| {
      assert rows[..|rows| - 1][..k] == rows[..k];
      StaysTaken(chunks, rows[..|rows| - 1], k, provider);
    } else {
      assert rows[..k] == rows;
    }
  }

  lemma NothingSent(missing: seq<Draft>)
    ensures Distinct(Texts(missing))[..0] == []
  {
  }

  lemma KeptProgress(source: Source, job: Job, digest: Digest)
    requires Honest(source.chunks) && source.status.Processing? && Numbered(job.drafts) && Injective(digest)
    ensures var kept := Kept(source.chunks, job, digest);
            var missing := Without(job.drafts, kept.Keys);
            Progress(kept, Embedding(job, kept, missing, Distinct(Texts(missing)), 0, []))
  {
    KeepKeeps(World(Some(source), Some(Reading), None), job, digest);
    hide Progress;
  }
}
