// What holds of a source over every run, crash and retry.
module IngestionLaws {
  import opened Wrappers
  import opened Chunking
  import opened Ingestion
  import Seqs

  // ----- the drafts still missing, and their contents -----

  ghost predicate IsMissing(d: Draft, drafts: seq<Draft>, kept: set<nat>) {
    d.index < |drafts| && d == drafts[d.index] && d.index !in kept
  }

  ghost predicate Apart(rows: seq<Draft>) {
    forall i, j :: 0 <= i < j < |rows| ==> rows[i].index != rows[j].index
  }

  // All of the missing drafts with a content among these, each once.
  ghost predicate AreRows(rows: seq<Draft>, drafts: seq<Draft>, kept: set<nat>, contents: seq<string>) {
    && Apart(rows)
    && (forall k :: 0 <= k < |rows| ==> IsMissing(rows[k], drafts, kept) && rows[k].content in contents)
    && (forall i: nat :: i < |drafts| && i !in kept && drafts[i].content in contents ==> drafts[i] in rows)
  }

  lemma {:induction false} WithoutMembers(drafts: seq<Draft>, kept: set<nat>, d: Draft)
    ensures d in Without(drafts, kept) <==> d in drafts && d.index !in kept
    decreases |drafts|
  {
    if drafts != [] {
      var front, last := drafts[..|drafts| - 1], drafts[|drafts| - 1];
      WithoutMembers(front, kept, d);
      assert drafts == front + [last];
    }
  }

  lemma ApartFromLast(rows: seq<Draft>, d: Draft)
    requires rows != [] && Apart(rows) && d in rows[..|rows| - 1]
    ensures d.index != rows[|rows| - 1].index
  {
    var k :| 0 <= k < |rows| - 1 && rows[k] == d;
  }

  lemma {:induction false} WithoutApart(drafts: seq<Draft>, kept: set<nat>)
    requires Apart(drafts)
    ensures Apart(Without(drafts, kept))
    decreases |drafts|
  {
    if drafts != [] {
      var front, last := drafts[..|drafts| - 1], drafts[|drafts| - 1];
      WithoutApart(front, kept);
      var before := Without(front, kept);
      forall k | 0 <= k < |before|
        ensures before[k].index != last.index
      {
        WithoutMembers(front, kept, before[k]);
        ApartFromLast(drafts, before[k]);
      }
    }
  }

  lemma WithoutLaw(drafts: seq<Draft>, kept: set<nat>)
    requires Numbered(drafts)
    ensures var missing := Without(drafts, kept);
            && Apart(missing)
            && (forall d :: d in missing <==> IsMissing(d, drafts, kept))
  {
    WithoutApart(drafts, kept);
    forall d: Draft
      ensures d in Without(drafts, kept) <==> IsMissing(d, drafts, kept)
    {
      WithoutMembers(drafts, kept, d);
    }
    hide Without;
  }

  lemma {:induction false} WithContentMembers(rows: seq<Draft>, content: string, d: Draft)
    ensures d in WithContent(rows, content) <==> d in rows && d.content == content
    decreases |rows|
  {
    if rows != [] {
      var front, last := rows[..|rows| - 1], rows[|rows| - 1];
      WithContentMembers(front, content, d);
      assert rows == front + [last];
    }
  }

  lemma {:induction false} WithContentApart(rows: seq<Draft>, content: string)
    requires Apart(rows)
    ensures Apart(WithContent(rows, content))
    decreases |rows|
  {
    if rows != [] {
      var front, last := rows[..|rows| - 1], rows[|rows| - 1];
      WithContentApart(front, content);
      var before := WithContent(front, content);
      forall k | 0 <= k < |before|
        ensures before[k].index != last.index
      {
        WithContentMembers(front, content, before[k]);
        ApartFromLast(rows, before[k]);
      }
    }
  }

  predicate NoRepeats(texts: seq<string>) {
    forall i, j :: 0 <= i < j < |texts| ==> texts[i] != texts[j]
  }

  lemma {:induction false} DistinctLaw(texts: seq<string>)
    ensures NoRepeats(Distinct(texts))
    ensures forall t :: t in Distinct(texts) <==> t in texts
    decreases |texts|
  {
    if texts != [] {
      DistinctLaw(texts[..|texts| - 1]);
      assert texts == texts[..|texts| - 1] + [texts[|texts| - 1]];
    }
  }

  // In the order in which they first stand.
  lemma {:induction false} DistinctInOrder(texts: seq<string>)
    ensures forall i, j, a :: 0 <= i < j < |Distinct(texts)| && 0 <= a < |texts| && texts[a] == Distinct(texts)[j]
                              ==> Distinct(texts)[i] in texts[..a]
    decreases |texts|
  {
    if texts != [] {
      var n := |texts| - 1;
      DistinctInOrder(texts[..n]);
      DistinctLaw(texts[..n]);
      var before := Distinct(texts[..n]);
      forall i, j, a | 0 <= i < j < |Distinct(texts)| && 0 <= a < |texts| && texts[a] == Distinct(texts)[j]
        ensures Distinct(texts)[i] in texts[..a]
      {
        assert before[i] in texts[..n];
        if a < n {
          assert texts[..n][a] == texts[a] && texts[..n][..a] == texts[..a];
          assert j < |before|;
        }
      }
    }
  }

  lemma {:induction false} OfContentsMembers(missing: seq<Draft>, contents: seq<string>, d: Draft)
    ensures d in OfContents(missing, contents) <==> d in missing && d.content in contents
    decreases |contents|
  {
    if contents != [] {
      var front, last := contents[..|contents| - 1], contents[|contents| - 1];
      OfContentsMembers(missing, front, d);
      WithContentMembers(missing, last, d);
      assert contents == front + [last];
    }
  }

  lemma OneOfIndex(rows: seq<Draft>, a: Draft, b: Draft)
    requires Apart(rows) && a in rows && b in rows && a.index == b.index
    ensures a == b
  {
    var i :| 0 <= i < |rows| && rows[i] == a;
    var j :| 0 <= j < |rows| && rows[j] == b;
  }

  lemma {:induction false} OfContentsApart(missing: seq<Draft>, contents: seq<string>)
    requires Apart(missing) && NoRepeats(contents)
    ensures Apart(OfContents(missing, contents))
    decreases |contents|
  {
    if contents != [] {
      var front, last := contents[..|contents| - 1], contents[|contents| - 1];
      OfContentsApart(missing, front);
      WithContentApart(missing, last);
      var before, more := OfContents(missing, front), WithContent(missing, last);
      forall k, l | 0 <= k < |before| && 0 <= l < |more|
        ensures before[k].index != more[l].index
      {
        OfContentsMembers(missing, front, before[k]);
        WithContentMembers(missing, last, more[l]);
        if before[k].index == more[l].index {
          OneOfIndex(missing, before[k], more[l]);
          LastIsNew(contents);
        }
      }
      ApartConcat(before, more);
    }
  }

  lemma LastIsNew(contents: seq<string>)
    requires contents != [] && NoRepeats(contents)
    ensures contents[|contents| - 1] !in contents[..|contents| - 1]
  {
  }

  lemma ApartConcat(a: seq<Draft>, b: seq<Draft>)
    requires Apart(a) && Apart(b) && forall k, l :: 0 <= k < |a| && 0 <= l < |b| ==> a[k].index != b[l].index
    ensures Apart(a + b)
  {
  }

  // The rows of a batch: every missing draft with one of its contents.
  lemma OfContentsLaw(missing: seq<Draft>, contents: seq<string>)
    requires Apart(missing) && NoRepeats(contents)
    ensures var rows := OfContents(missing, contents);
            && Apart(rows)
            && (forall k :: 0 <= k < |rows| ==> rows[k] in missing && rows[k].content in contents)
            && (forall k :: 0 <= k < |missing| && missing[k].content in contents ==> missing[k] in rows)
  {
    OfContentsApart(missing, contents);
    forall d: Draft
      ensures d in OfContents(missing, contents) <==> d in missing && d.content in contents
    {
      OfContentsMembers(missing, contents, d);
    }
    hide OfContents;
  }

  // With no index taken, the rows are added to what there is.
  lemma {:induction false} InsertedLaw(chunks: map<nat, Chunk>, rows: seq<Draft>, provider: Provider)
    requires Apart(rows) && forall k :: 0 <= k < |rows| ==> rows[k].index !in chunks
    ensures var after := Inserted(chunks, rows, provider);
            && after.Some?
            && (forall i :: i in after.value <==> i in chunks || exists k :: 0 <= k < |rows| && rows[k].index == i)
            && (forall i :: i in chunks ==> after.value[i] == chunks[i])
            && (forall k :: 0 <= k < |rows| ==>
                  rows[k].index in after.value && after.value[rows[k].index] == ChunkOf(rows[k], provider))
    decreases |rows|
  {
    if rows != [] {
      var front := rows[..|rows| - 1];
      InsertedLaw(chunks, front, provider);
      assert forall k :: 0 <= k < |front| ==> front[k] == rows[k];
    }
  }

  // ----- the invariant -----

  // Batches done so far are stored, and nothing but them and what was kept.
  ghost predicate Progress(chunks: map<nat, Chunk>, run: Run)
    requires run.Embedding?
  {
    var drafts, kept := run.job.drafts, run.kept.Keys;
    && Numbered(drafts) && run.done <= |run.contents|
    && run.missing == Without(drafts, kept) && run.contents == Distinct(Texts(run.missing))
    && run.sent == run.contents[..run.done]
    && (forall i :: i in kept ==> i < |drafts| && i in chunks)
    && (forall i :: i in chunks ==>
          i < |drafts| && Matches(chunks[i], drafts[i], run.job.provider)
          && (i in kept || drafts[i].content in run.contents[..run.done]))
    && (forall i: nat :: i < |drafts| && i !in kept && drafts[i].content in run.contents[..run.done] ==> i in chunks)
  }

  ghost predicate Inv(w: World) {
    && (w.source.Some? ==> Honest(w.source.value.chunks))
    && (w.source.Some? && w.run.Some? ==>
          w.source.value.status.Processing?
          && (w.run.value.Embedding? ==> Progress(w.source.value.chunks, w.run.value)))
    && (w.run.Some? && w.run.value.Embedding? ==> w.run.value.done <= |w.run.value.contents|)
    && (w.source.Some? && w.source.value.status.Ready? ==> w.finished.Some? && HoldsJob(w.source.value, w.finished.value))
  }

  // A chunk kept is one the run would produce, embedded by the same model.
  lemma KeptMatches(chunks: map<nat, Chunk>, job: Job, digest: Digest)
    requires Injective(digest) && Honest(chunks)
    ensures forall i :: i in Kept(chunks, job, digest) ==>
              i < |job.drafts| && Matches(Kept(chunks, job, digest)[i], job.drafts[i], job.provider)
  {
  }

  // A run embeds a draft again exactly when it is not already stored, with the
  // same place, page and model.
  lemma MissesExactly(chunks: map<nat, Chunk>, job: Job, digest: Digest, i: nat)
    requires Injective(digest) && Honest(chunks) && Numbered(job.drafts) && i < |job.drafts|
    ensures job.drafts[i] in Without(job.drafts, Kept(chunks, job, digest).Keys)
            <==> !(i in chunks && Matches(chunks[i], job.drafts[i], job.provider))
  {
    WithoutMembers(job.drafts, Kept(chunks, job, digest).Keys, job.drafts[i]);
    hide Without;
  }

  lemma KeepKeeps(w: World, job: Job, digest: Digest)
    requires Inv(w) && w.source.Some? && w.run.Some? && Numbered(job.drafts) && Injective(digest)
    ensures Inv(Keeping(w, job, digest))
  {
    KeptMatches(w.source.value.chunks, job, digest);
    hide Injective, Without, Distinct, Texts;
  }

  lemma MissingLaw(drafts: seq<Draft>, kept: set<nat>)
    requires Numbered(drafts)
    ensures var missing := Without(drafts, kept);
            && Apart(missing)
            && (forall d :: d in missing ==> IsMissing(d, drafts, kept) && d.content in Distinct(Texts(missing)))
            && (forall i: nat :: i < |drafts| && i !in kept ==> drafts[i] in missing)
            && NoRepeats(Distinct(Texts(missing)))
  {
    WithoutLaw(drafts, kept);
    hide Without, Distinct;
    var missing := Without(drafts, kept);
    DistinctLaw(Texts(missing));
    forall d | d in missing
      ensures d.content in Texts(missing)
    {
      var k :| 0 <= k < |missing| && missing[k] == d;
      assert Texts(missing)[k] == d.content;
    }
  }

  // The rows of the next batch.
  lemma BatchRows(drafts: seq<Draft>, kept: set<nat>, done: nat, size: nat)
    requires Numbered(drafts) && done <= |Distinct(Texts(Without(drafts, kept)))|
    ensures var missing := Without(drafts, kept);
            var batch := Batch(Distinct(Texts(missing)), done, size);
            && AreRows(OfContents(missing, batch), drafts, kept, batch)
            && forall t :: t in batch ==> t !in Distinct(Texts(missing))[..done]
  {
    MissingLaw(drafts, kept);
    hide Without, Distinct, Numbered, IsMissing, Batch;
    var missing := Without(drafts, kept);
    var batch := Batch(Distinct(Texts(missing)), done, size);
    BatchApart(Distinct(Texts(missing)), done, size);
    OfContentsLaw(missing, batch);
  }

  lemma BatchApart(contents: seq<string>, done: nat, size: nat)
    requires NoRepeats(contents) && done <= |contents|
    ensures var batch := Batch(contents, done, size);
            && NoRepeats(batch)
            && contents[..done] + batch == contents[..done + |batch|]
            && forall t :: t in batch ==> t !in contents[..done]
  {
    var batch := Batch(contents, done, size);
    forall t | t in batch
      ensures t !in contents[..done]
    {
      var i :| 0 <= i < |batch| && batch[i] == t;
      assert contents[done + i] == t;
    }
  }

  // What a batch sends is what it says, each text once.
  lemma {:induction false} BatchTexts(missing: seq<Draft>, contents: seq<string>)
    requires NoRepeats(contents) && forall t :: t in contents ==> t in Texts(missing)
    ensures Distinct(Texts(OfContents(missing, contents))) == contents
    decreases |contents|
  {
    hide WithContent, OfContents, Distinct, Texts;
    if contents != [] {
      var front, last := contents[..|contents| - 1], contents[|contents| - 1];
      assert contents == front + [last];
      BatchTexts(missing, front);
      LastIsNew(contents);
      SomeWith(missing, last);
      WithContentTexts(missing, last);
      OfContentsStep(missing, contents);
      var before, more := OfContents(missing, front), WithContent(missing, last);
      DistinctRun(Texts(before), last, |more|);
      TextsConcat(before, more);
    } else {
      NoBatch(missing);
    }
  }

  lemma NoBatch(missing: seq<Draft>)
    ensures Distinct(Texts(OfContents(missing, []))) == []
  {
  }

  lemma TextsConcat(a: seq<Draft>, b: seq<Draft>)
    ensures Texts(a + b) == Texts(a) + Texts(b)
  {
  }

  lemma OfContentsStep(missing: seq<Draft>, contents: seq<string>)
    requires contents != []
    ensures OfContents(missing, contents)
            == OfContents(missing, contents[..|contents| - 1]) + WithContent(missing, contents[|contents| - 1])
  {
  }

  lemma SomeWith(missing: seq<Draft>, content: string)
    requires content in Texts(missing)
    ensures WithContent(missing, content) != []
  {
    var k :| 0 <= k < |missing| && Texts(missing)[k] == content;
    WithContentMembers(missing, content, missing[k]);
  }

  lemma {:induction false} WithContentTexts(missing: seq<Draft>, content: string)
    ensures Texts(WithContent(missing, content)) == seq(|WithContent(missing, content)|, i => content)
    decreases |missing|
  {
    if missing != [] {
      WithContentTexts(missing[..|missing| - 1], content);
      var before := WithContent(missing[..|missing| - 1], content);
      forall k | 0 <= k < |before|
        ensures before[k].content == content
      {
        assert Texts(before)[k] == content;
      }
    }
  }

  // A run of one new text adds it once.
  lemma {:induction false} DistinctRun(texts: seq<string>, t: string, n: nat)
    requires n > 0 && t !in Distinct(texts)
    ensures Distinct(texts + seq(n, i => t)) == Distinct(texts) + [t]
    decreases n
  {
    var all := texts + seq(n, i => t);
    assert all[|all| - 1] == t && all[..|all| - 1] == texts + seq(n - 1, i => t);
    if n == 1 {
      assert texts + seq(0, i => t) == texts;
    } else {
      DistinctRun(texts, t, n - 1);
    }
  }

  ghost predicate Honest(chunks: map<nat, Chunk>) {
    forall i :: i in chunks ==> chunks[i].embedding == Vector(chunks[i].provider, chunks[i].content)
  }

  // The next batch: its rows are free to insert, and it sends its contents.
  ghost predicate BatchReady(chunks: map<nat, Chunk>, run: Run, rows: seq<Draft>, batch: seq<string>)
    requires run.Embedding?
  {
    && AreRows(rows, run.job.drafts, run.kept.Keys, batch)
    && (forall k :: 0 <= k < |rows| ==> rows[k].index !in chunks)
    && run.done + |batch| <= |run.contents|
    && run.contents[..run.done] + batch == run.contents[..run.done + |batch|]
    && Distinct(Texts(rows)) == batch
  }

  lemma BatchSends(drafts: seq<Draft>, kept: set<nat>, done: nat, size: nat)
    requires Numbered(drafts) && done <= |Distinct(Texts(Without(drafts, kept)))|
    ensures var missing := Without(drafts, kept);
            var contents := Distinct(Texts(missing));
            var batch := Batch(contents, done, size);
            && done + |batch| <= |contents| && contents[..done] + batch == contents[..done + |batch|]
            && Distinct(Texts(OfContents(missing, batch))) == batch
  {
    MissingLaw(drafts, kept);
    hide Without, Distinct, OfContents, Texts, Batch, Numbered, IsMissing, Apart;
    var missing := Without(drafts, kept);
    var contents := Distinct(Texts(missing));
    BatchApart(contents, done, size);
    BatchInside(contents, done, size);
    ContentsAreTexts(missing);
    BatchTexts(missing, Batch(contents, done, size));
  }

  lemma ProgressShape(chunks: map<nat, Chunk>, run: Run)
    requires run.Embedding? && Progress(chunks, run)
    ensures Numbered(run.job.drafts) && run.missing == Without(run.job.drafts, run.kept.Keys)
    ensures run.contents == Distinct(Texts(run.missing)) && run.done <= |run.contents|
  {
    hide Without, Distinct, Texts, Matches, Numbered;
  }

  lemma NextBatch(chunks: map<nat, Chunk>, run: Run, size: nat)
    requires run.Embedding? && Progress(chunks, run)
    ensures var batch := Batch(run.contents, run.done, size);
            BatchReady(chunks, run, OfContents(run.missing, batch), batch)
  {
    hide Without, Distinct, OfContents, Texts, Batch, Numbered, AreRows, Progress;
    ProgressShape(chunks, run);
    FreeBatch(chunks, run, size);
    BatchSends(run.job.drafts, run.kept.Keys, run.done, size);
  }

  lemma FreeBatch(chunks: map<nat, Chunk>, run: Run, size: nat)
    requires run.Embedding? && Progress(chunks, run)
    ensures var batch := Batch(run.contents, run.done, size);
            var rows := OfContents(run.missing, batch);
            && AreRows(rows, run.job.drafts, run.kept.Keys, batch)
            && forall k :: 0 <= k < |rows| ==> rows[k].index !in chunks
  {
    hide Without, Distinct, OfContents, Texts, Batch, Numbered, AreRows, Progress;
    ProgressShape(chunks, run);
    var batch := Batch(run.contents, run.done, size);
    BatchRows(run.job.drafts, run.kept.Keys, run.done, size);
    FreeIndexes(chunks, run, OfContents(run.missing, batch), batch);
  }

  lemma BatchStored(chunks: map<nat, Chunk>, run: Run, rows: seq<Draft>, batch: seq<string>)
    requires run.Embedding? && Progress(chunks, run) && BatchReady(chunks, run, rows, batch)
    ensures var after := Inserted(chunks, rows, run.job.provider);
            && after.Some? && Honest(after.value)
            && Progress(after.value, run.(done := run.done + |batch|, sent := run.sent + batch))
  {
    hide Without, Distinct, Inserted, Texts, Progress, IsMissing;
    InsertedLaw(chunks, rows, run.job.provider);
    var after := Inserted(chunks, rows, run.job.provider).value;
    ProgressMore(chunks, run, rows, batch, after);
    ProgressHonest(after, run.(done := run.done + |batch|, sent := run.sent + batch));
  }

  lemma ContentsAreTexts(missing: seq<Draft>)
    ensures forall t :: t in Distinct(Texts(missing)) <==> t in Texts(missing)
  {
    DistinctLaw(Texts(missing));
  }

  lemma ProgressHonest(chunks: map<nat, Chunk>, run: Run)
    requires run.Embedding? && Progress(chunks, run)
    ensures Honest(chunks)
  {
    hide Without, Distinct, Texts;
  }

  lemma BatchCommits(chunks: map<nat, Chunk>, run: Run, size: nat)
    requires run.Embedding? && Progress(chunks, run) && run.done <= |run.contents|
    ensures var batch := Batch(run.contents, run.done, size);
            var rows := OfContents(run.missing, batch);
            var after := Inserted(chunks, rows, run.job.provider);
            && after.Some? && Honest(after.value) && run.done + |batch| <= |run.contents|
            && Progress(after.value, run.(done := run.done + |batch|, sent := run.sent + Distinct(Texts(rows))))
  {
    hide Progress, Inserted, OfContents, Distinct, Texts, Batch, AreRows, Honest;
    var batch := Batch(run.contents, run.done, size);
    NextBatch(chunks, run, size);
    BatchStored(chunks, run, OfContents(run.missing, batch), batch);
  }

  lemma EmbedKeeps(w: World, size: nat)
    requires Inv(w) && w.source.Some? && w.run.Some? && w.run.value.Embedding?
    requires w.run.value.done < |w.run.value.contents| && size > 0
    ensures Inv(Embedded(w, size)) && Embedded(w, size).run.Some?
  {
    hide Progress, Inserted, OfContents, Distinct, Texts, Batch, Honest, HoldsJob;
    BatchCommits(w.source.value.chunks, w.run.value, size);
  }

  lemma BatchInside(contents: seq<string>, done: nat, size: nat)
    requires done <= |contents|
    ensures forall t :: t in Batch(contents, done, size) ==> t in contents
    ensures done + |Batch(contents, done, size)| <= |contents|
  {
  }

  lemma FreeIndexes(chunks: map<nat, Chunk>, run: Run, rows: seq<Draft>, batch: seq<string>)
    requires run.Embedding? && Progress(chunks, run) && AreRows(rows, run.job.drafts, run.kept.Keys, batch)
    requires forall t :: t in batch ==> t !in run.contents[..run.done]
    ensures forall k :: 0 <= k < |rows| ==> rows[k].index !in chunks
  {
    hide Without, Distinct, Texts;
    forall k | 0 <= k < |rows|
      ensures rows[k].index !in chunks
    {
      assert IsMissing(rows[k], run.job.drafts, run.kept.Keys);
    }
  }

  lemma ProgressMore(chunks: map<nat, Chunk>, run: Run, rows: seq<Draft>, batch: seq<string>, after: map<nat, Chunk>)
    requires run.Embedding? && Progress(chunks, run) && AreRows(rows, run.job.drafts, run.kept.Keys, batch)
    requires run.done + |batch| <= |run.contents|
    requires run.contents[..run.done] + batch == run.contents[..run.done + |batch|]
    requires forall i :: i in after <==> i in chunks || exists k :: 0 <= k < |rows| && rows[k].index == i
    requires forall i :: i in chunks ==> after[i] == chunks[i]
    requires forall k :: 0 <= k < |rows| ==>
               rows[k].index in after && after[rows[k].index] == ChunkOf(rows[k], run.job.provider)
    ensures Progress(after, run.(done := run.done + |batch|, sent := run.sent + batch))
  {
    hide Without, Distinct, Texts;
    var drafts, kept := run.job.drafts, run.kept.Keys;
    var now := run.contents[..run.done + |batch|];
    forall i | i in after
      ensures i < |drafts| && Matches(after[i], drafts[i], run.job.provider) && (i in kept || drafts[i].content in now)
    {
      if i !in chunks {
        var k :| 0 <= k < |rows| && rows[k].index == i;
        assert IsMissing(rows[k], drafts, kept);
      }
    }
    forall i: nat | i < |drafts| && i !in kept && drafts[i].content in now
      ensures i in after
    {
      if drafts[i].content in batch {
        assert drafts[i] in rows;
        var k :| 0 <= k < |rows| && rows[k] == drafts[i];
        assert drafts[i].index == i;
      }
    }
  }

  // ----- over every run -----

  // With no batch left, all the drafts are there.
  lemma AllStored(source: Source, run: Run)
    requires run.Embedding? && Progress(source.chunks, run) && run.done == |run.contents|
    requires source.count == Some(|run.job.drafts|)
    ensures HoldsJob(source, run.job)
  {
    ProgressShape(source.chunks, run);
    MissingLaw(run.job.drafts, run.kept.Keys);
    hide Without, Distinct, Texts, Matches;
    assert run.contents[..run.done] == run.contents;
    var drafts := run.job.drafts;
    forall i: nat | i < |drafts|
      ensures i in source.chunks
    {
      assert drafts[i].index == i;
      assert i !in run.kept.Keys ==> drafts[i] in run.missing;
    }
  }

  lemma FinishKeeps(w: World, digest: Digest)
    requires Inv(w)
    ensures Inv(Step(w, Finish, digest))
  {
    if w.run.Some? && w.run.value.Embedding? && w.run.value.done >= |w.run.value.contents| && w.source.Some? {
      var run := w.run.value;
      AllStored(w.source.value.(count := Some(|run.job.drafts|)), run);
      AllStored(Source(Ready, None, Some(|run.job.drafts|), w.source.value.chunks), run);
    }
    hide Progress, HoldsJob, Honest;
  }

  lemma StepKeeps(w: World, act: Act, digest: Digest)
    requires Inv(w) && Injective(digest)
    ensures Inv(Step(w, act, digest))
  {
    hide Injective, Progress, Without, Distinct, Texts, Inserted, OfContents, HoldsJob;
    match act {
      case Keep(job) =>
        if w.run == Some(Reading) && Numbered(job.drafts) && w.source.Some? {
          KeepKeeps(w, job, digest);
        }
      case EmbedBatch(size) =>
        if w.run.Some? && w.run.value.Embedding? && w.run.value.done < |w.run.value.contents| && size > 0
           && w.source.Some? {
          EmbedKeeps(w, size);
        }
      case Finish => FinishKeeps(w, digest);
      case _ =>
    }
  }

  lemma {:induction false} RunKeeps(acts: seq<Act>, digest: Digest)
    requires Injective(digest)
    ensures Inv(RunAll(Uploaded(), acts, digest))
    decreases |acts|
  {
    if acts != [] {
      hide Inv, Step, Injective;
      RunKeeps(acts[..|acts| - 1], digest);
      StepKeeps(RunAll(Uploaded(), acts[..|acts| - 1], digest), acts[|acts| - 1], digest);
    }
  }

  // Whatever ran, died or was retried, a source that is ready holds exactly the
  // drafts of the run that finished it.
  lemma ReadyHolds(acts: seq<Act>, digest: Digest)
    requires Injective(digest)
    ensures var w := RunAll(Uploaded(), acts, digest);
            w.source.Some? && w.source.value.status.Ready? ==>
              w.finished.Some? && HoldsJob(w.source.value, w.finished.value)
  {
    RunKeeps(acts, digest);
    hide Step;
  }

  // Each of these is the content of a draft that is not stored identically.
  ghost predicate OnlyMissing(texts: seq<string>, chunks: map<nat, Chunk>, job: Job) {
    forall t :: t in texts ==> exists i: nat ::
      && i < |job.drafts| && job.drafts[i].content == t
      && !(i in chunks && Matches(chunks[i], job.drafts[i], job.provider))
  }

  lemma SentAreMissing(chunks: map<nat, Chunk>, job: Job, digest: Digest, done: nat)
    requires Injective(digest) && Honest(chunks) && Numbered(job.drafts)
    requires done <= |Distinct(Texts(Without(job.drafts, Kept(chunks, job, digest).Keys)))|
    ensures var sent := Distinct(Texts(Without(job.drafts, Kept(chunks, job, digest).Keys)))[..done];
            NoRepeats(sent) && OnlyMissing(sent, chunks, job)
  {
    var missing := Without(job.drafts, Kept(chunks, job, digest).Keys);
    DistinctLaw(Texts(missing));
    MissingLaw(job.drafts, Kept(chunks, job, digest).Keys);
    hide Without, Distinct, Kept, Injective, Honest, Numbered, Matches;
    var sent := Distinct(Texts(missing))[..done];
    forall t | t in sent
      ensures exists i: nat ::
        && i < |job.drafts| && job.drafts[i].content == t
        && !(i in chunks && Matches(chunks[i], job.drafts[i], job.provider))
    {
      assert t in Texts(missing);
      var k :| 0 <= k < |missing| && Texts(missing)[k] == t;
      assert missing[k] in missing && IsMissing(missing[k], job.drafts, Kept(chunks, job, digest).Keys);
      MissesExactly(chunks, job, digest, missing[k].index);
    }
  }

  // Where the run began to embed, with what was stored identically then.
  ghost predicate KeptAt(acts: seq<Act>, k: nat, run: Run, digest: Digest)
    requires run.Embedding?
  {
    && k < |acts| && acts[k] == Keep(run.job)
    && var source := RunAll(Uploaded(), acts[..k], digest).source;
    && source.Some? && run.kept == Kept(source.value.chunks, run.job, digest)
  }

  // And nothing it has sent is the content of a draft stored so.
  ghost predicate BeganAt(acts: seq<Act>, k: nat, run: Run, digest: Digest)
    requires run.Embedding?
  {
    KeptAt(acts, k, run, digest)
    && OnlyMissing(run.sent, RunAll(Uploaded(), acts[..k], digest).source.value.chunks, run.job)
  }

  // The step that began a run's embedding.
  lemma {:induction false} Began(acts: seq<Act>, digest: Digest) returns (k: nat)
    requires var w := RunAll(Uploaded(), acts, digest); w.run.Some? && w.run.value.Embedding?
    ensures KeptAt(acts, k, RunAll(Uploaded(), acts, digest).run.value, digest)
    decreases |acts|
  {
    hide Kept, Without, Distinct, Inserted, OfContents, Numbered;
    var n := |acts| - 1;
    var before := RunAll(Uploaded(), acts[..n], digest);
    if acts[n].Keep? && before.run == Some(Reading) {
      k := n;
    } else {
      k := Began(acts[..n], digest);
      assert acts[..n][..k] == acts[..k];
    }
  }

  lemma SendingFacts(w: World)
    requires Inv(w) && w.source.Some? && w.run.Some? && w.run.value.Embedding?
    ensures var run := w.run.value;
            && Numbered(run.job.drafts) && run.missing == Without(run.job.drafts, run.kept.Keys)
            && run.contents == Distinct(Texts(run.missing)) && run.done <= |run.contents|
            && run.sent == run.contents[..run.done]
  {
    hide Without, Distinct, Texts, Matches, Numbered;
  }

  // No run ever stores a passage under an index that is taken. Each sends the
  // contents it is missing in turn, each once and no other, and none that was
  // stored identically when it began.
  lemma SendsOnce(acts: seq<Act>, digest: Digest)
    requires Injective(digest)
    ensures var w := RunAll(Uploaded(), acts, digest);
            w.source.Some? && w.run.Some? && w.run.value.Embedding? ==>
              var run := w.run.value;
              && NoRepeats(run.contents) && run.done <= |run.contents| && run.sent == run.contents[..run.done]
              && (forall t :: t in run.contents <==> t in Texts(Without(run.job.drafts, run.kept.Keys)))
              && (forall size: nat :: size > 0 && run.done < |run.contents| ==> Embedded(w, size).run.Some?)
              && exists k: nat :: BeganAt(acts, k, run, digest)
  {
    RunKeeps(acts, digest);
    var w := RunAll(Uploaded(), acts, digest);
    if w.source.Some? && w.run.Some? && w.run.value.Embedding? {
      var run := w.run.value;
      var k := Began(acts, digest);
      RunKeeps(acts[..k], digest);
      hide Step, Injective, Progress, RunAll, Embedded, Without, Distinct, OnlyMissing, HoldsJob;
      SendingFacts(w);
      DistinctLaw(Texts(Without(run.job.drafts, run.kept.Keys)));
      forall size: nat | size > 0 && run.done < |run.contents|
        ensures Embedded(w, size).run.Some?
      {
        EmbedKeeps(w, size);
      }
      SentAreMissing(RunAll(Uploaded(), acts[..k], digest).source.value.chunks, run.job, digest, run.done);
      assert BeganAt(acts, k, run, digest);
    }
  }

  // ----- token counts -----

  ghost predicate Counted(drafts: seq<Draft>, count: string -> nat) {
    forall d :: d in drafts ==> d.tokens == count(d.content)
  }

  ghost predicate ChunksCounted(chunks: map<nat, Chunk>, count: string -> nat) {
    forall i :: i in chunks ==> chunks[i].tokens == count(chunks[i].content)
  }

  ghost predicate WorldCounted(w: World, count: string -> nat) {
    && (w.source.Some? ==> ChunksCounted(w.source.value.chunks, count))
    && (w.run.Some? && w.run.value.Embedding? ==> Counted(w.run.value.missing, count))
  }

  lemma {:induction false} InsertedCounted(chunks: map<nat, Chunk>, rows: seq<Draft>, provider: Provider,
                                           count: string -> nat)
    requires ChunksCounted(chunks, count) && Counted(rows, count) && Inserted(chunks, rows, provider).Some?
    ensures ChunksCounted(Inserted(chunks, rows, provider).value, count)
    decreases |rows|
  {
    if rows != [] {
      assert rows == rows[..|rows| - 1] + [rows[|rows| - 1]];
      InsertedCounted(chunks, rows[..|rows| - 1], provider, count);
    }
  }

  lemma KeepCounts(w: World, job: Job, digest: Digest, count: string -> nat)
    requires WorldCounted(w, count) && w.source.Some? && Counted(job.drafts, count)
    ensures WorldCounted(Keeping(w, job, digest), count)
  {
    var kept := Kept(w.source.value.chunks, job, digest);
    forall d | d in Without(job.drafts, kept.Keys)
      ensures d in job.drafts
    {
      WithoutMembers(job.drafts, kept.Keys, d);
    }
    hide Without, Distinct;
  }

  lemma EmbedCounts(w: World, size: nat, count: string -> nat)
    requires WorldCounted(w, count) && w.source.Some? && w.run.Some? && w.run.value.Embedding?
    requires w.run.value.done <= |w.run.value.contents|
    ensures WorldCounted(Embedded(w, size), count)
  {
    var run := w.run.value;
    var rows := OfContents(run.missing, Batch(run.contents, run.done, size));
    forall d | d in rows
      ensures d in run.missing
    {
      OfContentsMembers(run.missing, Batch(run.contents, run.done, size), d);
    }
    hide OfContents, Batch, Inserted;
    if Inserted(w.source.value.chunks, rows, run.job.provider).Some? {
      InsertedCounted(w.source.value.chunks, rows, run.job.provider, count);
    }
  }

  // A passage counts the tokens of its own text, kept or embedded by whichever
  // run, where the runs' drafts do.
  lemma {:induction false} TokensCounted(acts: seq<Act>, digest: Digest, count: string -> nat)
    requires forall k :: 0 <= k < |acts| && acts[k].Keep? ==> Counted(acts[k].job.drafts, count)
    ensures WorldCounted(RunAll(Uploaded(), acts, digest), count)
    decreases |acts|
  {
    if acts != [] {
      hide Counted, ChunksCounted, Keeping, Embedded, Numbered;
      var n := |acts| - 1;
      assert forall k :: 0 <= k < n ==> acts[..n][k] == acts[k];
      TokensCounted(acts[..n], digest, count);
      var w := RunAll(Uploaded(), acts[..n], digest);
      match acts[n] {
        case Keep(job) =>
          if w.source.Some? {
            KeepCounts(w, job, digest, count);
          }
        case EmbedBatch(size) =>
          if w.source.Some? && w.run.Some? && w.run.value.Embedding? && w.run.value.done <= |w.run.value.contents| {
            EmbedCounts(w, size, count);
          }
        case _ =>
      }
    } else {
      assert ChunksCounted(map[], count);
    }
  }

  // ----- what is stored stays, and what an error says -----

  lemma {:induction false} InsertedStays(chunks: map<nat, Chunk>, rows: seq<Draft>, provider: Provider)
    requires Inserted(chunks, rows, provider).Some?
    ensures forall i :: i in chunks ==>
              i in Inserted(chunks, rows, provider).value && Inserted(chunks, rows, provider).value[i] == chunks[i]
    decreases |rows|
  {
    if rows != [] {
      InsertedStays(chunks, rows[..|rows| - 1], provider);
    }
  }

  // No step loses a stored passage, whatever failed, died or was retried, but
  // the one that begins to embed, and that one only if no draft is identical.
  lemma StoredStays(w: World, act: Act, digest: Digest, i: nat)
    requires w.source.Some? && i in w.source.value.chunks && Step(w, act, digest).source.Some?
    ensures var before, after := w.source.value.chunks, Step(w, act, digest).source.value.chunks;
            || (i in after && after[i] == before[i])
            || (act.Keep? && w.run == Some(Reading) && !Reusable(before[i], i, act.job, digest) && i !in after)
  {
    hide Without, Distinct, OfContents, Inserted, Reusable, Batch;
    if act.EmbedBatch? && w.run.Some? && w.run.value.Embedding? && w.run.value.done <= |w.run.value.contents| {
      var run := w.run.value;
      var rows := OfContents(run.missing, Batch(run.contents, run.done, act.size));
      if Inserted(w.source.value.chunks, rows, run.job.provider).Some? {
        InsertedStays(w.source.value.chunks, rows, run.job.provider);
      }
    }
  }

  // A source says an error exactly when it has failed.
  lemma {:induction false} ErrorsTell(acts: seq<Act>, digest: Digest)
    ensures var source := RunAll(Uploaded(), acts, digest).source;
            source.Some? ==> (source.value.error.Some? <==> source.value.status.Failed?)
    decreases |acts|
  {
    if acts != [] {
      ErrorsTell(acts[..|acts| - 1], digest);
      hide Kept, Without, Distinct, OfContents, Inserted, Numbered, Batch;
    }
  }
}
