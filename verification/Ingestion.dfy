// A source's passages embedded and stored by a job that may die part-way and be
// run again.
module Ingestion {
  import opened Wrappers
  import opened Chunking
  import Seqs

  datatype Provider = Provider(model: string, dimension: nat)

  // The embedding of a text by a model, known only as that.
  datatype Vector = Vector(provider: Provider, content: string)

  datatype Chunk = Chunk(content: string, start: nat, end: nat, page: Option<nat>, tokens: nat,
                         provider: Provider, embedding: Vector)

  datatype Status = Pending | Processing | Ready | Failed

  // Chunks by index: the database admits one of each.
  datatype Source = Source(status: Status, error: Option<string>, count: Option<nat>, chunks: map<nat, Chunk>)

  // What a run would produce: its drafts, and the model that embeds them.
  datatype Job = Job(drafts: seq<Draft>, provider: Provider)

  predicate Numbered(drafts: seq<Draft>) {
    forall i :: 0 <= i < |drafts| ==> drafts[i].index == i
  }

  function ChunkOf(d: Draft, provider: Provider): Chunk {
    Chunk(d.content, d.start, d.end, d.page, d.tokens, provider, Vector(provider, d.content))
  }

  // ----- what is kept of an earlier run -----

  type Digest = string -> string

  ghost predicate Injective(digest: Digest) {
    forall a, b :: digest(a) == digest(b) ==> a == b
  }

  datatype Identity = Identity(digest: string, start: nat, end: nat, page: Option<nat>, provider: Provider)

  function IdentityOf(c: Chunk, digest: Digest): Identity {
    Identity(digest(c.content), c.start, c.end, c.page, c.provider)
  }

  function Wanted(d: Draft, provider: Provider, digest: Digest): Identity {
    Identity(digest(d.content), d.start, d.end, d.page, provider)
  }

  predicate Reusable(c: Chunk, index: nat, job: Job, digest: Digest) {
    index < |job.drafts| && IdentityOf(c, digest) == Wanted(job.drafts[index], job.provider, digest)
  }

  function Kept(chunks: map<nat, Chunk>, job: Job, digest: Digest): map<nat, Chunk> {
    map i | i in chunks && Reusable(chunks[i], i, job, digest) :: chunks[i]
  }

  function Without(drafts: seq<Draft>, kept: set<nat>): seq<Draft> {
    if drafts == [] then []
    else
      var last := drafts[|drafts| - 1];
      Without(drafts[..|drafts| - 1], kept) + if last.index in kept then [] else [last]
  }

  function Texts(drafts: seq<Draft>): seq<string> {
    seq(|drafts|, i requires 0 <= i < |drafts| => drafts[i].content)
  }

  // Each text once, where it first stands.
  function Distinct(texts: seq<string>): seq<string> {
    if texts == [] then []
    else
      var before, last := Distinct(texts[..|texts| - 1]), texts[|texts| - 1];
      if last in before then before else before + [last]
  }

  function WithContent(drafts: seq<Draft>, content: string): seq<Draft> {
    if drafts == [] then []
    else
      var last := drafts[|drafts| - 1];
      WithContent(drafts[..|drafts| - 1], content) + if last.content == content then [last] else []
  }

  // The drafts of each content in turn.
  function OfContents(drafts: seq<Draft>, contents: seq<string>): seq<Draft> {
    if contents == [] then []
    else OfContents(drafts, contents[..|contents| - 1]) + WithContent(drafts, contents[|contents| - 1])
  }

  // All the rows, or none if an index is taken.
  function Inserted(chunks: map<nat, Chunk>, drafts: seq<Draft>, provider: Provider): Option<map<nat, Chunk>> {
    if drafts == [] then Some(chunks)
    else
      var before, last := Inserted(chunks, drafts[..|drafts| - 1], provider), drafts[|drafts| - 1];
      if before.None? || last.index in before.value then None
      else Some(before.value[last.index := ChunkOf(last, provider)])
  }

  // ----- the job, step by step: each is one commit -----

  datatype Run =
    | Reading
    | Embedding(job: Job, kept: map<nat, Chunk>, missing: seq<Draft>, contents: seq<string>, done: nat,
                sent: seq<string>)

  // `finished` is the job of the run that marked the source ready.
  datatype World = World(source: Option<Source>, run: Option<Run>, finished: Option<Job>)

  datatype Act =
    | Begin
    | ReadFails(error: string)
    | Keep(job: Job)
    | EmbedFails(error: string)
    | EmbedBatch(size: nat)
    | Finish
    | Crash
    | Retry
    | Delete

  function Batch(contents: seq<string>, done: nat, size: nat): seq<string>
    requires done <= |contents|
  {
    if |contents| - done <= size then contents[done..] else contents[done..done + size]
  }

  // Only a source being processed is finished.
  function FinishedAs(source: Option<Source>, status: Status, error: Option<string>, count: Option<nat>)
      : Option<Source>
  {
    if source.Some? && source.value.status.Processing? then
      Some(source.value.(status := status, error := error, count := if count.Some? then count else source.value.count))
    else source
  }

  function Failing(w: World, error: string): World {
    World(FinishedAs(w.source, Failed, Some(error), None), None, w.finished)
  }

  function Keeping(w: World, job: Job, digest: Digest): World
    requires w.source.Some?
  {
    var kept := Kept(w.source.value.chunks, job, digest);
    var missing := Without(job.drafts, kept.Keys);
    w.(source := Some(w.source.value.(chunks := kept)),
       run := Some(Embedding(job, kept, missing, Distinct(Texts(missing)), 0, [])))
  }

  function Embedded(w: World, size: nat): World
    requires w.source.Some? && w.run.Some? && w.run.value.Embedding? && w.run.value.done <= |w.run.value.contents|
  {
    var run := w.run.value;
    var batch := Batch(run.contents, run.done, size);
    var rows := OfContents(run.missing, batch);
    var chunks := Inserted(w.source.value.chunks, rows, run.job.provider);
    if chunks.None? then w.(run := None)
    else
      w.(source := Some(w.source.value.(chunks := chunks.value)),
         run := Some(run.(done := run.done + |batch|, sent := run.sent + Distinct(Texts(rows)))))
  }

  function Step(w: World, act: Act, digest: Digest): World {
    match act
    case Begin =>
      if w.run.None? && w.source.Some? && (w.source.value.status.Pending? || w.source.value.status.Processing?) then
        w.(source := Some(w.source.value.(status := Processing, error := None)), run := Some(Reading))
      else w
    case ReadFails(error) => if w.run == Some(Reading) then Failing(w, error) else w
    case Keep(job) =>
      if w.run != Some(Reading) || !Numbered(job.drafts) then w
      else if w.source.None? then w.(run := None)
      else Keeping(w, job, digest)
    case EmbedFails(error) => if w.run.Some? && w.run.value.Embedding? then Failing(w, error) else w
    case EmbedBatch(size) =>
      if w.run.None? || !w.run.value.Embedding? || w.run.value.done >= |w.run.value.contents| || size == 0 then w
      else if w.source.None? then w.(run := None)
      else Embedded(w, size)
    case Finish =>
      if w.run.None? || !w.run.value.Embedding? || w.run.value.done < |w.run.value.contents| then w
      else if w.source.None? || !w.source.value.status.Processing? then w.(run := None)
      else
        var job := w.run.value.job;
        World(FinishedAs(w.source, Ready, None, Some(|job.drafts|)), None, Some(job))
    case Crash => w.(run := None)
    case Retry =>
      if w.source.Some? && w.source.value.status.Failed? then
        w.(source := Some(w.source.value.(status := Pending, error := None)))
      else w
    case Delete => w.(source := None)
  }

  function RunAll(w: World, acts: seq<Act>, digest: Digest): World {
    if acts == [] then w else Step(RunAll(w, acts[..|acts| - 1], digest), acts[|acts| - 1], digest)
  }

  function Uploaded(): World {
    World(Some(Source(Pending, None, None, map[])), None, None)
  }

  // ----- what a ready source holds -----

  predicate Matches(c: Chunk, d: Draft, provider: Provider) {
    && c.content == d.content && c.start == d.start && c.end == d.end && c.page == d.page
    && c.provider == provider && c.embedding == Vector(provider, d.content)
  }

  // Exactly the job's drafts, each under its index with its own embedding.
  predicate HoldsJob(source: Source, job: Job) {
    && source.count == Some(|job.drafts|)
    && (forall i :: i in source.chunks ==> i < |job.drafts|)
    && forall i :: 0 <= i < |job.drafts| ==> i in source.chunks && Matches(source.chunks[i], job.drafts[i], job.provider)
  }
}
