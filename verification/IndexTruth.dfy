/** The bucket never lies: over every run, with writes failing, landing unreported and
    being retried, every index file names a stored chunk and describes it exactly. */
module IndexTruth {
  import opened Seqs
  import opened Domain
  import opened Lines
  import opened Wal
  import opened Keys
  import opened KeyRouting
  import opened LabelSets
  import opened Batches
  import opened Pipeline
  import opened Conservation
  import opened Ledger

  /** A chunk record that tells the truth about its entries. */
  ghost predicate TrueChunk(cfg: Config, id: string, sc: StoredChunk) {
    && IsId(id) && Encodable(cfg.codec, sc.entries)
    && Describes(sc.entries, sc.chunk.service, sc.chunk.minTime, sc.chunk.maxTime)
    && sc.chunk.key == ChunkKey(sc.chunk.service, sc.chunk.minTime, id, cfg.algo)
    && sc.chunk.entryCount == |sc.entries|
    && sc.chunk.sizeBytes == |ChunkData(cfg, sc.entries)|
    && sc.chunk.compression == cfg.algo
    && Collected(sc.entries, sc.chunk.labelSets)
  }

  function ObjectKey(cfg: Config, sc: StoredChunk): string { cfg.s3Prefix + sc.chunk.key }

  function IndexFileKey(cfg: Config, sc: StoredChunk): string { IndexKey(cfg.indexPrefix, sc.chunk.key) }

  ghost function FilesOf(cfg: Config, sc: StoredChunk): Files {
    Files(ObjectKey(cfg, sc), if Encodable(cfg.codec, sc.entries) then ChunkData(cfg, sc.entries) else [],
          IndexFileKey(cfg, sc), cfg.codec.encIndex(sc.chunk))
  }

  ghost function AllFiles(cfg: Config, begun: map<string, StoredChunk>): map<string, Files> {
    map id | id in begun :: FilesOf(cfg, begun[id])
  }

  ghost predicate TaskOk(cfg: Config, st: Store, t: Task) {
    match t
    case Waiting(_) => true
    case Putting(job, id, chunk, data, _) =>
      && id in st.begun && st.begun[id] == StoredChunk(chunk, job.entries)
      && Encodable(cfg.codec, job.entries) && data == ChunkData(cfg, job.entries)
    case Indexing(job, id, chunk) =>
      id in st.stored && id in st.begun && st.begun[id] == StoredChunk(chunk, job.entries)
  }

  ghost predicate TasksOk(cfg: Config, st: Store, p: Proc) {
    && (p.loop.Some? ==> TaskOk(cfg, st, p.loop.value))
    && forall i | 0 <= i < |p.overflow| :: TaskOk(cfg, st, p.overflow[i])
  }

  ghost predicate Records(cfg: Config, begun: map<string, StoredChunk>) {
    forall id | id in begun :: TrueChunk(cfg, id, begun[id])
  }

  /** Every record tells the truth, and the bucket holds exactly the stored chunks and
      the index files that landed. */
  ghost predicate StoreOk(cfg: Config, st: Store) {
    Records(cfg, st.begun) && Balanced(st.bucket, AllFiles(cfg, st.begun), st.stored, st.indexed)
  }

  ghost predicate StoreInv(cfg: Config, s: State) {
    StoreOk(cfg, s.store) && TasksOk(cfg, s.store, s.proc)
  }

  // ---- keys never clash ----

  lemma FilesApart(cfg: Config, id: string, sc: StoredChunk, id': string, sc': StoredChunk)
    requires TrueChunk(cfg, id, sc) && TrueChunk(cfg, id', sc')
    ensures id != id' ==> ObjectKey(cfg, sc) != ObjectKey(cfg, sc') && IndexFileKey(cfg, sc) != IndexFileKey(cfg, sc')
    ensures ObjectKey(cfg, sc) != IndexFileKey(cfg, sc')
  {
    var s, t, s', t' := sc.chunk.service, sc.chunk.minTime, sc'.chunk.service, sc'.chunk.minTime;
    if id != id' {
      ChunkKeysDistinct(cfg.s3Prefix, s, t, id, cfg.algo, s', t', id', cfg.algo);
      IndexKeysDistinct(cfg.indexPrefix, s, t, id, cfg.algo, s', t', id', cfg.algo);
    }
    ChunkIsNotIndex(cfg.s3Prefix, s, t, id, cfg.algo, cfg.indexPrefix, s', t', id', cfg.algo);
  }

  lemma AllApart(cfg: Config, begun: map<string, StoredChunk>)
    requires Records(cfg, begun)
    ensures Apart(AllFiles(cfg, begun))
  {
    forall a, b | a in begun && b in begun
      ensures a != b ==> ObjectKey(cfg, begun[a]) != ObjectKey(cfg, begun[b])
      ensures a != b ==> IndexFileKey(cfg, begun[a]) != IndexFileKey(cfg, begun[b])
      ensures ObjectKey(cfg, begun[a]) != IndexFileKey(cfg, begun[b])
    {
      FilesApart(cfg, a, begun[a], b, begun[b]);
    }
  }

  // ---- preservation ----

  lemma BeginKeeps(cfg: Config, st: Store, id: string, sc: StoredChunk)
    requires StoreOk(cfg, st) && id !in st.begun && TrueChunk(cfg, id, sc)
    ensures StoreOk(cfg, st.(begun := st.begun[id := sc]))
  {
    Begin(st.bucket, AllFiles(cfg, st.begun), st.stored, st.indexed, id, FilesOf(cfg, sc));
    AllFilesAdd(cfg, st.begun, id, sc);
    RecordsAdd(cfg, st.begun, id, sc);
  }

  lemma RecordsAdd(cfg: Config, begun: map<string, StoredChunk>, id: string, sc: StoredChunk)
    requires Records(cfg, begun) && TrueChunk(cfg, id, sc)
    ensures Records(cfg, begun[id := sc])
  {
    var begun' := begun[id := sc];
    forall o | o in begun'
      ensures TrueChunk(cfg, o, begun'[o])
    {
      if o != id {
        assert begun'[o] == begun[o] && TrueChunk(cfg, o, begun[o]);
      }
    }
  }

  lemma AllFilesAdd(cfg: Config, begun: map<string, StoredChunk>, id: string, sc: StoredChunk)
    ensures AllFiles(cfg, begun[id := sc]) == AllFiles(cfg, begun)[id := FilesOf(cfg, sc)]
  {
  }

  lemma ObjectLandsKeeps(cfg: Config, st: Store, t: Task)
    requires StoreOk(cfg, st) && t.Putting? && TaskOk(cfg, st, t)
    ensures StoreOk(cfg, PutChunk(cfg, st, t))
  {
    AllApart(cfg, st.begun);
    ChunkLands(st.bucket, AllFiles(cfg, st.begun), st.stored, st.indexed, t.id);
  }

  lemma IndexLandsKeeps(cfg: Config, st: Store, t: Task)
    requires StoreOk(cfg, st) && t.Indexing? && TaskOk(cfg, st, t) && cfg.codec.encIndex(t.chunk).Some?
    ensures StoreOk(cfg, PutIndex(cfg, st, t))
  {
    AllApart(cfg, st.begun);
    Ledger.IndexLands(st.bucket, AllFiles(cfg, st.begun), st.stored, st.indexed, t.id);
  }

  ghost predicate Grows(st: Store, st': Store) {
    && st.stored <= st'.stored && st.begun.Keys <= st'.begun.Keys
    && forall id | id in st.begun :: st'.begun[id] == st.begun[id]
  }

  lemma TasksStable(cfg: Config, st: Store, p: Proc, st': Store)
    requires TasksOk(cfg, st, p) && Grows(st, st')
    ensures TasksOk(cfg, st', p)
  {
  }

  lemma SetTaskOk(cfg: Config, st: Store, p: Proc, slot: Slot, t: Task)
    requires TasksOk(cfg, st, p) && HasTask(p, slot) && TaskOk(cfg, st, t)
    ensures TasksOk(cfg, st, SetTask(p, slot, t))
  {
  }

  lemma EndTaskOk(cfg: Config, st: Store, p: Proc, slot: Slot)
    requires TasksOk(cfg, st, p) && HasTask(p, slot)
    ensures TasksOk(cfg, st, EndTask(p, slot))
  {
    if slot.Overflow? {
      var ts := EndTask(p, slot).overflow;
      forall i | 0 <= i < |ts|
        ensures TaskOk(cfg, st, ts[i])
      {
        assert ts[i] == p.overflow[if i < slot.i then i else i + 1];
      }
    }
  }

  lemma TaskOkAt(cfg: Config, st: Store, p: Proc, slot: Slot)
    requires TasksOk(cfg, st, p) && HasTask(p, slot)
    ensures TaskOk(cfg, st, TaskAt(p, slot))
  {
  }

  lemma JobSomewhere(p: Proc, f: Flow, slot: Slot)
    requires HasTask(p, slot)
    ensures TaskAt(p, slot).job in JobsAnywhere(p, f)
  {
    match slot
    case Loop => assert TaskAt(p, slot).job in LoopJobs(p);
    case Overflow(i) => assert TaskJobs(p.overflow)[i] == TaskAt(p, slot).job;
  }

  lemma JobOkAt(cfg: Config, s: State, slot: Slot)
    requires FlowInv(cfg, s) && HasTask(s.proc, slot)
    ensures JobOk(TaskAt(s.proc, slot).job)
  {
    var j, all := TaskAt(s.proc, slot).job, JobsAnywhere(s.proc, s.flow);
    JobSomewhere(s.proc, s.flow, slot);
    TotalAnywhere(s.proc, s.flow);
    assert j in multiset(all);
    assert j in multiset(s.flow.dispatched);
  }

  lemma NewChunkTrue(cfg: Config, job: Job, id: string, sets: seq<Labels>)
    requires JobOk(job) && IsId(id) && Encodable(cfg.codec, job.entries) && Collected(job.entries, sets)
    ensures TrueChunk(cfg, id, StoredChunk(ChunkOf(cfg, job, id, sets), job.entries))
  {
  }

  lemma StartKeepsStore(cfg: Config, s: State, slot: Slot, id: string, sets: seq<Labels>)
    requires FlowInv(cfg, s) && StoreInv(cfg, s) && Enabled(cfg, s, Start(slot, id, sets))
    ensures StoreInv(cfg, StartStep(cfg, s, slot, id, sets))
  {
    var job := TaskAt(s.proc, slot).job;
    JobOkAt(cfg, s, slot);
    if !Encodable(cfg.codec, job.entries) {
      EndTaskOk(cfg, s.store, s.proc, slot);
    } else {
      NewChunkTrue(cfg, job, id, sets);
      UploadBegins(cfg, s.store, s.proc, slot, job, id, ChunkOf(cfg, job, id, sets));
    }
  }

  lemma UploadBegins(cfg: Config, st: Store, p: Proc, slot: Slot, job: Job, id: string, chunk: Chunk)
    requires StoreOk(cfg, st) && TasksOk(cfg, st, p) && HasTask(p, slot) && id !in st.begun
    requires Encodable(cfg.codec, job.entries) && TrueChunk(cfg, id, StoredChunk(chunk, job.entries))
    ensures var st' := st.(begun := st.begun[id := StoredChunk(chunk, job.entries)]);
            && StoreOk(cfg, st')
            && TasksOk(cfg, st', SetTask(p, slot, Putting(job, id, chunk, ChunkData(cfg, job.entries), 0)))
  {
    BeginKeeps(cfg, st, id, StoredChunk(chunk, job.entries));
    TaskBegins(cfg, st, p, slot, job, id, chunk);
  }

  lemma TaskBegins(cfg: Config, st: Store, p: Proc, slot: Slot, job: Job, id: string, chunk: Chunk)
    requires TasksOk(cfg, st, p) && HasTask(p, slot) && id !in st.begun && Encodable(cfg.codec, job.entries)
    ensures var st' := st.(begun := st.begun[id := StoredChunk(chunk, job.entries)]);
            TasksOk(cfg, st', SetTask(p, slot, Putting(job, id, chunk, ChunkData(cfg, job.entries), 0)))
  {
    var st' := st.(begun := st.begun[id := StoredChunk(chunk, job.entries)]);
    TasksStable(cfg, st, p, st');
    SetTaskOk(cfg, st', p, slot, Putting(job, id, chunk, ChunkData(cfg, job.entries), 0));
  }

  lemma PutKeepsStore(cfg: Config, s: State, slot: Slot, landed: bool, ok: bool)
    requires StoreInv(cfg, s) && Enabled(cfg, s, Put(slot, landed, ok))
    ensures StoreInv(cfg, PutStep(cfg, s, slot, landed, ok))
  {
    var t := TaskAt(s.proc, slot);
    TaskOkAt(cfg, s.store, s.proc, slot);
    PutParts(cfg, s, slot, landed, ok);
    LandedOk(cfg, s.store, s.proc, t, landed);
    AttemptEnds(cfg, AfterPut(cfg, s.store, t, landed), s.proc, slot, t, ok);
  }

  lemma AttemptEnds(cfg: Config, st: Store, p: Proc, slot: Slot, t: Task, ok: bool)
    requires HasTask(p, slot) && TasksOk(cfg, st, p) && t.Putting? && TaskOk(cfg, st, t) && (ok ==> t.id in st.stored)
    ensures TasksOk(cfg, st, AfterAttempt(p, slot, t, ok))
  {
    AttemptOk(cfg, st, t);
    if ok {
      SetTaskOk(cfg, st, p, slot, Indexing(t.job, t.id, t.chunk));
    } else if t.attempts + 1 < MAX_ATTEMPTS {
      SetTaskOk(cfg, st, p, slot, t.(attempts := t.attempts + 1));
    } else {
      EndTaskOk(cfg, st, p, slot);
    }
  }

  lemma LandedOk(cfg: Config, st: Store, p: Proc, t: Task, landed: bool)
    requires StoreOk(cfg, st) && TasksOk(cfg, st, p) && t.Putting? && TaskOk(cfg, st, t)
    ensures var st' := AfterPut(cfg, st, t, landed);
            StoreOk(cfg, st') && TasksOk(cfg, st', p) && TaskOk(cfg, st', t) && (landed ==> t.id in st'.stored)
  {
    if landed {
      ObjectLandsKeeps(cfg, st, t);
      TasksStable(cfg, st, p, PutChunk(cfg, st, t));
    }
  }

  /** What a write attempt turns its task into. */
  lemma AttemptOk(cfg: Config, st: Store, t: Task)
    requires t.Putting? && TaskOk(cfg, st, t)
    ensures TaskOk(cfg, st, t.(attempts := t.attempts + 1))
    ensures t.id in st.stored ==> TaskOk(cfg, st, Indexing(t.job, t.id, t.chunk))
  {
  }

  lemma IndexKeepsStore(cfg: Config, s: State, slot: Slot, landed: bool)
    requires StoreInv(cfg, s) && Enabled(cfg, s, Index(slot, landed))
    ensures StoreInv(cfg, IndexStep(cfg, s, slot, landed))
  {
    var t := TaskAt(s.proc, slot);
    TaskOkAt(cfg, s.store, s.proc, slot);
    EndTaskOk(cfg, s.store, s.proc, slot);
    if landed && cfg.codec.encIndex(t.chunk).Some? {
      IndexLandsKeeps(cfg, s.store, t);
      TasksStable(cfg, s.store, EndTask(s.proc, slot), PutIndex(cfg, s.store, t));
    }
  }

  lemma StepKeepsStore(cfg: Config, s: State, step: Step)
    requires FlowInv(cfg, s) && StoreInv(cfg, s) && Enabled(cfg, s, step)
    ensures StoreInv(cfg, Next(cfg, s, step))
  {
    match step
    case Start(slot, id, sets) => StartKeepsStore(cfg, s, slot, id, sets);
    case Put(slot, landed, ok) => PutKeepsStore(cfg, s, slot, landed, ok);
    case GiveUp(slot) => EndTaskOk(cfg, s.store, s.proc, slot);
    case Index(slot, landed) => IndexKeepsStore(cfg, s, slot, landed);
    case _ => OtherKeepsStore(cfg, s, step);
  }

  /** Steps that touch neither the bucket nor a task under way. */
  lemma OtherKeepsStore(cfg: Config, s: State, step: Step)
    requires StoreInv(cfg, s) && Enabled(cfg, s, step)
    requires !step.Start? && !step.Put? && !step.GiveUp? && !step.Index?
    ensures StoreInv(cfg, Next(cfg, s, step))
  {
    OnlyNewTasks(cfg, s, step);
    NewTasksOk(cfg, s.store, s.proc, Next(cfg, s, step).proc);
  }

  /** Every task of p' is one of p or has not begun. */
  ghost predicate Begins(p: Proc, p': Proc) {
    && (p'.loop == p.loop || p'.loop == None || p'.loop.value.Waiting?)
    && forall i | 0 <= i < |p'.overflow| ::
        (i < |p.overflow| && p'.overflow[i] == p.overflow[i]) || p'.overflow[i].Waiting?
  }

  lemma NewTasksOk(cfg: Config, st: Store, p: Proc, p': Proc)
    requires TasksOk(cfg, st, p) && Begins(p, p')
    ensures TasksOk(cfg, st, p')
  {
    forall i | 0 <= i < |p'.overflow|
      ensures TaskOk(cfg, st, p'.overflow[i])
    {
      assert i < |p.overflow| ==> TaskOk(cfg, st, p.overflow[i]);
    }
  }

  lemma OnlyNewTasks(cfg: Config, s: State, step: Step)
    requires Enabled(cfg, s, step)
    requires !step.Start? && !step.Put? && !step.GiveUp? && !step.Index?
    ensures Next(cfg, s, step).store == s.store && Begins(s.proc, Next(cfg, s, step).proc)
  {
    match step
    case Add(e, f) => AddBegins(cfg, s, e, f);
    case _ =>
  }

  lemma AddBegins(cfg: Config, s: State, e: LogEntry, f: WriteFault)
    ensures AddStep(cfg, s, e, f).store == s.store && Begins(s.proc, AddStep(cfg, s, e, f).proc)
  {
  }

  lemma {:induction false} RunKeepsStore(cfg: Config, s: State, steps: seq<Step>, s': State)
    requires ConfigOk(cfg) && FlowInv(cfg, s) && StoreInv(cfg, s) && After(cfg, s, steps) == Some(s')
    ensures StoreInv(cfg, s')
    decreases |steps|
  {
    if steps != [] {
      StepKeepsFlow(cfg, s, steps[0]);
      StepKeepsStore(cfg, s, steps[0]);
      RunKeepsStore(cfg, Next(cfg, s, steps[0]), steps[1..], s');
    }
  }

  /** The bucket of every reachable state holds exactly the stored chunks and the
      index files, each index file for a stored chunk whose key, time bounds, entry
      count, size, service and label sets are those of the chunk's entries. */
  lemma BucketTruth(cfg: Config, s: State)
    requires ConfigOk(cfg) && Reachable(cfg, s)
    ensures StoreOk(cfg, s.store)
  {
    var steps :| IsRun(cfg, steps, s);
    InitFlow(cfg);
    RunKeepsStore(cfg, INIT, steps, s);
  }
}
