/** What "flushed" is worth: over every run, each batch reported flushed is a chunk in the
    bucket under an id of its own, so what Stop flushed is what a scan, a query or an export
    of the bucket can find. */
module Flushed {
  import opened Seqs
  import opened Domain
  import opened Lines
  import opened LabelSets
  import opened Batches
  import opened Pipeline
  import opened Conservation
  import opened IndexTruth
  import opened Query
  import opened Bags
  import opened EndToEnd
  import opened Visibility
  import Exporter
  import ExportScan

  /** One stored chunk per job, in order, with the job's entries and no id twice. */
  ghost predicate Backs(st: Store, ids: seq<string>, jobs: seq<Job>) {
    && NoDup(ids) && |ids| == |jobs|
    && forall i | 0 <= i < |ids| :: Holds(st, ids[i], jobs[i])
  }

  ghost predicate Holds(st: Store, id: string, job: Job) {
    id in st.stored && id in st.begun && st.begun[id].entries == job.entries
  }

  // ---- tasks under way have ids of their own ----

  predicate Busy(p: Proc, slot: Slot) { HasTask(p, slot) && !TaskAt(p, slot).Waiting? }

  function IdAt(p: Proc, slot: Slot): string
    requires Busy(p, slot)
  {
    TaskAt(p, slot).id
  }

  ghost predicate TasksApart(p: Proc, ids: seq<string>) {
    && (forall a | Busy(p, a) :: IdAt(p, a) !in ids)
    && (forall a, b | Busy(p, a) && Busy(p, b) && a != b :: IdAt(p, a) != IdAt(p, b))
  }

  ghost predicate FlushInv(s: State, ids: seq<string>) {
    Backs(s.store, ids, s.flow.flushed) && TasksApart(s.proc, ids)
  }

  lemma SetTaskAt(p: Proc, slot: Slot, t: Task, o: Slot)
    requires HasTask(p, slot)
    ensures HasTask(SetTask(p, slot, t), o) <==> HasTask(p, o)
    ensures HasTask(p, o) ==> TaskAt(SetTask(p, slot, t), o) == if o == slot then t else TaskAt(p, o)
  {
  }

  /** The slot that a slot's task had before another task ended. */
  function Origin(ended: Slot, o: Slot): Slot {
    if ended.Overflow? && o.Overflow? && o.i >= ended.i then Overflow(o.i + 1) else o
  }

  lemma EndTaskAt(p: Proc, slot: Slot, o: Slot)
    requires HasTask(p, slot) && HasTask(EndTask(p, slot), o)
    ensures HasTask(p, Origin(slot, o)) && Origin(slot, o) != slot
    ensures TaskAt(EndTask(p, slot), o) == TaskAt(p, Origin(slot, o))
  {
  }

  /** A task that keeps its id, or starts with one that is new. */
  lemma SetTaskApart(p: Proc, slot: Slot, t: Task, ids: seq<string>)
    requires TasksApart(p, ids) && HasTask(p, slot) && !t.Waiting?
    requires if Busy(p, slot) then t.id == IdAt(p, slot)
             else t.id !in ids && forall o | Busy(p, o) :: IdAt(p, o) != t.id
    ensures TasksApart(SetTask(p, slot, t), ids)
  {
    var p' := SetTask(p, slot, t);
    forall o | Busy(p', o)
      ensures if o == slot then IdAt(p', o) == t.id else Busy(p, o) && IdAt(p', o) == IdAt(p, o)
    {
      SetTaskAt(p, slot, t, o);
    }
  }

  lemma EndTaskApart(p: Proc, slot: Slot, ids: seq<string>)
    requires TasksApart(p, ids) && HasTask(p, slot)
    ensures TasksApart(EndTask(p, slot), ids)
    ensures Busy(p, slot) ==> TasksApart(EndTask(p, slot), ids + [IdAt(p, slot)])
  {
    var p' := EndTask(p, slot);
    forall o | Busy(p', o)
      ensures var b := Origin(slot, o); b != slot && Busy(p, b) && IdAt(p', o) == IdAt(p, b)
    {
      EndTaskAt(p, slot, o);
    }
    forall a, b | Busy(p', a) && Busy(p', b) && a != b
      ensures IdAt(p', a) != IdAt(p', b)
    {
      assert Origin(slot, a) != Origin(slot, b);
    }
  }

  lemma BeginsApart(p: Proc, p': Proc, ids: seq<string>)
    requires TasksApart(p, ids) && Begins(p, p')
    ensures TasksApart(p', ids)
  {
    forall o | Busy(p', o)
      ensures Busy(p, o) && TaskAt(p', o) == TaskAt(p, o)
    {
      BusyBefore(p, p', o);
    }
    forall a, b | Busy(p', a) && Busy(p', b) && a != b
      ensures IdAt(p', a) != IdAt(p', b)
    {
      assert Busy(p, a) && Busy(p, b);
    }
  }

  lemma BusyBefore(p: Proc, p': Proc, o: Slot)
    requires Begins(p, p') && Busy(p', o)
    ensures Busy(p, o) && TaskAt(p', o) == TaskAt(p, o)
  {
  }

  // ---- the invariant over every run ----

  lemma BacksGrow(st: Store, st': Store, ids: seq<string>, jobs: seq<Job>)
    requires Backs(st, ids, jobs) && Grows(st, st')
    ensures Backs(st', ids, jobs)
  {
    forall i | 0 <= i < |ids|
      ensures Holds(st', ids[i], jobs[i])
    {
      assert Holds(st, ids[i], jobs[i]);
    }
  }

  lemma BacksSnoc(st: Store, ids: seq<string>, jobs: seq<Job>, id: string, job: Job)
    requires Backs(st, ids, jobs) && id !in ids && Holds(st, id, job)
    ensures Backs(st, ids + [id], jobs + [job])
  {
    var ids', jobs' := ids + [id], jobs + [job];
    forall i | 0 <= i < |ids'|
      ensures Holds(st, ids'[i], jobs'[i])
    {
      assert i < |ids| ==> Holds(st, ids[i], jobs[i]);
    }
  }

  /** The ids that back the flushed batches after a step. */
  ghost function IdsAfter(s: State, step: Step, ids: seq<string>): seq<string> {
    match step
    case Index(slot, _) => if Busy(s.proc, slot) then ids + [IdAt(s.proc, slot)] else ids
    case Crash(_) => []
    case Restart(_) => []
    case _ => ids
  }

  lemma StartKeepsFlushed(cfg: Config, s: State, slot: Slot, id: string, sets: seq<Labels>, ids: seq<string>)
    requires TasksOk(cfg, s.store, s.proc) && FlushInv(s, ids) && Enabled(cfg, s, Start(slot, id, sets))
    ensures FlushInv(StartStep(cfg, s, slot, id, sets), ids)
  {
    var job := TaskAt(s.proc, slot).job;
    if Encodable(cfg.codec, job.entries) {
      var chunk := ChunkOf(cfg, job, id, sets);
      var st' := s.store.(begun := s.store.begun[id := StoredChunk(chunk, job.entries)]);
      BacksGrow(s.store, st', ids, s.flow.flushed);
      NewIdApart(cfg, s.store, s.proc, ids, s.flow.flushed, id);
      SetTaskApart(s.proc, slot, Putting(job, id, chunk, ChunkData(cfg, job.entries), 0), ids);
    } else {
      EndTaskApart(s.proc, slot, ids);
    }
  }

  lemma NewIdApart(cfg: Config, st: Store, p: Proc, ids: seq<string>, jobs: seq<Job>, id: string)
    requires TasksOk(cfg, st, p) && Backs(st, ids, jobs) && id !in st.begun
    ensures id !in ids && forall o | Busy(p, o) :: IdAt(p, o) != id
  {
    forall o | Busy(p, o)
      ensures IdAt(p, o) != id
    {
      TaskOkAt(cfg, st, p, o);
    }
    assert forall i | 0 <= i < |ids| :: Holds(st, ids[i], jobs[i]) ==> ids[i] != id;
  }

  lemma PutKeepsFlushed(cfg: Config, s: State, slot: Slot, landed: bool, ok: bool, ids: seq<string>)
    requires FlushInv(s, ids) && HasTask(s.proc, slot) && TaskAt(s.proc, slot).Putting?
    ensures FlushInv(PutStep(cfg, s, slot, landed, ok), ids)
  {
    var t := TaskAt(s.proc, slot);
    PutParts(cfg, s, slot, landed, ok);
    BacksGrow(s.store, AfterPut(cfg, s.store, t, landed), ids, s.flow.flushed);
    AttemptApart(s.proc, slot, t, ok, ids);
  }

  lemma AttemptApart(p: Proc, slot: Slot, t: Task, ok: bool, ids: seq<string>)
    requires TasksApart(p, ids) && HasTask(p, slot) && t == TaskAt(p, slot) && t.Putting?
    ensures TasksApart(AfterAttempt(p, slot, t, ok), ids)
  {
    if ok {
      SetTaskApart(p, slot, Indexing(t.job, t.id, t.chunk), ids);
    } else if t.attempts + 1 < MAX_ATTEMPTS {
      SetTaskApart(p, slot, t.(attempts := t.attempts + 1), ids);
    } else {
      EndTaskApart(p, slot, ids);
    }
  }

  /** The step that reports a flush: its chunk is in the bucket. */
  lemma IndexKeepsFlushed(cfg: Config, s: State, slot: Slot, landed: bool, ids: seq<string>)
    requires TasksOk(cfg, s.store, s.proc) && FlushInv(s, ids)
    requires HasTask(s.proc, slot) && TaskAt(s.proc, slot).Indexing?
    ensures FlushInv(IndexStep(cfg, s, slot, landed), ids + [IdAt(s.proc, slot)])
  {
    var t, st' := TaskAt(s.proc, slot), IndexStep(cfg, s, slot, landed).store;
    TaskOkAt(cfg, s.store, s.proc, slot);
    assert Busy(s.proc, slot) && IdAt(s.proc, slot) == t.id;
    BacksGrow(s.store, st', ids, s.flow.flushed);
    BacksSnoc(st', ids, s.flow.flushed, t.id, t.job);
    EndTaskApart(s.proc, slot, ids);
  }

  lemma OtherKeepsFlushed(cfg: Config, s: State, step: Step, ids: seq<string>)
    requires FlushInv(s, ids) && Enabled(cfg, s, step)
    requires !step.Start? && !step.Put? && !step.GiveUp? && !step.Index?
    ensures FlushInv(Next(cfg, s, step), IdsAfter(s, step, ids))
  {
    OnlyNewTasks(cfg, s, step);
    FlushedStays(cfg, s, step);
    BeginsApart(s.proc, Next(cfg, s, step).proc, ids);
  }

  lemma FlushedStays(cfg: Config, s: State, step: Step)
    requires Enabled(cfg, s, step) && !step.Start? && !step.Put? && !step.GiveUp? && !step.Index?
    ensures Next(cfg, s, step).flow.flushed == if step.Crash? || step.Restart? then [] else s.flow.flushed
  {
  }

  lemma StepKeepsFlushed(cfg: Config, s: State, step: Step, ids: seq<string>)
    requires TasksOk(cfg, s.store, s.proc) && FlushInv(s, ids) && Enabled(cfg, s, step)
    ensures FlushInv(Next(cfg, s, step), IdsAfter(s, step, ids))
  {
    match step
    case Start(slot, id, sets) => StartKeepsFlushed(cfg, s, slot, id, sets, ids);
    case Put(slot, landed, ok) => PutKeepsFlushed(cfg, s, slot, landed, ok, ids);
    case GiveUp(slot) => EndTaskApart(s.proc, slot, ids);
    case Index(slot, landed) => IndexKeepsFlushed(cfg, s, slot, landed, ids);
    case _ => OtherKeepsFlushed(cfg, s, step, ids);
  }

  lemma {:induction false} RunKeepsFlushed(cfg: Config, s: State, steps: seq<Step>, s': State, ids: seq<string>)
    returns (ids': seq<string>)
    requires ConfigOk(cfg) && FlowInv(cfg, s) && StoreInv(cfg, s) && FlushInv(s, ids)
    requires After(cfg, s, steps) == Some(s')
    ensures FlushInv(s', ids')
    decreases |steps|
  {
    ids' := ids;
    if steps != [] {
      StepKeepsFlow(cfg, s, steps[0]);
      StepKeepsStore(cfg, s, steps[0]);
      StepKeepsFlushed(cfg, s, steps[0], ids);
      ids' := RunKeepsFlushed(cfg, Next(cfg, s, steps[0]), steps[1..], s', IdsAfter(s, steps[0], ids));
    }
  }

  /** In every reachable state each batch this process reports flushed is a chunk in the
      bucket that holds exactly the batch's entries, and no chunk serves two batches. */
  lemma FlushedAreStored(cfg: Config, s: State) returns (ids: seq<string>)
    requires ConfigOk(cfg) && Reachable(cfg, s)
    ensures Backs(s.store, ids, s.flow.flushed)
  {
    var steps :| IsRun(cfg, steps, s);
    InitFlow(cfg);
    ids := RunKeepsFlushed(cfg, INIT, steps, s, []);
  }

  // ---- what a scan of the bucket finds of it ----

  lemma {:induction false} BackedBag(st: Store, ids: seq<string>, jobs: seq<Job>)
    requires |ids| == |jobs| && forall i | 0 <= i < |ids| :: Holds(st, ids[i], jobs[i])
    ensures Bag(ids, EntriesIn(st)) == multiset(EntriesOfJobs(jobs))
  {
    if ids != [] {
      assert Holds(st, ids[0], jobs[0]);
      forall i | 0 <= i < |ids[1..]|
        ensures Holds(st, ids[1..][i], jobs[1..][i])
      {
        assert Holds(st, ids[i + 1], jobs[i + 1]);
      }
      BackedBag(st, ids[1..], jobs[1..]);
    }
  }

  lemma BacksStored(st: Store, ids: seq<string>, jobs: seq<Job>, all: seq<string>)
    requires Backs(st, ids, jobs) && Enumerates(all, st.stored)
    ensures forall id | id in ids :: id in all && id in st.begun
  {
    forall id | id in ids
      ensures id in all && id in st.begun
    {
      var i :| 0 <= i < |ids| && ids[i] == id;
      assert Holds(st, ids[i], jobs[i]);
    }
  }

  /** Everything flushed is in the bucket: a scan of all stored chunks, which also finds
      what earlier processes stored, has every entry of every flushed batch, as often. */
  lemma FlushedInScan(cfg: Config, s: State, all: seq<string>)
    requires ConfigOk(cfg) && Reachable(cfg, s) && Enumerates(all, s.store.stored)
    ensures multiset(EntriesOfJobs(s.flow.flushed)) <= Bag(all, EntriesIn(s.store))
  {
    var ids := FlushedAreStored(cfg, s);
    BackedBag(s.store, ids, s.flow.flushed);
    BacksStored(s.store, ids, s.flow.flushed, all);
    BagSubset(ids, all, EntriesIn(s.store));
  }

  /** Shutdown, down to the stored data: when Stop has returned, no batch failed and no
      overflow goroutine is left, every entry recovered or accepted is in the bucket. */
  lemma StoppedIsStored(cfg: Config, s: State, all: seq<string>)
    requires ConfigOk(cfg) && Reachable(cfg, s) && s.proc.phase == Stopped
    requires s.flow.failed == [] && s.proc.overflow == [] && Enumerates(all, s.store.stored)
    ensures multiset(s.flow.recovered + s.flow.accepted) <= Bag(all, EntriesIn(s.store))
  {
    StopFlushesAll(cfg, s);
    FlushedInScan(cfg, s, all);
  }

  // ---- what a query and an export find of it ----

  lemma {:induction false} MatchingConcat(req: Request, a: seq<LogEntry>, b: seq<LogEntry>)
    ensures Matching(req, a + b) == Matching(req, a) + Matching(req, b)
  {
    if a == [] {
      assert a + b == b;
    } else {
      assert (a + b)[0] == a[0] && (a + b)[1..] == a[1..] + b;
      MatchingConcat(req, a[1..], b);
      Assoc(if EntryMatches(req, a[0]) then [a[0]] else [], Matching(req, a[1..]), Matching(req, b));
    }
  }

  lemma MatchingPermute(req: Request, a: seq<LogEntry>, b: seq<LogEntry>)
    requires multiset(a) == multiset(b)
    ensures multiset(Matching(req, a)) == multiset(Matching(req, b))
  {
    forall e: LogEntry
      ensures multiset(Matching(req, a))[e] == multiset(Matching(req, b))[e]
    {
      FoundExactly(req, a, e);
      FoundExactly(req, b, e);
    }
  }

  lemma {:induction false} BackedMatches(st: Store, ids: seq<string>, jobs: seq<Job>, req: Request)
    requires |ids| == |jobs| && forall i | 0 <= i < |ids| :: Holds(st, ids[i], jobs[i])
    ensures Bag(ids, Scans(st, req)) == multiset(Matching(req, EntriesOfJobs(jobs)))
  {
    if ids != [] {
      assert Holds(st, ids[0], jobs[0]);
      forall i | 0 <= i < |ids[1..]|
        ensures Holds(st, ids[1..][i], jobs[1..][i])
      {
        assert Holds(st, ids[i + 1], jobs[i + 1]);
      }
      BackedMatches(st, ids[1..], jobs[1..], req);
      MatchingConcat(req, jobs[0].entries, EntriesOfJobs(jobs[1..]));
    }
  }

  /** Whatever collects the flushed chunks' matches whole collects every matching entry
      the process held. */
  lemma CollectsAccepted(cfg: Config, s: State, req: Request, ids: seq<string>, all: seq<string>,
                         f: string -> seq<LogEntry>)
    requires ConfigOk(cfg) && Reachable(cfg, s) && s.proc.phase == Stopped
    requires s.flow.failed == [] && s.proc.overflow == [] && Backs(s.store, ids, s.flow.flushed)
    requires NoDup(all) && forall id | id in ids :: id in all && f(id) == Scans(s.store, req)(id)
    ensures multiset(Matching(req, s.flow.recovered + s.flow.accepted)) <= Bag(all, f)
  {
    StopFlushesAll(cfg, s);
    MatchingPermute(req, s.flow.recovered + s.flow.accepted, EntriesOfJobs(s.flow.flushed));
    BackedMatches(s.store, ids, s.flow.flushed, req);
    DropsNothing(ids, f, Scans(s.store, req));
    BagSubset(ids, all, f);
  }

  /** From Add to a query: after a Stop without failed batches and leftover overflow
      goroutines, when the index writes of the flushed batches landed and the chunks that
      hold a match are visible, the unlimited query finds every matching entry that was
      recovered or accepted, as often as it was. */
  lemma AcceptedAreFound(cfg: Config, s: State, s3: Reads, req: Request, ids: seq<string>, indexed: seq<string>)
    requires ConfigOk(cfg) && CodecOk(cfg.codec) && Reachable(cfg, s) && s.proc.phase == Stopped
    requires s.flow.failed == [] && s.proc.overflow == [] && Backs(s.store, ids, s.flow.flushed)
    requires Snapshot(s.store, s3) && Enumerates(indexed, s.store.indexed)
    requires forall id | id in ids :: id in s.store.indexed && id in s.store.begun
                                      && (Scans(s.store, req)(id) != [] ==> Visible(cfg, req, s.store.begun[id]))
    ensures multiset(Matching(req, s.flow.recovered + s.flow.accepted)) <= multiset(FullResult(cfg, s3, req))
  {
    BucketTruth(cfg, s);
    ResultIsFinds(cfg, s.store, s3, req, indexed);
    forall id | id in ids
      ensures id in indexed && Finds(cfg, s.store, req)(id) == Scans(s.store, req)(id)
    {
      FindsIffVisible(cfg, s.store, req, id);
    }
    CollectsAccepted(cfg, s, req, ids, indexed, Finds(cfg, s.store, req));
  }

  /** The same from hypotheses a deployment can check, for the answer the query returns
      when its limit is at least the number of matching entries in the index. */
  lemma AcceptedAreReturned(cfg: Config, s: State, s3: Reads, req: Request, ids: seq<string>, indexed: seq<string>)
    requires ConfigOk(cfg) && CodecOk(cfg.codec) && Reachable(cfg, s) && s.proc.phase == Stopped
    requires s.flow.failed == [] && s.proc.overflow == [] && Backs(s.store, ids, s.flow.flushed)
    requires Snapshot(s.store, s3) && Enumerates(indexed, s.store.indexed) && SafeQuery(req.labels)
    requires forall id | id in ids :: id in s.store.indexed
    requires forall id | id in indexed && id in s.store.begun :: WellFiled(cfg, req, s.store.begun[id])
    requires |Bag(indexed, Scans(s.store, req))| <= LimitOf(req)
    ensures multiset(Matching(req, s.flow.recovered + s.flow.accepted))
         <= multiset(Take(FullResult(cfg, s3, req), LimitOf(req)))
  {
    IndexedQueryExact(cfg, s, s3, req, indexed);
    forall id | id in ids
      ensures id in indexed
    {
    }
    CollectsAccepted(cfg, s, req, ids, indexed, Scans(s.store, req));
  }

  /** From Add to an export: no index is needed, only that the job reaches the chunks. */
  lemma AcceptedAreExported(cfg: Config, s: State, s3: Reads, req: Request, n: int, ids: seq<string>, all: seq<string>)
    requires ConfigOk(cfg) && ExportScan.ExportCodecOk(cfg.codec) && Reachable(cfg, s) && s.proc.phase == Stopped
    requires s.flow.failed == [] && s.proc.overflow == [] && Backs(s.store, ids, s.flow.flushed)
    requires Snapshot(s.store, s3) && Enumerates(all, s.store.stored) && n > 0
    requires forall id | id in ids && id in s.store.begun && Scans(s.store, req)(id) != [] ::
               ExportScan.Reached(cfg, req, s.store.begun[id])
    ensures var keys := Exporter.JobKeys(EnvOf(cfg), s3, req);
            var sent := Exporter.Chop(Exporter.Selected(EnvOf(cfg), s3, req, keys), n);
            multiset(Matching(req, s.flow.recovered + s.flow.accepted)) <= multiset(Flatten(sent))
  {
    BucketTruth(cfg, s);
    ExportScan.SelectedIsExports(cfg, s.store, s3, req, all);
    Exporter.ChopShape(Exporter.Selected(EnvOf(cfg), s3, req, Exporter.JobKeys(EnvOf(cfg), s3, req)), n);
    BacksStored(s.store, ids, s.flow.flushed, all);
    forall id | id in ids
      ensures id in all && ExportScan.Exports(cfg, s.store, req)(id) == Scans(s.store, req)(id)
    {
      ExportScan.ExportsIffReached(cfg, s.store, req, id);
    }
    CollectsAccepted(cfg, s, req, ids, all, ExportScan.Exports(cfg, s.store, req));
  }
}
