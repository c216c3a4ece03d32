/** No entry is lost or duplicated inside a process: the flow invariants of the
    pipeline over every run, and what Stop leaves behind. */
module Conservation {
  import opened Seqs
  import opened Bags
  import opened Domain
  import opened Lines
  import opened Wal
  import opened Batches
  import opened Pipeline

  // ---- jobs and their entries ----

  function TaskJobs(ts: seq<Task>): seq<Job> {
    seq(|ts|, i requires 0 <= i < |ts| => ts[i].job)
  }

  function LoopJobs(p: Proc): seq<Job> {
    match p.loop
    case None => []
    case Some(t) => [t.job]
  }

  /** Every job that left the batch: queued, in flight, flushed or failed. */
  function JobsAnywhere(p: Proc, f: Flow): seq<Job> {
    p.queue + LoopJobs(p) + TaskJobs(p.overflow) + f.flushed + f.failed
  }

  function EntriesOfJobs(js: seq<Job>): seq<LogEntry> {
    if js == [] then [] else js[0].entries + EntriesOfJobs(js[1..])
  }

  lemma {:induction false} EntriesConcat(a: seq<Job>, b: seq<Job>)
    ensures EntriesOfJobs(a + b) == EntriesOfJobs(a) + EntriesOfJobs(b)
  {
    if a == [] {
      assert a + b == b;
    } else {
      assert (a + b)[1..] == a[1..] + b;
      EntriesConcat(a[1..], b);
    }
  }

  lemma BagSnoc<T>(a: seq<T>, x: T)
    ensures multiset(a + [x]) == multiset(a) + multiset{x}
  {
  }

  lemma CutOut<T>(s: seq<T>, i: nat)
    requires i < |s|
    ensures multiset(s) == multiset(s[..i] + s[i + 1..]) + multiset{s[i]}
  {
    assert s == s[..i] + [s[i]] + s[i + 1..];
  }

  lemma EntriesCutOut(js: seq<Job>, i: nat)
    requires i < |js|
    ensures multiset(EntriesOfJobs(js)) == multiset(EntriesOfJobs(js[..i] + js[i + 1..])) + multiset(js[i].entries)
  {
    var front, back := js[..i], js[i + 1..];
    assert js == front + js[i..] && js[i..][1..] == back;
    EntriesConcat(front, js[i..]);
    EntriesConcat(front, back);
    assert EntriesOfJobs(js[i..]) == js[i].entries + EntriesOfJobs(back);
  }

  lemma SameFirst<T>(a: seq<T>, b: seq<T>) returns (i: nat)
    requires multiset(a) == multiset(b) && a != []
    ensures i < |b| && b[i] == a[0] && multiset(a[1..]) == multiset(b[..i] + b[i + 1..])
  {
    assert a[0] in multiset(b);
    i :| 0 <= i < |b| && b[i] == a[0];
    CutOut(a, 0);
    CutOut(b, i);
    assert a[..0] + a[1..] == a[1..];
    var x, resta, restb := multiset{a[0]}, multiset(a[1..]), multiset(b[..i] + b[i + 1..]);
    assert x + resta == resta + x && x + restb == restb + x;
    Cancel(x, resta, restb);
  }

  /** The entries of a collection of jobs do not depend on their order. */
  lemma {:induction false} EntriesPermute(a: seq<Job>, b: seq<Job>)
    requires multiset(a) == multiset(b)
    ensures multiset(EntriesOfJobs(a)) == multiset(EntriesOfJobs(b))
  {
    if a == [] {
      assert |multiset(b)| == 0;
      assert b == [];
    } else {
      var i := SameFirst(a, b);
      EntriesPermute(a[1..], b[..i] + b[i + 1..]);
      EntriesCutOut(b, i);
      assert multiset(EntriesOfJobs(a)) == multiset(a[0].entries) + multiset(EntriesOfJobs(a[1..]));
    }
  }

  /** Where the jobs are, as multisets. */
  datatype Places = Places(queue: multiset<Job>, loop: multiset<Job>, overflow: multiset<Job>,
                           flushed: multiset<Job>, failed: multiset<Job>)

  function Total(w: Places): multiset<Job> {
    w.queue + w.loop + w.overflow + w.flushed + w.failed
  }

  function PlacesOf(p: Proc, f: Flow): Places {
    Places(multiset(p.queue), multiset(LoopJobs(p)), multiset(TaskJobs(p.overflow)), multiset(f.flushed),
           multiset(f.failed))
  }

  lemma TotalAnywhere(p: Proc, f: Flow)
    ensures multiset(JobsAnywhere(p, f)) == Total(PlacesOf(p, f))
  {
  }

  lemma TotalGrows(w: Places, j: Job)
    ensures Total(w.(queue := w.queue + multiset{j})) == Total(w) + multiset{j}
    ensures Total(w.(loop := w.loop + multiset{j})) == Total(w) + multiset{j}
    ensures Total(w.(overflow := w.overflow + multiset{j})) == Total(w) + multiset{j}
    ensures Total(w.(flushed := w.flushed + multiset{j})) == Total(w) + multiset{j}
    ensures Total(w.(failed := w.failed + multiset{j})) == Total(w) + multiset{j}
  {
  }

  // ---- the invariant ----

  ghost predicate BatchInv(cfg: Config, s: State) {
    && BatchOk(s.proc.batch, cfg.maxBytes, s.flow.replayed)
    && (forall j | j in s.flow.dispatched :: JobOk(j))
    && (s.proc.phase != Running ==> s.proc.batch.entries == [])
  }

  /** Entries in order: what was dispatched, then the batch, is what came in. */
  ghost predicate OrderInv(s: State) {
    EntriesOfJobs(s.flow.dispatched) + s.proc.batch.entries == s.flow.recovered + s.flow.accepted
  }

  /** Every dispatched job is in exactly one place; the queue is first in, first out. */
  ghost predicate JobInv(s: State) {
    && multiset(s.flow.dispatched) == Total(PlacesOf(s.proc, s.flow))
    && s.flow.enqueued == s.flow.dequeued + s.proc.queue
    && |s.proc.queue| <= QUEUE_CAPACITY
    && (s.proc.phase == Stopped ==> s.proc.queue == [] && s.proc.loop == None)
  }

  ghost predicate FlowInv(cfg: Config, s: State) {
    BatchInv(cfg, s) && OrderInv(s) && JobInv(s)
  }

  // ---- preservation ----

  lemma DispatchKeeps(cfg: Config, s: State)
    requires ConfigOk(cfg) && FlowInv(cfg, s) && s.proc.batch.entries != [] && s.proc.phase == Running
    ensures FlowInv(cfg, Dispatch(s))
  {
    var s' := Dispatch(s);
    assert JobOk(JobOf(s.proc.batch));
    assert s'.proc.batch.entries == [] && SizeSum([]) == 0;
    DispatchOrder(s);
    DispatchJobs(s);
    assert BatchInv(cfg, s');
  }

  lemma DispatchOrder(s: State)
    requires OrderInv(s)
    ensures OrderInv(Dispatch(s))
  {
    var job := JobOf(s.proc.batch);
    EntriesConcat(s.flow.dispatched, [job]);
    assert EntriesOfJobs([job]) == job.entries;
    assert EntriesOfJobs(s.flow.dispatched + [job]) + [] == EntriesOfJobs(s.flow.dispatched) + job.entries;
  }

  lemma DispatchJobs(s: State)
    requires JobInv(s) && s.proc.phase == Running
    ensures JobInv(Dispatch(s))
  {
    var job, w, p := JobOf(s.proc.batch), PlacesOf(s.proc, s.flow), s.proc;
    var w' := PlacesOf(Dispatch(s).proc, Dispatch(s).flow);
    BagSnoc(s.flow.dispatched, job);
    TotalGrows(w, job);
    if |p.queue| < QUEUE_CAPACITY {
      BagSnoc(p.queue, job);
      assert w' == w.(queue := w.queue + multiset{job});
    } else {
      assert TaskJobs(p.overflow + [Waiting(job)]) == TaskJobs(p.overflow) + [job];
      BagSnoc(TaskJobs(p.overflow), job);
      assert w' == w.(overflow := w.overflow + multiset{job});
    }
  }

  lemma AddKeeps(cfg: Config, s: State, e: LogEntry, f: WriteFault)
    requires ConfigOk(cfg) && FlowInv(cfg, s) && s.proc.phase == Running
    ensures FlowInv(cfg, AddStep(cfg, s, e, f))
  {
    if Accepts(cfg.minLevel, e) {
      var s1 := if Overflows(cfg, s.proc, e) then Dispatch(s) else s;
      if Overflows(cfg, s.proc, e) {
        DispatchKeeps(cfg, s);
      }
      AddEntryKeeps(cfg, s1, e, AddStep(cfg, s, e, f));
    }
  }

  /** When Add dispatches, and where to: the batch goes when it holds something and the
      accepted entry would take it past the limit; it goes to the queue while fewer than four
      batches wait, and to a goroutine of its own otherwise. */
  lemma AddDispatches(cfg: Config, s: State, e: LogEntry, f: WriteFault)
    requires BatchOk(s.proc.batch, cfg.maxBytes, s.flow.replayed)
    ensures var s', b := AddStep(cfg, s, e, f), s.proc.batch;
      var full := Accepts(cfg.minLevel, e) && b.entries != []
                  && SizeSum(b.entries[s.flow.replayed..]) + SizeOf(e) > cfg.maxBytes;
      && s'.flow.dispatched == s.flow.dispatched + (if full then [JobOf(b)] else [])
      && s'.proc.queue == s.proc.queue + (if full && |s.proc.queue| < 4 then [JobOf(b)] else [])
      && s'.proc.overflow == s.proc.overflow + (if full && |s.proc.queue| >= 4 then [Waiting(JobOf(b))] else [])
  {
  }

  lemma AddEntryKeeps(cfg: Config, s: State, e: LogEntry, s': State)
    requires FlowInv(cfg, s) && s.proc.phase == Running && !Overflows(cfg, s.proc, e)
    requires s'.proc == AddEntry(s.proc, e) && s'.flow == s.flow.(accepted := s.flow.accepted + [e])
    ensures FlowInv(cfg, s')
  {
    AddKeepsBatchOk(s.proc.batch, e, cfg.maxBytes, s.flow.replayed);
    AddDescribes(s.proc.batch, e);
    assert s'.proc.batch.entries == s.proc.batch.entries + [e];
    assert PlacesOf(s'.proc, s'.flow) == PlacesOf(s.proc, s.flow);
    Assoc(EntriesOfJobs(s.flow.dispatched), s.proc.batch.entries, [e]);
    Assoc(s.flow.recovered, s.flow.accepted, [e]);
  }

  lemma DequeueKeeps(cfg: Config, s: State)
    requires FlowInv(cfg, s) && s.proc.queue != [] && s.proc.loop == None && s.proc.phase != Stopped
    ensures FlowInv(cfg, DequeueStep(s))
  {
    var q := s.proc.queue;
    DequeuePlaces(s);
    MoveOne(s.flow.dequeued, q);
  }

  lemma DequeuePlaces(s: State)
    requires s.proc.queue != [] && s.proc.loop == None
    ensures Total(PlacesOf(DequeueStep(s).proc, DequeueStep(s).flow)) == Total(PlacesOf(s.proc, s.flow))
  {
    var q, w := s.proc.queue, PlacesOf(s.proc, s.flow);
    var w0 := w.(queue := multiset(q[1..]));
    CutOut(q, 0);
    assert q[..0] + q[1..] == q[1..];
    TotalGrows(w0, q[0]);
    assert w == w0.(queue := w0.queue + multiset{q[0]});
    assert LoopJobs(s.proc) == [] && LoopJobs(DequeueStep(s).proc) == [q[0]];
    assert w0.loop + multiset{q[0]} == multiset([q[0]]);
    assert PlacesOf(DequeueStep(s).proc, DequeueStep(s).flow) == w0.(loop := multiset([q[0]]));
  }

  /** Places without the job of a task that ends. */
  lemma EndTaskPlaces(p: Proc, f: Flow, slot: Slot)
    requires HasTask(p, slot)
    ensures Total(PlacesOf(p, f)) == Total(PlacesOf(EndTask(p, slot), f)) + multiset{TaskAt(p, slot).job}
  {
    var w := PlacesOf(EndTask(p, slot), f);
    TotalGrows(w, TaskAt(p, slot).job);
    match slot
    case Loop => LoopEnds(p, f);
    case Overflow(i) => OverflowEnds(p, f, i);
  }

  lemma LoopEnds(p: Proc, f: Flow)
    requires p.loop.Some?
    ensures var w := PlacesOf(EndTask(p, Loop), f);
            PlacesOf(p, f) == w.(loop := w.loop + multiset{p.loop.value.job})
  {
  }

  lemma OverflowEnds(p: Proc, f: Flow, i: nat)
    requires i < |p.overflow|
    ensures var w := PlacesOf(EndTask(p, Overflow(i)), f);
            PlacesOf(p, f) == w.(overflow := w.overflow + multiset{p.overflow[i].job})
  {
    var js := TaskJobs(p.overflow);
    CutOut(js, i);
    assert TaskJobs(p.overflow[..i] + p.overflow[i + 1..]) == js[..i] + js[i + 1..];
  }

  lemma SetTaskJobs(p: Proc, slot: Slot, t: Task)
    requires HasTask(p, slot) && t.job == TaskAt(p, slot).job
    ensures var p' := SetTask(p, slot, t);
            LoopJobs(p') == LoopJobs(p) && TaskJobs(p'.overflow) == TaskJobs(p.overflow)
  {
  }

  /** A step of a flush task that keeps its job changes nothing in the flow. */
  lemma SetTaskKeeps(cfg: Config, s: State, slot: Slot, t: Task, s': State)
    requires FlowInv(cfg, s) && HasTask(s.proc, slot) && t.job == TaskAt(s.proc, slot).job
    requires s'.proc == SetTask(s.proc, slot, t) && s'.flow == s.flow
    ensures FlowInv(cfg, s')
  {
    SetTaskJobs(s.proc, slot, t);
  }

  /** A flush that ends moves its job to the flushed or the failed ones. */
  lemma EndTaskKeeps(cfg: Config, s: State, slot: Slot, s': State)
    requires FlowInv(cfg, s) && HasTask(s.proc, slot)
    requires s'.proc == EndTask(s.proc, slot)
    requires var j := TaskAt(s.proc, slot).job;
             s'.flow == s.flow.(failed := s.flow.failed + [j]) || s'.flow == s.flow.(flushed := s.flow.flushed + [j])
    ensures FlowInv(cfg, s')
  {
    EndTaskPlaces(s.proc, s.flow, slot);
    var j, w := TaskAt(s.proc, slot).job, PlacesOf(s'.proc, s.flow);
    TotalGrows(w, j);
    BagSnoc(s.flow.failed, j);
    BagSnoc(s.flow.flushed, j);
    assert PlacesOf(s'.proc, s'.flow) == w.(failed := w.failed + multiset{j})
        || PlacesOf(s'.proc, s'.flow) == w.(flushed := w.flushed + multiset{j});
  }

  lemma RestartKeeps(cfg: Config, s: State, readable: bool)
    requires ConfigOk(cfg)
    ensures FlowInv(cfg, RestartStep(cfg, s, readable))
  {
    var s' := RestartStep(cfg, s, readable);
    ReplayKeepsBatchOk(s'.flow.recovered, cfg.maxBytes);
    assert s'.flow.recovered + s'.flow.accepted == s'.flow.recovered;
  }

  lemma StepKeepsFlow(cfg: Config, s: State, step: Step)
    requires ConfigOk(cfg) && FlowInv(cfg, s) && Enabled(cfg, s, step)
    ensures FlowInv(cfg, Next(cfg, s, step))
  {
    match step
    case Add(e, f) => AddKeeps(cfg, s, e, f);
    case Tick => if s.proc.batch.entries != [] { DispatchKeeps(cfg, s); }
    case Dequeue => DequeueKeeps(cfg, s);
    case Start(slot, id, sets) => StartKeeps(cfg, s, slot, id, sets);
    case Put(slot, landed, ok) => PutKeeps(cfg, s, slot, landed, ok);
    case GiveUp(slot) => EndTaskKeeps(cfg, s, slot, Next(cfg, s, step));
    case Index(slot, landed) => EndTaskKeeps(cfg, s, slot, Next(cfg, s, step));
    case StopDispatch => StopDispatchKeeps(cfg, s);
    case StopReset(f) => StopResetKeeps(cfg, s, f);
    case Crash(during) => CrashKeeps(cfg, s, during);
    case Restart(readable) => RestartKeeps(cfg, s, readable);
  }

  lemma StartKeeps(cfg: Config, s: State, slot: Slot, id: string, sets: seq<Labels>)
    requires FlowInv(cfg, s) && HasTask(s.proc, slot)
    ensures FlowInv(cfg, StartStep(cfg, s, slot, id, sets))
  {
    var job, s' := TaskAt(s.proc, slot).job, StartStep(cfg, s, slot, id, sets);
    if Encodable(cfg.codec, job.entries) {
      SetTaskKeeps(cfg, s, slot, Putting(job, id, ChunkOf(cfg, job, id, sets), ChunkData(cfg, job.entries), 0), s');
    } else {
      EndTaskKeeps(cfg, s, slot, s');
    }
  }

  lemma StopDispatchKeeps(cfg: Config, s: State)
    requires ConfigOk(cfg) && FlowInv(cfg, s) && s.proc.phase == Running
    ensures FlowInv(cfg, StopDispatchStep(s))
  {
    if s.proc.batch.entries != [] { DispatchKeeps(cfg, s); }
    DrainingKeeps(cfg, DispatchIfAny(s));
  }

  lemma DrainingKeeps(cfg: Config, s: State)
    requires FlowInv(cfg, s) && s.proc.batch.entries == []
    ensures FlowInv(cfg, s.(proc := s.proc.(phase := Draining)))
  {
  }

  lemma StopResetKeeps(cfg: Config, s: State, f: ResetFault)
    requires FlowInv(cfg, s) && s.proc.phase == Draining && s.proc.queue == [] && s.proc.loop == None
    ensures FlowInv(cfg, StopResetStep(cfg, s, f))
  {
  }

  lemma CrashKeeps(cfg: Config, s: State, during: Option<(LogEntry, WriteFault)>)
    requires ConfigOk(cfg) && FlowInv(cfg, s)
    ensures FlowInv(cfg, CrashStep(cfg, s, during))
  {
    assert SizeSum([]) == 0;
  }

  function AfterPut(cfg: Config, st: Store, t: Task, landed: bool): Store
    requires t.Putting?
  {
    if landed then PutChunk(cfg, st, t) else st
  }

  function AfterAttempt(p: Proc, slot: Slot, t: Task, ok: bool): Proc
    requires HasTask(p, slot) && t.Putting?
  {
    if ok then SetTask(p, slot, Indexing(t.job, t.id, t.chunk))
    else if t.attempts + 1 < MAX_ATTEMPTS then SetTask(p, slot, t.(attempts := t.attempts + 1))
    else EndTask(p, slot)
  }

  lemma PutParts(cfg: Config, s: State, slot: Slot, landed: bool, ok: bool)
    requires HasTask(s.proc, slot) && TaskAt(s.proc, slot).Putting?
    ensures PutStep(cfg, s, slot, landed, ok).store == AfterPut(cfg, s.store, TaskAt(s.proc, slot), landed)
    ensures PutStep(cfg, s, slot, landed, ok).proc == AfterAttempt(s.proc, slot, TaskAt(s.proc, slot), ok)
    ensures PutStep(cfg, s, slot, landed, ok).flow
         == if ok || TaskAt(s.proc, slot).attempts + 1 < MAX_ATTEMPTS then s.flow
            else s.flow.(failed := s.flow.failed + [TaskAt(s.proc, slot).job])
  {
  }

  lemma PutKeeps(cfg: Config, s: State, slot: Slot, landed: bool, ok: bool)
    requires FlowInv(cfg, s) && HasTask(s.proc, slot) && TaskAt(s.proc, slot).Putting?
    ensures FlowInv(cfg, PutStep(cfg, s, slot, landed, ok))
  {
    PutParts(cfg, s, slot, landed, ok);
    AttemptKeeps(cfg, s, slot, TaskAt(s.proc, slot), ok, PutStep(cfg, s, slot, landed, ok));
  }

  lemma AttemptKeeps(cfg: Config, s: State, slot: Slot, t: Task, ok: bool, s': State)
    requires FlowInv(cfg, s) && HasTask(s.proc, slot) && t == TaskAt(s.proc, slot) && t.Putting?
    requires s'.proc == AfterAttempt(s.proc, slot, t, ok)
    requires s'.flow == if ok || t.attempts + 1 < MAX_ATTEMPTS then s.flow
                        else s.flow.(failed := s.flow.failed + [t.job])
    ensures FlowInv(cfg, s')
  {
    if ok {
      SetTaskKeeps(cfg, s, slot, Indexing(t.job, t.id, t.chunk), s');
    } else if t.attempts + 1 < MAX_ATTEMPTS {
      SetTaskKeeps(cfg, s, slot, t.(attempts := t.attempts + 1), s');
    } else {
      EndTaskKeeps(cfg, s, slot, s');
    }
  }

  lemma InitFlow(cfg: Config)
    requires ConfigOk(cfg)
    ensures FlowInv(cfg, INIT)
  {
    assert SizeSum([]) == 0;
  }

  lemma {:induction false} RunKeepsFlow(cfg: Config, s: State, steps: seq<Step>, s': State)
    requires ConfigOk(cfg) && FlowInv(cfg, s) && After(cfg, s, steps) == Some(s')
    ensures FlowInv(cfg, s')
    decreases |steps|
  {
    if steps != [] {
      StepKeepsFlow(cfg, s, steps[0]);
      RunKeepsFlow(cfg, Next(cfg, s, steps[0]), steps[1..], s');
    }
  }

  // ---- the theorems ----

  /** Conservation, in every reachable state: the entries recovered and accepted are
      those in the batch, the queue, in flight, flushed and failed, each once; read in
      dispatch order they are in arrival order; and the loop takes jobs in queue order. */
  lemma Conserved(cfg: Config, s: State)
    requires ConfigOk(cfg) && Reachable(cfg, s)
    ensures multiset(s.flow.recovered + s.flow.accepted)
         == multiset(s.proc.batch.entries) + multiset(EntriesOfJobs(JobsAnywhere(s.proc, s.flow)))
    ensures EntriesOfJobs(s.flow.dispatched) + s.proc.batch.entries == s.flow.recovered + s.flow.accepted
    ensures s.flow.dequeued + s.proc.queue == s.flow.enqueued && |s.proc.queue| <= 4
  {
    ReachableFlow(cfg, s);
    TotalAnywhere(s.proc, s.flow);
    EntriesPermute(s.flow.dispatched, JobsAnywhere(s.proc, s.flow));
  }

  lemma ReachableFlow(cfg: Config, s: State)
    requires ConfigOk(cfg) && Reachable(cfg, s)
    ensures FlowInv(cfg, s)
  {
    var steps :| IsRun(cfg, steps, s);
    InitFlow(cfg);
    RunKeepsFlow(cfg, INIT, steps, s);
  }

  /** In every reachable state the batch's bounds and service are exact, its size
      counts the entries that were not replayed, it is within the limit unless it is a
      single entry, and every batch handed to a flush is described exactly. */
  lemma BatchExact(cfg: Config, s: State)
    requires ConfigOk(cfg) && Reachable(cfg, s)
    ensures BatchOk(s.proc.batch, cfg.maxBytes, s.flow.replayed)
    ensures forall j | j in JobsAnywhere(s.proc, s.flow) :: JobOk(j)
  {
    ReachableFlow(cfg, s);
    TotalAnywhere(s.proc, s.flow);
    forall j | j in JobsAnywhere(s.proc, s.flow)
      ensures JobOk(j)
    {
      assert j in multiset(JobsAnywhere(s.proc, s.flow));
      assert j in multiset(s.flow.dispatched);
    }
  }

  lemma {:induction false} SomeEntry(js: seq<Job>)
    requires js != [] && forall j | j in js :: JobOk(j)
    ensures |EntriesOfJobs(js)| > 0
  {
    assert JobOk(js[0]);
  }

  /** Shutdown: when Stop has returned, the batch and the queue are empty and nothing
      is left to flushLoop; and every entry the process ever held was flushed exactly
      when no batch failed and no overflow goroutine is still running. */
  lemma StopFlushesAll(cfg: Config, s: State)
    requires ConfigOk(cfg) && Reachable(cfg, s) && s.proc.phase == Stopped
    ensures s.proc.batch.entries == [] && s.proc.queue == [] && s.proc.loop == None
    ensures multiset(s.flow.recovered + s.flow.accepted) == multiset(EntriesOfJobs(s.flow.flushed))
       <==> s.flow.failed == [] && s.proc.overflow == []
  {
    ReachableFlow(cfg, s);
    Conserved(cfg, s);
    BatchExact(cfg, s);
    var left := TaskJobs(s.proc.overflow) + s.flow.failed;
    var flushed := s.flow.flushed;
    BagLeft(TaskJobs(s.proc.overflow), flushed, s.flow.failed);
    EntriesPermute(JobsAnywhere(s.proc, s.flow), flushed + left);
    EntriesConcat(flushed, left);
    if left == [] {
      assert flushed + left == flushed;
      assert |s.proc.overflow| == |TaskJobs(s.proc.overflow)| == 0;
    } else {
      assert forall j | j in left :: j in JobsAnywhere(s.proc, s.flow);
      SomeEntry(left);
      BagLonger(EntriesOfJobs(flushed), EntriesOfJobs(left));
    }
  }

  lemma BagLeft<T>(a: seq<T>, b: seq<T>, c: seq<T>)
    ensures multiset([] + [] + a + b + c) == multiset(b + (a + c))
  {
    assert [] + [] + a + b + c == a + b + c;
  }

  lemma BagLonger<T>(a: seq<T>, b: seq<T>)
    requires b != []
    ensures multiset(a + b) != multiset(a)
  {
    assert |multiset(a + b)| > |multiset(a)|;
  }
}
