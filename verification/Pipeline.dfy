/** The ingest pipeline as a transition system: Buffer, WAL, flush queue, flushLoop,
    overflow goroutines, S3Flusher and the bucket (internal/ingester/buffer.go, wal.go,
    s3_flusher.go). Each step is one atomic action of one goroutine, so a sequence of
    steps is one interleaving; a step also says what the outside world did (which
    writes failed, which landed, what id uuid drew, when the process died). */
module Pipeline {
  import opened Seqs
  import opened Domain
  import opened Lines
  import opened Wal
  import opened Keys
  import opened LabelSets
  import opened Batches

  const QUEUE_CAPACITY := 4

  /** retry.DefaultOptions.MaxAttempts */
  const MAX_ATTEMPTS := 3

  datatype Config = Config(
    codec: Codec,
    maxBytes: int,
    minLevel: string,
    hasWal: bool,
    algo: Algo,
    s3Prefix: string,
    indexPrefix: string)

  /** The assumptions carried by the theorems: encoders that invert, a sane size. */
  ghost predicate ConfigOk(cfg: Config) {
    LineCodec(cfg.codec) && 0 <= cfg.maxBytes
  }

  datatype Phase = Down | Running | Draining | Stopped

  /** One executeFlush call: not yet compressed, writing the chunk (with failed
      attempts so far), or writing the index. */
  datatype Task =
    | Waiting(job: Job)
    | Putting(job: Job, id: string, chunk: Chunk, data: bytes, attempts: nat)
    | Indexing(job: Job, id: string, chunk: Chunk)

  /** Who runs it: flushLoop, or the i-th overflow goroutine. */
  datatype Slot = Loop | Overflow(i: nat)

  /** The process: what a crash loses. */
  datatype Proc = Proc(
    phase: Phase,
    batch: Batch,
    queue: seq<Job>,
    loop: Option<Task>,
    overflow: seq<Task>)

  /** What happened to entries since this process started. */
  datatype Flow = Flow(
    recovered: seq<LogEntry>,
    accepted: seq<LogEntry>,
    dispatched: seq<Job>,
    enqueued: seq<Job>,
    dequeued: seq<Job>,
    flushed: seq<Job>,
    failed: seq<Job>,
    replayed: nat)

  datatype StoredChunk = StoredChunk(chunk: Chunk, entries: seq<LogEntry>)

  /** The bucket; the flushes begun so far by their uuid; and the uuids whose chunk,
      and whose index file, reached the bucket. */
  datatype Store = Store(
    bucket: map<string, bytes>,
    begun: map<string, StoredChunk>,
    stored: set<string>,
    indexed: set<string>)

  datatype State = State(proc: Proc, flow: Flow, wal: WalState, log: seq<Record>, store: Store)

  datatype Step =
    | Add(entry: LogEntry, fault: WriteFault)
    | Tick
    | Dequeue
    | Start(slot: Slot, id: string, labelSets: seq<Labels>)
    | Put(slot: Slot, landed: bool, ok: bool)
    | GiveUp(slot: Slot)
    | Index(slot: Slot, landed: bool)
    | StopDispatch
    | StopReset(reset: ResetFault)
    | Crash(during: Option<(LogEntry, WriteFault)>)
    | Restart(readable: bool)

  const IDLE := Proc(Down, EMPTY, [], None, [])
  const NO_FLOW := Flow([], [], [], [], [], [], [], 0)

  /** Nothing has run yet. */
  const INIT := State(IDLE, NO_FLOW, WalState([], false, 0), [], Store(map[], map[], {}, {}))

  // ---- Add, Tick, Stop ----

  /** dispatchFlush: snapshot, clear, then queue or overflow goroutine. */
  function Dispatched(p: Proc): Proc {
    var job, p' := JobOf(p.batch), p.(batch := Cleared(p.batch));
    if |p.queue| < QUEUE_CAPACITY then p'.(queue := p.queue + [job])
    else p'.(overflow := p.overflow + [Waiting(job)])
  }

  function DispatchFlow(p: Proc, f: Flow): Flow {
    var job := JobOf(p.batch);
    f.(dispatched := f.dispatched + [job],
       enqueued := if |p.queue| < QUEUE_CAPACITY then f.enqueued + [job] else f.enqueued,
       replayed := 0)
  }

  function Dispatch(s: State): State {
    s.(proc := Dispatched(s.proc), flow := DispatchFlow(s.proc, s.flow))
  }

  function DispatchIfAny(s: State): State {
    if s.proc.batch.entries != [] then Dispatch(s) else s
  }

  ghost predicate Overflows(cfg: Config, p: Proc, e: LogEntry) {
    p.batch.sizeEst + SizeOf(e) > cfg.maxBytes && p.batch.entries != []
  }

  ghost function AddEntry(p: Proc, e: LogEntry): Proc {
    var b := AddToBatch(p.batch, e);
    p.(batch := b.(sizeEst := b.sizeEst + SizeOf(e)))
  }

  function WalAfter(cfg: Config, s: State, e: LogEntry, f: WriteFault): (WalState, seq<Record>) {
    if cfg.hasWal then (AppendWal(cfg.codec, s.wal, e, f).0, Logged(cfg.codec, s.wal, s.log, e, f))
    else (s.wal, s.log)
  }

  ghost function AddStep(cfg: Config, s: State, e: LogEntry, f: WriteFault): State {
    if !Accepts(cfg.minLevel, e) then s
    else
      var (wal, log) := WalAfter(cfg, s, e, f);
      var s1 := if Overflows(cfg, s.proc, e) then Dispatch(s) else s;
      State(AddEntry(s1.proc, e), s1.flow.(accepted := s1.flow.accepted + [e]), wal, log, s.store)
  }

  function StopDispatchStep(s: State): State {
    var s1 := DispatchIfAny(s);
    s1.(proc := s1.proc.(phase := Draining))
  }

  function StopResetStep(cfg: Config, s: State, f: ResetFault): State {
    var s1 := s.(proc := s.proc.(phase := Stopped));
    if !cfg.hasWal || f.TruncateFailed? then s1
    else s1.(wal := ResetWal(s.wal, f).0, log := [])
  }

  // ---- flush tasks ----

  predicate HasTask(p: Proc, slot: Slot) {
    match slot
    case Loop => p.loop.Some?
    case Overflow(i) => i < |p.overflow|
  }

  function TaskAt(p: Proc, slot: Slot): Task
    requires HasTask(p, slot)
  {
    match slot
    case Loop => p.loop.value
    case Overflow(i) => p.overflow[i]
  }

  function SetTask(p: Proc, slot: Slot, t: Task): Proc
    requires HasTask(p, slot)
  {
    match slot
    case Loop => p.(loop := Some(t))
    case Overflow(i) => p.(overflow := p.overflow[i := t])
  }

  function EndTask(p: Proc, slot: Slot): Proc
    requires HasTask(p, slot)
  {
    match slot
    case Loop => p.(loop := None)
    case Overflow(i) => p.(overflow := p.overflow[..i] + p.overflow[i + 1..])
  }

  function DequeueStep(s: State): State
    requires s.proc.queue != []
  {
    var job := s.proc.queue[0];
    s.(proc := s.proc.(queue := s.proc.queue[1..], loop := Some(Waiting(job))),
       flow := s.flow.(dequeued := s.flow.dequeued + [job]))
  }

  /** The chunk executeFlush describes, and the object it uploads. */
  ghost function ChunkOf(cfg: Config, j: Job, id: string, labelSets: seq<Labels>): Chunk
    requires Encodable(cfg.codec, j.entries)
  {
    Chunk(ChunkKey(j.service, j.minTime, id, cfg.algo), j.service, j.minTime, j.maxTime,
          |j.entries|, |ChunkData(cfg, j.entries)|, cfg.algo, labelSets)
  }

  ghost function ChunkData(cfg: Config, es: seq<LogEntry>): bytes
    requires Encodable(cfg.codec, es)
  {
    cfg.codec.compress(cfg.algo, Encoded(cfg.codec, es))
  }

  function Fail(s: State, slot: Slot): State
    requires HasTask(s.proc, slot)
  {
    s.(proc := EndTask(s.proc, slot),
       flow := s.flow.(failed := s.flow.failed + [TaskAt(s.proc, slot).job]))
  }

  /** compressEntries fails when an entry does not encode; otherwise the upload begins. */
  ghost function StartStep(cfg: Config, s: State, slot: Slot, id: string, labelSets: seq<Labels>): State
    requires HasTask(s.proc, slot)
  {
    var job := TaskAt(s.proc, slot).job;
    if !Encodable(cfg.codec, job.entries) then Fail(s, slot)
    else
      var chunk := ChunkOf(cfg, job, id, labelSets);
      s.(proc := SetTask(s.proc, slot, Putting(job, id, chunk, ChunkData(cfg, job.entries), 0)),
         store := s.store.(begun := s.store.begun[id := StoredChunk(chunk, job.entries)]))
  }

  function PutChunk(cfg: Config, st: Store, t: Task): Store
    requires t.Putting?
  {
    st.(bucket := st.bucket[cfg.s3Prefix + t.chunk.key := t.data],
        stored := st.stored + {t.id})
  }

  function PutIndex(cfg: Config, st: Store, t: Task): Store
    requires t.Indexing? && cfg.codec.encIndex(t.chunk).Some?
  {
    st.(bucket := st.bucket[IndexKey(cfg.indexPrefix, t.chunk.key) := cfg.codec.encIndex(t.chunk).value],
        indexed := st.indexed + {t.id})
  }

  /** One PutObject attempt; the object may land although an error is reported. */
  function PutStep(cfg: Config, s: State, slot: Slot, landed: bool, ok: bool): State
    requires HasTask(s.proc, slot) && TaskAt(s.proc, slot).Putting?
  {
    var t := TaskAt(s.proc, slot);
    var s1 := if landed then s.(store := PutChunk(cfg, s.store, t)) else s;
    if ok then s1.(proc := SetTask(s.proc, slot, Indexing(t.job, t.id, t.chunk)))
    else if t.attempts + 1 < MAX_ATTEMPTS then s1.(proc := SetTask(s.proc, slot, t.(attempts := t.attempts + 1)))
    else Fail(s1, slot)
  }

  /** The one, best-effort index write; the flush succeeds either way. */
  function IndexStep(cfg: Config, s: State, slot: Slot, landed: bool): State
    requires HasTask(s.proc, slot) && TaskAt(s.proc, slot).Indexing?
  {
    var t := TaskAt(s.proc, slot);
    State(EndTask(s.proc, slot), s.flow.(flushed := s.flow.flushed + [t.job]), s.wal, s.log,
          if landed && cfg.codec.encIndex(t.chunk).Some? then PutIndex(cfg, s.store, t) else s.store)
  }

  // ---- crash and restart ----

  function CrashStep(cfg: Config, s: State, during: Option<(LogEntry, WriteFault)>): State {
    var (wal, log) := if during.Some? then WalAfter(cfg, s, during.value.0, during.value.1) else (s.wal, s.log);
    State(IDLE, NO_FLOW, wal, log, s.store)
  }

  function RestartStep(cfg: Config, s: State, readable: bool): State {
    var recovered := if cfg.hasWal && readable then Replay(cfg.codec, s.wal.file) else [];
    State(Proc(Running, AddAll(EMPTY, recovered), [], None, []),
          NO_FLOW.(recovered := recovered, replayed := |recovered|),
          WalState(s.wal.file, false, |recovered|), s.log, s.store)
  }

  // ---- steps and runs ----

  ghost predicate Enabled(cfg: Config, s: State, step: Step) {
    var p := s.proc;
    match step
    case Add(_, _) => p.phase == Running
    case Tick => p.phase == Running
    case Dequeue => (p.phase == Running || p.phase == Draining) && p.queue != [] && p.loop == None
    case Start(slot, id, sets) =>
      && HasTask(p, slot) && TaskAt(p, slot).Waiting?
      && IsId(id) && id !in s.store.begun && Collected(TaskAt(p, slot).job.entries, sets)
    case Put(slot, landed, ok) => HasTask(p, slot) && TaskAt(p, slot).Putting? && (ok ==> landed)
    case GiveUp(slot) => HasTask(p, slot) && TaskAt(p, slot).Putting?
    case Index(slot, _) => HasTask(p, slot) && TaskAt(p, slot).Indexing?
    case StopDispatch => p.phase == Running
    case StopReset(_) => p.phase == Draining && p.queue == [] && p.loop == None
    case Crash(during) => p.phase != Down && (during.Some? ==> p.phase == Running && during.value.1 != NoFault)
    case Restart(_) => p.phase == Down
  }

  ghost function Next(cfg: Config, s: State, step: Step): State
    requires Enabled(cfg, s, step)
  {
    match step
    case Add(e, f) => AddStep(cfg, s, e, f)
    case Tick => DispatchIfAny(s)
    case Dequeue => DequeueStep(s)
    case Start(slot, id, sets) => StartStep(cfg, s, slot, id, sets)
    case Put(slot, landed, ok) => PutStep(cfg, s, slot, landed, ok)
    case GiveUp(slot) => Fail(s, slot)
    case Index(slot, landed) => IndexStep(cfg, s, slot, landed)
    case StopDispatch => StopDispatchStep(s)
    case StopReset(f) => StopResetStep(cfg, s, f)
    case Crash(during) => CrashStep(cfg, s, during)
    case Restart(readable) => RestartStep(cfg, s, readable)
  }

  /** The state a run ends in, if every step was possible. */
  ghost function After(cfg: Config, s: State, steps: seq<Step>): Option<State>
    decreases |steps|
  {
    if steps == [] then Some(s)
    else if !Enabled(cfg, s, steps[0]) then None
    else After(cfg, Next(cfg, s, steps[0]), steps[1..])
  }

  ghost predicate IsRun(cfg: Config, steps: seq<Step>, s: State) {
    After(cfg, INIT, steps) == Some(s)
  }

  ghost predicate Reachable(cfg: Config, s: State) {
    exists steps :: IsRun(cfg, steps, s)
  }

  // ---- putting runs together ----

  lemma Prepend(cfg: Config, s: State, step: Step, rest: seq<Step>, end: State)
    requires Enabled(cfg, s, step) && After(cfg, Next(cfg, s, step), rest) == Some(end)
    ensures After(cfg, s, [step] + rest) == Some(end)
  {
    assert ([step] + rest)[1..] == rest;
  }

  lemma {:induction false} Continue(cfg: Config, s: State, first: seq<Step>, mid: State, rest: seq<Step>, end: State)
    requires After(cfg, s, first) == Some(mid) && After(cfg, mid, rest) == Some(end)
    ensures After(cfg, s, first + rest) == Some(end)
    decreases |first|
  {
    if first == [] {
      assert first + rest == rest;
    } else {
      var s1 := Next(cfg, s, first[0]);
      Continue(cfg, s1, first[1..], mid, rest, end);
      Prepend(cfg, s, first[0], first[1..] + rest, end);
      Assoc([first[0]], first[1..], rest);
      ConsRest(first);
    }
  }

  lemma Append(cfg: Config, s: State, steps: seq<Step>, t: State, step: Step)
    requires After(cfg, s, steps) == Some(t) && Enabled(cfg, t, step)
    ensures After(cfg, s, steps + [step]) == Some(Next(cfg, t, step))
  {
    Prepend(cfg, t, step, [], Next(cfg, t, step));
    assert [step] + [] == [step];
    Continue(cfg, s, steps, t, [step], Next(cfg, t, step));
  }
}
