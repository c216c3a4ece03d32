/** The code of internal/ingester/buffer.go and s3_flusher.go in its own form, each
    method proved to be a step, or a sequence of steps, of the transition system. A ghost
    state is threaded through the calls: the part the object holds must agree with it. */
module Buffer {
  import opened Seqs
  import opened Domain
  import opened Lines
  import opened Wal
  import opened Keys
  import opened LabelSets
  import opened Batches
  import opened Pipeline
  import Broker

  class LogBuffer {
    const cfg: Config
    const wal: Log
    /** The live-tail broker, if there is one. */
    const hub: Broker.Hub?
    var phase: Phase
    var entries: seq<LogEntry>
    var sizeEst: int
    var minTime: int
    var maxTime: int
    var service: string
    var flushCh: seq<Job>
    var loop: Option<Task>
    var overflow: seq<Task>

    ghost function BatchView(): Batch reads this { Batch(entries, sizeEst, minTime, maxTime, service) }

    ghost function View(): Proc reads this { Proc(phase, BatchView(), flushCh, loop, overflow) }

    /** The object and its log are what the state s says. */
    ghost predicate Agrees(s: State) reads this, wal {
      wal.codec == cfg.codec && s.proc == View() && s.wal == wal.State()
    }

    /** The broker is what the state b of its own system says. */
    ghost predicate Tailed(b: Broker.State) reads this, hub {
      hub != null ==> Broker.Inv(b) && hub.Agrees(b)
    }

    /** NewBuffer: replay, then run. Without a WAL the log is never touched. */
    constructor (cfg: Config, wal: Log, hub: Broker.Hub?, fault: SeekFault, ghost s: State)
      requires wal.codec == cfg.codec && s.proc.phase == Down && s.wal.file == wal.file && !wal.broken && wal.n == 0
      modifies wal
      ensures this.cfg == cfg && this.wal == wal && this.hub == hub
      ensures Agrees(RestartStep(cfg, s, fault.SeekOk?))
    {
      this.cfg, this.wal, this.hub := cfg, wal, hub;
      phase, entries, sizeEst, minTime, maxTime, service := Running, [], 0, 0, 0, "";
      flushCh, loop, overflow := [], None, [];
      new;
      if cfg.hasWal {
        var r := wal.Recover(fault);
        var recovered := if r.Ok? then r.value else [];
        AddRecovered(recovered);
      }
    }

    method AddRecovered(recovered: seq<LogEntry>)
      modifies `entries, `minTime, `maxTime, `service
      ensures BatchView() == AddAll(old(BatchView()), recovered)
    {
      for i := 0 to |recovered|
        invariant AddAll(BatchView(), recovered[i..]) == AddAll(old(BatchView()), recovered)
      {
        assert recovered[i..][0] == recovered[i] && recovered[i..][1..] == recovered[i + 1..];
        AddToBuffer(recovered[i]);
      }
    }

    method AddToBuffer(e: LogEntry)
      modifies `entries, `minTime, `maxTime, `service
      ensures BatchView() == AddToBatch(old(BatchView()), e)
    {
      if |entries| == 0 {
        minTime, maxTime, service := e.timestamp, e.timestamp, e.service;
      }
      if e.timestamp < minTime {
        minTime := e.timestamp;
      }
      if e.timestamp > maxTime {
        maxTime := e.timestamp;
      }
      entries := entries + [e];
    }

    method DispatchFlush()
      modifies `entries, `sizeEst, `flushCh, `overflow
      ensures View() == Dispatched(old(View()))
    {
      var job := Job(entries, service, minTime, maxTime);
      entries, sizeEst := [], 0;
      if |flushCh| < QUEUE_CAPACITY {
        flushCh := flushCh + [job];
      } else {
        overflow := overflow + [Waiting(job)];
      }
    }

    /** Add, with what the disk did to the WAL write. An accepted entry is published. */
    method Add(e: LogEntry, fault: WriteFault, ghost s: State, ghost b: Broker.State)
      returns (accepted: bool, ghost s': State, ghost b': Broker.State)
      requires Agrees(s) && Tailed(b) && Enabled(cfg, s, Step.Add(e, fault))
      modifies this, wal, hub
      ensures s' == Next(cfg, s, Step.Add(e, fault)) && Agrees(s')
      ensures accepted <==> Accepts(cfg.minLevel, e)
      ensures Tailed(b') && b' == if accepted && hub != null then Broker.Next(b, Broker.Publish(e)) else b
    {
      s', b' := Next(cfg, s, Step.Add(e, fault)), b;
      if cfg.minLevel != "" && Priority(e.level) < Priority(cfg.minLevel) {
        return false, s', b';
      }
      if cfg.hasWal {
        var _ := wal.Append(e, fault);
      }
      var size := EstimateSize(e);
      if sizeEst + size > cfg.maxBytes && |entries| > 0 {
        DispatchFlush();
      }
      AddToBuffer(e);
      sizeEst := sizeEst + size;
      if hub != null {
        b' := hub.Publish(e, b);
      }
      return true, s', b';
    }

    /** The ticker's turn under the mutex. */
    method OnTick(ghost s: State) returns (ghost s': State)
      requires Agrees(s) && Enabled(cfg, s, Tick)
      modifies this
      ensures s' == Next(cfg, s, Tick) && Agrees(s')
    {
      s' := Next(cfg, s, Tick);
      if |entries| > 0 {
        DispatchFlush();
      }
    }

    /** One receive of flushLoop. */
    method Receive(ghost s: State) returns (job: Job, ghost s': State)
      requires Agrees(s) && Enabled(cfg, s, Dequeue)
      modifies this
      ensures s' == Next(cfg, s, Dequeue) && Agrees(s') && loop == Some(Waiting(job))
    {
      s' := Next(cfg, s, Dequeue);
      job := flushCh[0];
      flushCh, loop := flushCh[1..], Some(Waiting(job));
    }

    /** Stop up to closing the queue. */
    method BeginStop(ghost s: State) returns (ghost s': State)
      requires Agrees(s) && Enabled(cfg, s, StopDispatch)
      modifies this
      ensures s' == Next(cfg, s, StopDispatch) && Agrees(s')
    {
      s' := Next(cfg, s, StopDispatch);
      if |entries| > 0 {
        DispatchFlush();
      }
      phase := Draining;
    }

    /** Stop after flushLoop has drained the queue. */
    method FinishStop(fault: ResetFault, ghost s: State) returns (ghost s': State)
      requires Agrees(s) && Enabled(cfg, s, StopReset(fault))
      modifies this, wal
      ensures s' == Next(cfg, s, StopReset(fault)) && Agrees(s')
    {
      s' := Next(cfg, s, StopReset(fault));
      if cfg.hasWal {
        var _ := wal.Reset(fault);
      }
      phase := Stopped;
    }
  }

  // ---- executeFlush and S3Flusher.Flush ----

  class Bucket {
    var objects: map<string, bytes>
  }

  /** What happens to one try of the upload: the context is done, or the call is made;
      an object may land although the call reports an error. */
  datatype Attempt = ContextDone | Called(landed: bool, ok: bool)

  /** Some one of the first three tries is answered with success, and every try before it
      was made and refused. */
  ghost predicate Succeeds(world: seq<Attempt>) {
    exists i | 0 <= i < 3 && i < |world| :: world[i].Called? && world[i].ok && Refused(world, i)
  }

  /** Some one of the tries that are made puts the object into the bucket. */
  ghost predicate Lands(world: seq<Attempt>) {
    exists i | 0 <= i < 3 && i < |world| :: world[i].Called? && world[i].landed && Refused(world, i)
  }

  /** The first n tries are made, and all report an error. */
  ghost predicate Refused(world: seq<Attempt>, n: nat) {
    n <= |world| && forall j | 0 <= j < n :: world[j].Called? && !world[j].ok
  }

  /** Some one of the first n tries landed. */
  ghost predicate LandedBy(world: seq<Attempt>, n: nat) {
    exists i | 0 <= i < n && i < |world| :: world[i].Called? && world[i].landed
  }

  /** What the tries before the n-th say about the outcome when the n-th is the last one. */
  lemma TriedAt(world: seq<Attempt>, n: nat)
    requires n <= 3 && Refused(world, n)
    ensures n == 3 || n >= |world| || world[n].ContextDone?
            ==> !Succeeds(world) && (Lands(world) <==> LandedBy(world, n))
    ensures n < 3 && n < |world| && world[n].Called? ==>
      && (world[n].ok ==> Succeeds(world) && (Lands(world) <==> LandedBy(world, n + 1)))
      && (!world[n].ok ==> Refused(world, n + 1))
      && (LandedBy(world, n + 1) <==> LandedBy(world, n) || world[n].landed)
  {
    LandedEarly(world, n);
    if n < 3 && n < |world| && world[n].Called? && world[n].ok {
      LandedEarly(world, n + 1);
    }
  }

  lemma LandedEarly(world: seq<Attempt>, n: nat)
    requires n <= 3 && Refused(world, if n == 0 then 0 else n - 1)
    ensures LandedBy(world, n) ==> Lands(world)
  {
    if LandedBy(world, n) {
      var i :| 0 <= i < n && i < |world| && world[i].Called? && world[i].landed;
      assert Refused(world, i);
    }
  }

  /** The bucket after an upload. */
  ghost function WithChunk(cfg: Config, objects: map<string, bytes>, chunk: Chunk, data: bytes, world: seq<Attempt>)
    : map<string, bytes>
  {
    if Lands(world) then objects[cfg.s3Prefix + chunk.key := data] else objects
  }

  /** The bucket after a flush: the index file is written behind a successful upload only. */
  ghost function WithIndex(cfg: Config, objects: map<string, bytes>, chunk: Chunk, data: bytes, world: seq<Attempt>,
                           indexLands: bool): map<string, bytes>
  {
    var uploaded := WithChunk(cfg, objects, chunk, data, world);
    if Succeeds(world) && indexLands && cfg.codec.encIndex(chunk).Some?
    then uploaded[IndexKey(cfg.indexPrefix, chunk.key) := cfg.codec.encIndex(chunk).value]
    else uploaded
  }

  /** compressEntries up to the compressor. */
  method EncodeEntries(c: Codec, es: seq<LogEntry>) returns (raw: Option<bytes>)
    ensures raw == if Encodable(c, es) then Some(Encoded(c, es)) else None
  {
    var out: bytes := [];
    for i := 0 to |es|
      invariant Encodable(c, es[..i]) && out == Encoded(c, es[..i])
    {
      var line := c.enc(es[i]);
      if line.None? {
        assert es[i] in es;
        return None;
      }
      assert es[..i + 1] == es[..i] + [es[i]];
      EncodedSnoc(c, es[..i], es[i]);
      out := out + line.value + [NL];
    }
    assert es[..|es|] == es;
    return Some(out);
  }

  lemma {:induction false} EncodedSnoc(c: Codec, es: seq<LogEntry>, e: LogEntry)
    requires Encodable(c, es) && c.enc(e).Some?
    ensures Encodable(c, es + [e]) && Encoded(c, es + [e]) == Encoded(c, es) + c.enc(e).value + [NL]
  {
    if es == [] {
      assert es + [e] == [e];
      assert Encoded(c, [e]) == c.enc(e).value + [NL] + Encoded(c, [][..]);
    } else {
      assert (es + [e])[1..] == es[1..] + [e];
      assert (es + [e])[0] == es[0];
      EncodedSnoc(c, es[1..], e);
      assert Encodable(c, es + [e]);
    }
  }

  ghost predicate Ends(s: State, slot: Slot, flushed: bool, s': State)
    requires HasTask(s.proc, slot)
  {
    var job := TaskAt(s.proc, slot).job;
    && s'.proc == EndTask(s.proc, slot)
    && s'.flow == (if flushed then s.flow.(flushed := s.flow.flushed + [job])
        else s.flow.(failed := s.flow.failed + [job]))
    && s'.wal == s.wal && s'.log == s.log
  }

  /** The whole of executeFlush, run without interleaving: a run of the transition system
      from the flush's start to its end, with the same objects written in the same order. */
  method ExecuteFlush(cfg: Config, bucket: Bucket, job: Job, id: string, world: seq<Attempt>, indexLands: bool,
                      ghost slot: Slot, ghost s: State)
    returns (flushed: bool, ghost steps: seq<Step>, ghost s': State)
    requires HasTask(s.proc, slot) && TaskAt(s.proc, slot) == Waiting(job)
    requires IsId(id) && id !in s.store.begun && s.store.bucket == bucket.objects
    requires forall a | a in world && a.Called? && a.ok :: a.landed
    modifies bucket
    ensures After(cfg, s, steps) == Some(s') && Ends(s, slot, flushed, s')
    ensures s'.store.bucket == bucket.objects
    ensures flushed <==> Encodable(cfg.codec, job.entries) && Succeeds(world)
    ensures !Encodable(cfg.codec, job.entries) ==> bucket.objects == old(bucket.objects)
    ensures Encodable(cfg.codec, job.entries) ==>
      exists sets :: Collected(job.entries, sets) &&
        var chunk, data := ChunkOf(cfg, job, id, sets), ChunkData(cfg, job.entries);
        bucket.objects == WithIndex(cfg, old(bucket.objects), chunk, data, world, indexLands)
  {
    var sets := CollectLabelSets(job.entries);
    ghost var s1 := Next(cfg, s, Start(slot, id, sets));
    var raw := EncodeEntries(cfg.codec, job.entries);
    if raw.None? {
      Prepend(cfg, s, Start(slot, id, sets), [], s1);
      return false, [Start(slot, id, sets)], s1;
    }
    var data := cfg.codec.compress(cfg.algo, raw.value);
    var chunk := Chunk(ChunkKey(job.service, job.minTime, id, cfg.algo), job.service, job.minTime, job.maxTime,
                       |job.entries|, |data|, cfg.algo, sets);
    SetThenEnd(s.proc, slot, Putting(job, id, chunk, data, 0));
    ghost var more;
    flushed, more, s' := Flush(cfg, bucket, chunk, data, world, indexLands, job, id, slot, s1);
    Prepend(cfg, s, Start(slot, id, sets), more, s');
    steps := [Start(slot, id, sets)] + more;
  }

  lemma SetThenEnd(p: Proc, slot: Slot, t: Task)
    requires HasTask(p, slot)
    ensures HasTask(SetTask(p, slot, t), slot) && TaskAt(SetTask(p, slot, t), slot) == t
    ensures EndTask(SetTask(p, slot, t), slot) == EndTask(p, slot)
  {
  }

  /** S3Flusher.Flush: upload with at most MAX_ATTEMPTS tries, then one index write whose
      failure is not reported. */
  method Flush(cfg: Config, bucket: Bucket, chunk: Chunk, data: bytes, world: seq<Attempt>, indexLands: bool,
               ghost job: Job, ghost id: string, ghost slot: Slot, ghost s: State)
    returns (ok: bool, ghost steps: seq<Step>, ghost s': State)
    requires HasTask(s.proc, slot) && TaskAt(s.proc, slot) == Putting(job, id, chunk, data, 0)
    requires s.store.bucket == bucket.objects
    requires forall a | a in world && a.Called? && a.ok :: a.landed
    modifies bucket
    ensures After(cfg, s, steps) == Some(s') && Ends(s, slot, ok, s')
    ensures s'.store.bucket == bucket.objects
    ensures ok <==> Succeeds(world)
    ensures bucket.objects == WithIndex(cfg, old(bucket.objects), chunk, data, world, indexLands)
  {
    ghost var t: State;
    ok, steps, t := Upload(cfg, bucket, chunk, data, world, job, id, slot, s);
    if !ok {
      return false, steps, t;
    }
    s' := Next(cfg, t, Step.Index(slot, indexLands));
    SetThenEnd(s.proc, slot, Indexing(job, id, chunk));
    Append(cfg, s, steps, t, Step.Index(slot, indexLands));
    steps := steps + [Step.Index(slot, indexLands)];
    var body := cfg.codec.encIndex(chunk);
    if body.Some? && indexLands {
      bucket.objects := bucket.objects[IndexKey(cfg.indexPrefix, chunk.key) := body.value];
    }
  }

  /** The retried PutObject. */
  method Upload(cfg: Config, bucket: Bucket, chunk: Chunk, data: bytes, world: seq<Attempt>,
                ghost job: Job, ghost id: string, ghost slot: Slot, ghost s: State)
    returns (ok: bool, ghost steps: seq<Step>, ghost s': State)
    requires HasTask(s.proc, slot) && TaskAt(s.proc, slot) == Putting(job, id, chunk, data, 0)
    requires s.store.bucket == bucket.objects
    requires forall a | a in world && a.Called? && a.ok :: a.landed
    modifies bucket
    ensures After(cfg, s, steps) == Some(s') && s'.store.bucket == bucket.objects
    ensures ok ==> s'.proc == SetTask(s.proc, slot, Indexing(job, id, chunk)) && s'.flow == s.flow
                   && s'.wal == s.wal && s'.log == s.log
    ensures !ok ==> Ends(s, slot, false, s')
    ensures ok <==> Succeeds(world)
    ensures bucket.objects == WithChunk(cfg, old(bucket.objects), chunk, data, world)
  {
    steps, s' := [], s;
    SetThenEnd(s.proc, slot, Putting(job, id, chunk, data, 0));
    assert SetTask(s.proc, slot, Putting(job, id, chunk, data, 0)) == s.proc by { SameTask(s.proc, slot); }
    for attempt := 0 to MAX_ATTEMPTS
      invariant attempt < MAX_ATTEMPTS ==> s'.proc == SetTask(s.proc, slot, Putting(job, id, chunk, data, attempt))
                                           && s'.flow == s.flow && s'.wal == s.wal && s'.log == s.log
      invariant attempt == MAX_ATTEMPTS ==> Ends(s, slot, false, s')
      invariant After(cfg, s, steps) == Some(s') && s'.store.bucket == bucket.objects
      invariant Refused(world, attempt)
      invariant bucket.objects == if LandedBy(world, attempt)
                                  then old(bucket.objects)[cfg.s3Prefix + chunk.key := data] else old(bucket.objects)
    {
      ghost var task := Putting(job, id, chunk, data, attempt);
      SetThenEnd(s.proc, slot, task);
      var outcome := if attempt < |world| then world[attempt] else ContextDone;
      TriedAt(world, attempt);
      if outcome == ContextDone {
        Append(cfg, s, steps, s', GiveUp(slot));
        return false, steps + [GiveUp(slot)], Next(cfg, s', GiveUp(slot));
      }
      s' := PutAttempt(cfg, s, steps, s', slot, task, outcome.landed, outcome.ok);
      steps := steps + [Put(slot, outcome.landed, outcome.ok)];
      if outcome.landed {
        bucket.objects := bucket.objects[cfg.s3Prefix + chunk.key := data];
      }
      if outcome.ok {
        return true, steps, s';
      }
    }
    TriedAt(world, 3);
    return false, steps, s';
  }

  /** One write attempt of the task that began as s's task in this slot. */
  lemma PutAttempt(cfg: Config, s: State, steps: seq<Step>, t: State, slot: Slot, task: Task, landed: bool, ok: bool)
    returns (t': State)
    requires HasTask(s.proc, slot) && task.Putting? && TaskAt(s.proc, slot).job == task.job && (ok ==> landed)
    requires After(cfg, s, steps) == Some(t) && t.proc == SetTask(s.proc, slot, task)
    requires t.flow == s.flow && t.wal == s.wal && t.log == s.log
    ensures After(cfg, s, steps + [Put(slot, landed, ok)]) == Some(t')
    ensures t'.store.bucket == if landed then t.store.bucket[cfg.s3Prefix + task.chunk.key := task.data]
            else t.store.bucket
    ensures ok || task.attempts + 1 < MAX_ATTEMPTS ==> t'.flow == s.flow && t'.wal == s.wal && t'.log == s.log
    ensures ok ==> t'.proc == SetTask(s.proc, slot, Indexing(task.job, task.id, task.chunk))
    ensures !ok && task.attempts + 1 < MAX_ATTEMPTS ==>
      t'.proc == SetTask(s.proc, slot, task.(attempts := task.attempts + 1))
    ensures !ok && task.attempts + 1 >= MAX_ATTEMPTS ==> Ends(s, slot, false, t')
  {
    SetThenEnd(s.proc, slot, task);
    SetTwice(s.proc, slot, task, Indexing(task.job, task.id, task.chunk));
    SetTwice(s.proc, slot, task, task.(attempts := task.attempts + 1));
    t' := Next(cfg, t, Put(slot, landed, ok));
    Append(cfg, s, steps, t, Put(slot, landed, ok));
  }

  lemma SameTask(p: Proc, slot: Slot)
    requires HasTask(p, slot)
    ensures SetTask(p, slot, TaskAt(p, slot)) == p
  {
  }

  lemma SetTwice(p: Proc, slot: Slot, t: Task, u: Task)
    requires HasTask(p, slot)
    ensures HasTask(SetTask(p, slot, t), slot) && SetTask(SetTask(p, slot, t), slot, u) == SetTask(p, slot, u)
  {
  }
}
