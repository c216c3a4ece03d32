/** Runs that show why the hypotheses of the end-to-end theorem are needed: each ends with a
    stored chunk that holds a match, every write reported as successful, and a query that
    comes back empty from every reading of the bucket. */
module Witnesses {
  import opened Seqs
  import opened Calendar
  import opened Domain
  import opened Lines
  import opened Wal
  import opened Keys
  import opened KeyRouting
  import opened LabelSets
  import opened Batches
  import opened Pipeline
  import opened Query
  import opened Bags
  import opened IndexTruth
  import opened EndToEnd
  import opened Visibility
  import Durability

  /** Chunk id is there and has a match, and the query misses it. */
  ghost predicate Lost(cfg: Config, s: State, id: string, req: Request) {
    && id in s.store.stored && Scans(s.store, req)(id) != []
    && forall s3 | Snapshot(s.store, s3) :: FullResult(cfg, s3, req) == []
  }

  /** The batch two entries make. */
  function Pair(e: LogEntry, e': LogEntry): Batch { AddToBatch(AddToBatch(EMPTY, e), e') }

  /** Two entries that go into one chunk, written under id with these label sets. */
  ghost predicate Storable(cfg: Config, e: LogEntry, e': LogEntry, id: string, sets: seq<Labels>) {
    && ConfigOk(cfg) && CodecOk(cfg.codec)
    && Accepts(cfg.minLevel, e) && Accepts(cfg.minLevel, e') && SizeOf(e) + SizeOf(e') <= cfg.maxBytes
    && IsId(id) && Collected([e, e'], sets) && Encodable(cfg.codec, [e, e'])
    && cfg.codec.encIndex(ChunkOf(cfg, JobOf(Pair(e, e')), id, sets)).Some?
  }

  // ---- runs ----

  lemma EntriesOfPair(e: LogEntry, e': LogEntry)
    ensures Pair(e, e').entries == [e, e']
  {
    assert [e] + [e'] == [e, e'];
  }

  lemma Started(cfg: Config) returns (s: State)
    ensures IsRun(cfg, [Restart(true)], s) && s.proc == Proc(Running, EMPTY, [], None, [])
    ensures s.flow == NO_FLOW && s.store == INIT.store
  {
    Durability.EmptyReplay(cfg.codec);
    s := RestartStep(cfg, INIT, true);
    Prepend(cfg, INIT, Restart(true), [], s);
    assert [Restart(true)] + [] == [Restart(true)];
  }

  lemma OneMore(cfg: Config, steps: seq<Step>, s: State, e: LogEntry) returns (s': State)
    requires IsRun(cfg, steps, s) && s.proc.phase == Running && Accepts(cfg.minLevel, e) && !Overflows(cfg, s.proc, e)
    ensures IsRun(cfg, steps + [Add(e, NoFault)], s')
    ensures s'.proc == AddEntry(s.proc, e) && s'.flow == s.flow.(accepted := s.flow.accepted + [e])
            && s'.store == s.store
  {
    s' := AddStep(cfg, s, e, NoFault);
    Append(cfg, INIT, steps, s, Add(e, NoFault));
  }

  /** A tick dispatches the batch and flushLoop takes it. */
  lemma InFlight(cfg: Config, steps: seq<Step>, s: State) returns (s': State)
    requires IsRun(cfg, steps, s) && s.proc.phase == Running && s.proc.batch.entries != []
    requires s.proc.queue == [] && s.proc.loop == None
    ensures IsRun(cfg, steps + [Tick] + [Dequeue], s')
    ensures s'.proc.loop == Some(Waiting(JobOf(s.proc.batch))) && s'.store == s.store
    ensures s'.flow.accepted == s.flow.accepted && s'.flow.flushed == s.flow.flushed && s'.flow.failed == s.flow.failed
  {
    var s1 := DispatchIfAny(s);
    Append(cfg, INIT, steps, s, Tick);
    s' := DequeueStep(s1);
    Append(cfg, INIT, steps + [Tick], s1, Dequeue);
  }

  /** The flush goes through at once; the index write lands or not. */
  lemma FlushRun(cfg: Config, steps: seq<Step>, s: State, job: Job, id: string, sets: seq<Labels>, landed: bool)
    returns (steps': seq<Step>, s': State)
    requires IsRun(cfg, steps, s) && s.proc.loop == Some(Waiting(job)) && Encodable(cfg.codec, job.entries)
    requires IsId(id) && id !in s.store.begun && Collected(job.entries, sets)
    requires landed ==> cfg.codec.encIndex(ChunkOf(cfg, job, id, sets)).Some?
    ensures IsRun(cfg, steps', s') && s'.flow == s.flow.(flushed := s.flow.flushed + [job])
    ensures s'.store.begun == s.store.begun[id := StoredChunk(ChunkOf(cfg, job, id, sets), job.entries)]
    ensures s'.store.stored == s.store.stored + {id}
    ensures s'.store.indexed == s.store.indexed + if landed then {id} else {}
  {
    var s1 := StartStep(cfg, s, Loop, id, sets);
    var s2 := PutStep(cfg, s1, Loop, true, true);
    s' := IndexStep(cfg, s2, Loop, landed);
    Append(cfg, INIT, steps, s, Start(Loop, id, sets));
    Append(cfg, INIT, steps + [Start(Loop, id, sets)], s1, Put(Loop, true, true));
    Append(cfg, INIT, steps + [Start(Loop, id, sets)] + [Put(Loop, true, true)], s2, Index(Loop, landed));
    steps' := steps + [Start(Loop, id, sets)] + [Put(Loop, true, true)] + [Index(Loop, landed)];
  }

  lemma PairInFlight(cfg: Config, e: LogEntry, e': LogEntry) returns (steps: seq<Step>, s: State)
    requires Accepts(cfg.minLevel, e) && Accepts(cfg.minLevel, e') && SizeOf(e) + SizeOf(e') <= cfg.maxBytes
    ensures IsRun(cfg, steps, s) && s.proc.loop == Some(Waiting(JobOf(Pair(e, e')))) && s.store == INIT.store
    ensures s.flow.accepted == [e, e'] && s.flow.flushed == [] && s.flow.failed == []
  {
    EntriesOfPair(e, e');
    var s0 := Started(cfg);
    var s1 := OneMore(cfg, [Restart(true)], s0, e);
    steps := [Restart(true)] + [Add(e, NoFault)];
    var s2 := OneMore(cfg, steps, s1, e');
    steps := steps + [Add(e', NoFault)];
    assert JobOf(s2.proc.batch) == JobOf(Pair(e, e'));
    s := InFlight(cfg, steps, s2);
    steps := steps + [Tick] + [Dequeue];
  }

  /** The run that stores and indexes one chunk of two entries. */
  lemma PairRun(cfg: Config, e: LogEntry, e': LogEntry, id: string, sets: seq<Labels>)
    returns (steps: seq<Step>, s: State)
    requires Storable(cfg, e, e', id, sets)
    ensures IsRun(cfg, steps, s) && s.flow.accepted == [e, e'] && s.flow.flushed == [JobOf(Pair(e, e'))]
    ensures s.flow.failed == [] && s.store.stored == s.store.indexed == {id}
    ensures id in s.store.begun && TrueChunk(cfg, id, s.store.begun[id])
    ensures s.store.begun[id].entries == [e, e']
            && s.store.begun[id].chunk == ChunkOf(cfg, JobOf(Pair(e, e')), id, sets)
  {
    EntriesOfPair(e, e');
    steps, s := PairInFlight(cfg, e, e');
    steps, s := FlushRun(cfg, steps, s, JobOf(Pair(e, e')), id, sets, true);
    PairJobOk(e, e');
    NewChunkTrue(cfg, JobOf(Pair(e, e')), id, sets);
  }

  lemma PairJobOk(e: LogEntry, e': LogEntry)
    ensures JobOk(JobOf(Pair(e, e')))
  {
    AddDescribes(EMPTY, e);
    AddDescribes(AddToBatch(EMPTY, e), e');
  }

  lemma NothingFound(cfg: Config, st: Store, s3: Reads, req: Request, ids: seq<string>)
    requires CodecOk(cfg.codec) && StoreOk(cfg, st) && Snapshot(st, s3) && Enumerates(ids, st.indexed)
    requires forall id | id in ids :: id in st.begun && !Visible(cfg, req, st.begun[id])
    ensures FullResult(cfg, s3, req) == []
  {
    ResultIsFinds(cfg, st, s3, req, ids);
    BagNothing(ids, Finds(cfg, st, req));
    assert |multiset(FullResult(cfg, s3, req))| == 0;
  }

  lemma HiddenIsLost(cfg: Config, s: State, id: string, req: Request)
    requires ConfigOk(cfg) && CodecOk(cfg.codec) && Reachable(cfg, s) && s.store.indexed == {id}
    requires id in s.store.stored && Scans(s.store, req)(id) != []
    requires id in s.store.begun && !Visible(cfg, req, s.store.begun[id])
    ensures Lost(cfg, s, id, req)
  {
    One(id);
    NeverFound(cfg, s, req, [id]);
  }

  lemma One(id: string)
    ensures Enumerates([id], {id})
  {
  }

  lemma NeverFound(cfg: Config, s: State, req: Request, ids: seq<string>)
    requires ConfigOk(cfg) && CodecOk(cfg.codec) && Reachable(cfg, s) && Enumerates(ids, s.store.indexed)
    requires forall id | id in ids :: id in s.store.begun && !Visible(cfg, req, s.store.begun[id])
    ensures forall s3 | Snapshot(s.store, s3) :: FullResult(cfg, s3, req) == []
  {
    BucketTruth(cfg, s);
    forall s3 | Snapshot(s.store, s3)
      ensures FullResult(cfg, s3, req) == []
    {
      NothingFound(cfg, s.store, s3, req, ids);
    }
  }

  lemma HasMatchAt(req: Request, es: seq<LogEntry>, i: nat)
    requires i < |es| && EntryMatches(req, es[i])
    ensures HasMatch(req, es) && Matching(req, es) != []
  {
    MatchingIff(req, es);
  }

  // ---- one run per hypothesis ----

  /** A query for one instant, any service and level. */
  function At(t: int, service: string, labels: Labels): Request { Request(t, t, service, labels, "", 0) }

  /** One day: two entries around midnight, and a query for the second day. */
  lemma MidnightLost(cfg: Config, e: LogEntry, e': LogEntry, id: string) returns (steps: seq<Step>, s: State)
    requires e.timestamp == NANOS_PER_DAY - 1 && e'.timestamp == NANOS_PER_DAY && SlashFree(e.service)
    requires e.labels == e'.labels == map[] && Storable(cfg, e, e', id, [])
    ensures IsRun(cfg, steps, s) && s.flow.accepted == [e, e'] && s.store.indexed == {id}
    ensures Lost(cfg, s, id, At(NANOS_PER_DAY, "", map[]))
  {
    var req := At(NANOS_PER_DAY, "", map[]);
    steps, s := PairRun(cfg, e, e', id, []);
    HasMatchAt(req, [e, e'], 1);
    MidnightMissed(cfg, req, id, s.store.begun[id]);
    HiddenIsLost(cfg, s, id, req);
  }

  /** One service: a batch of two services, and a query for the second. */
  lemma MixedServiceLost(cfg: Config, e: LogEntry, e': LogEntry, id: string) returns (steps: seq<Step>, s: State)
    requires e'.service != "" && !EqualFold(e.service, e'.service)
    requires e.labels == e'.labels == map[] && Storable(cfg, e, e', id, [])
    ensures IsRun(cfg, steps, s) && s.flow.accepted == [e, e'] && s.store.indexed == {id}
    ensures Lost(cfg, s, id, At(e'.timestamp, e'.service, map[]))
  {
    var req := At(e'.timestamp, e'.service, map[]);
    steps, s := PairRun(cfg, e, e', id, []);
    HasMatchAt(req, [e, e'], 1);
    MixedServiceMissed(cfg, req, id, s.store.begun[id]);
    HiddenIsLost(cfg, s, id, req);
  }

  /** No slash: a service such as "a/b". */
  lemma SlashLost(cfg: Config, head: string, name: string, e: LogEntry, id: string) returns (steps: seq<Step>, s: State)
    requires e.service == head + "/" + name && SlashFree(head) && SlashFree(name) && name != "."
    requires e.labels == map[] && Storable(cfg, e, e, id, [])
    ensures IsRun(cfg, steps, s) && s.flow.accepted == [e, e] && s.store.indexed == {id}
    ensures Lost(cfg, s, id, At(e.timestamp, e.service, map[]))
  {
    var req := At(e.timestamp, e.service, map[]);
    steps, s := PairRun(cfg, e, e, id, []);
    HasMatchAt(req, [e, e], 0);
    SlashHides(req, s.store.begun[id].chunk, head, name);
    HiddenIsLost(cfg, s, id, req);
  }

  /** A safe selector: a query for the empty value of a label that no entry has. */
  lemma EmptyValueLost(cfg: Config, e: LogEntry, key: string, id: string) returns (steps: seq<Step>, s: State)
    requires e.labels == map[] && Storable(cfg, e, e, id, [])
    ensures IsRun(cfg, steps, s) && s.flow.accepted == [e, e] && s.store.indexed == {id}
    ensures Lost(cfg, s, id, At(e.timestamp, "", map[key := ""]))
  {
    var req := At(e.timestamp, "", map[key := ""]);
    steps, s := PairRun(cfg, e, e, id, []);
    HasMatchAt(req, [e, e], 0);
    assert key in req.labels;
    HiddenIsLost(cfg, s, id, req);
  }

  /** Clean labels: two label maps with one dedup text, and a query for the second. */
  lemma CollisionLost(cfg: Config, e: LogEntry, e': LogEntry, id: string) returns (steps: seq<Step>, s: State)
    requires e.labels == map["a" := "1,b=2"] && e'.labels == map["a" := "1", "b" := "2"]
    requires Storable(cfg, e, e', id, [e.labels])
    ensures IsRun(cfg, steps, s) && s.flow.accepted == [e, e'] && s.store.indexed == {id}
    ensures Lost(cfg, s, id, At(e'.timestamp, "", map["b" := "2"]))
  {
    var req := At(e'.timestamp, "", map["b" := "2"]);
    steps, s := PairRun(cfg, e, e', id, [e.labels]);
    CollisionLosesSet(e, e');
    HasMatchAt(req, [e, e'], 1);
    HiddenIsLost(cfg, s, id, req);
  }

  /** An index: the write is best-effort, so a flush can be reported without one. */
  lemma UnindexedLost(cfg: Config, e: LogEntry, id: string, sets: seq<Labels>) returns (steps: seq<Step>, s: State)
    requires ConfigOk(cfg) && CodecOk(cfg.codec) && Accepts(cfg.minLevel, e) && cfg.codec.enc(e).Some?
    requires IsId(id) && Collected([e], sets)
    ensures IsRun(cfg, steps, s) && s.flow.accepted == [e] && s.flow.flushed == [JobOf(AddToBatch(EMPTY, e))]
    ensures s.flow.failed == [] && s.store.stored == {id} && s.store.indexed == {}
    ensures Lost(cfg, s, id, At(e.timestamp, "", map[]))
    ensures forall s3, req | Snapshot(s.store, s3) :: FullResult(cfg, s3, req) == []
  {
    steps, s := UnindexedRun(cfg, e, id, sets);
    HasMatchAt(At(e.timestamp, "", map[]), [e], 0);
    forall s3, req | Snapshot(s.store, s3)
      ensures FullResult(cfg, s3, req) == []
    {
      NeverFound(cfg, s, req, []);
    }
  }

  lemma UnindexedRun(cfg: Config, e: LogEntry, id: string, sets: seq<Labels>) returns (steps: seq<Step>, s: State)
    requires Accepts(cfg.minLevel, e) && cfg.codec.enc(e).Some? && IsId(id) && Collected([e], sets)
    ensures IsRun(cfg, steps, s) && s.flow.accepted == [e] && s.flow.flushed == [JobOf(AddToBatch(EMPTY, e))]
    ensures s.flow.failed == [] && s.store.stored == {id} && s.store.indexed == {}
    ensures id in s.store.begun && s.store.begun[id].entries == [e]
  {
    var s0 := Started(cfg);
    var s1 := OneMore(cfg, [Restart(true)], s0, e);
    steps := [Restart(true)] + [Add(e, NoFault)];
    s := InFlight(cfg, steps, s1);
    steps := steps + [Tick] + [Dequeue];
    steps, s := FlushRun(cfg, steps, s, JobOf(AddToBatch(EMPTY, e)), id, sets, false);
  }
}
