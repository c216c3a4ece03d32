/** internal/exporter/exporter.go: the export job, its batching loop and the bulk
    indexing of each batch with retries. */
module Exporter {
  import opened Seqs
  import opened Calendar
  import opened Domain
  import opened Keys
  import opened Query
  import Retry

  const DEFAULT_BATCH := 1000

  datatype Exporter = Exporter(env: Env, batchSize: int)

  function NewExporter(env: Env, batchSize: int): (e: Exporter)
    ensures e.batchSize > 0
    ensures e.batchSize == batchSize <==> batchSize > 0
    ensures batchSize <= 0 ==> e.batchSize == 1000
  {
    Exporter(env, if batchSize <= 0 then DEFAULT_BATCH else batchSize)
  }

  datatype Status = Pending | Running | Completed | Failed

  /** domain.ExportJob. Its criteria are the entry filter of a query without a level. */
  class ExportJob {
    const id: string
    const criteria: Request
    var status: Status
    var chunksTotal: nat
    var chunksProcessed: nat
    var logsExported: nat
    var errorCount: nat
    var error: string

    constructor (id: string, start: int, end: int, service: string, labels: Labels)
      ensures this.id == id && criteria == Request(start, end, service, labels, "", 0)
      ensures status == Pending && chunksTotal == chunksProcessed == logsExported == errorCount == 0 && error == ""
    {
      this.id := id;
      criteria := Request(start, end, service, labels, "", 0);
      status := Pending;
      chunksTotal, chunksProcessed, logsExported, errorCount, error := 0, 0, 0, 0, "";
    }
  }

  // ---- which objects a job reads ----

  /** What timePrefixes puts in front of the day. */
  function ServicePath(service: string): string { if service == "" then "" else service + "/" }

  function JobPrefixes(env: Env, req: Request): seq<string> {
    DayRange(env.s3Prefix + ServicePath(req.service), Day(req.start), Day(req.end))
  }

  ghost predicate JobListable(env: Env, s3: Reads, req: Request) {
    forall p | p in JobPrefixes(env, req) :: p !in s3.unlistable
  }

  function JobKeys(env: Env, s3: Reads, req: Request): seq<string> {
    Visited(s3.keys, JobPrefixes(env, req))
  }

  method ListAll(env: Env, s3: Reads, req: Request) returns (r: Result<seq<string>>)
    ensures r == if JobListable(env, s3, req) then Ok(JobKeys(env, s3, req)) else Err
  {
    var prefixes := DayPrefixes(env.s3Prefix + ServicePath(req.service), req.start, req.end);
    r := ListPrefixes(s3, prefixes);
  }

  method ListPrefixes(s3: Reads, prefixes: seq<string>) returns (r: Result<seq<string>>)
    ensures r == if forall p | p in prefixes :: p !in s3.unlistable then Ok(Visited(s3.keys, prefixes)) else Err
  {
    var all: seq<string> := [];
    for i := 0 to |prefixes|
      invariant all + Visited(s3.keys, prefixes[i..]) == Visited(s3.keys, prefixes)
      invariant forall j | 0 <= j < i :: prefixes[j] !in s3.unlistable
    {
      if prefixes[i] in s3.unlistable {
        return Err;
      }
      var keys := ListUnder(s3.keys, prefixes[i]);
      VisitedStep(s3.keys, prefixes, i, all);
      all := all + keys;
    }
    assert all == Visited(s3.keys, prefixes);
    return Ok(all);
  }

  /** Listed keys are full keys, so they are fetched without the prefix. */
  function Raw(env: Env): Env { env.(s3Prefix := "") }

  function Readable(env: Env, s3: Reads, key: string): Result<seq<LogEntry>> { Fetched(Raw(env), s3, key) }

  /** The matching entries of one object; none if it cannot be read. */
  function KeyMatches(env: Env, s3: Reads, req: Request, key: string): seq<LogEntry> {
    match Readable(env, s3, key)
    case Err => []
    case Ok(es) => Matching(req, es)
  }

  /** The filtered entries of the readable objects, in listing order. */
  function Selected(env: Env, s3: Reads, req: Request, keys: seq<string>): seq<LogEntry> {
    if keys == [] then [] else KeyMatches(env, s3, req, keys[0]) + Selected(env, s3, req, keys[1..])
  }

  function Unreadable(env: Env, s3: Reads, keys: seq<string>): nat {
    if keys == [] then 0 else (if Readable(env, s3, keys[0]).Err? then 1 else 0) + Unreadable(env, s3, keys[1..])
  }

  lemma {:induction false} SelectedConcat(env: Env, s3: Reads, req: Request, a: seq<string>, b: seq<string>)
    ensures Selected(env, s3, req, a + b) == Selected(env, s3, req, a) + Selected(env, s3, req, b)
  {
    if a == [] {
      assert a + b == b;
    } else {
      assert (a + b)[1..] == a[1..] + b && (a + b)[0] == a[0];
      SelectedConcat(env, s3, req, a[1..], b);
      Assoc(KeyMatches(env, s3, req, a[0]), Selected(env, s3, req, a[1..]), Selected(env, s3, req, b));
    }
  }

  lemma {:induction false} UnreadableConcat(env: Env, s3: Reads, a: seq<string>, b: seq<string>)
    ensures Unreadable(env, s3, a + b) == Unreadable(env, s3, a) + Unreadable(env, s3, b)
  {
    if a == [] {
      assert a + b == b;
    } else {
      assert (a + b)[1..] == a[1..] + b && (a + b)[0] == a[0];
      UnreadableConcat(env, s3, a[1..], b);
    }
  }

  lemma KeysSnoc(env: Env, s3: Reads, req: Request, keys: seq<string>, i: nat)
    requires i < |keys|
    ensures Selected(env, s3, req, keys[..i + 1])
            == Selected(env, s3, req, keys[..i]) + KeyMatches(env, s3, req, keys[i])
    ensures Unreadable(env, s3, keys[..i + 1])
         == Unreadable(env, s3, keys[..i]) + if Readable(env, s3, keys[i]).Err? then 1 else 0
  {
    assert keys[..i + 1] == keys[..i] + [keys[i]];
    SelectedConcat(env, s3, req, keys[..i], [keys[i]]);
    UnreadableConcat(env, s3, keys[..i], [keys[i]]);
    assert [keys[i]][1..] == [];
  }

  // ---- batches ----

  /** s cut into pieces of n, the last one possibly shorter. */
  function Chop<T>(s: seq<T>, n: int): seq<seq<T>>
    requires n > 0
    decreases |s|
  {
    if s == [] then [] else if |s| <= n then [s] else [s[..n]] + Chop(s[n..], n)
  }

  ghost predicate AllOf<T>(bs: seq<seq<T>>, n: int) { forall i | 0 <= i < |bs| :: |bs[i]| == n }

  /** Cutting loses, repeats and reorders nothing; all pieces but the last are full. */
  lemma {:induction false} ChopShape<T>(s: seq<T>, n: int)
    requires n > 0
    ensures var bs := Chop(s, n);
            Flatten(bs) == s && (bs == [] <==> s == []) &&
            (bs != [] ==> AllOf(bs[..|bs| - 1], n) && 1 <= |bs[|bs| - 1]| <= n)
    decreases |s|
  {
    if |s| > n {
      var rest := Chop(s[n..], n);
      ChopShape(s[n..], n);
      var bs := [s[..n]] + rest;
      assert bs[1..] == rest && s == s[..n] + s[n..];
      assert bs[..|bs| - 1] == [s[..n]] + rest[..|rest| - 1];
    } else if s != [] {
      assert [s][1..] == [] && [s][..0] == [];
    }
  }

  /** Full pieces followed by a shorter rest are how their concatenation is cut. */
  lemma {:induction false} ChopFull<T>(full: seq<seq<T>>, rest: seq<T>, n: int)
    requires n > 0 && AllOf(full, n) && |rest| < n
    ensures Chop(Flatten(full) + rest, n) == full + (if rest == [] then [] else [rest])
  {
    if full == [] {
      assert Flatten(full) + rest == rest;
    } else {
      var s, more := Flatten(full) + rest, Flatten(full[1..]) + rest;
      assert s == full[0] + more;
      assert s[..n] == full[0] && s[n..] == more;
      ChopFull(full[1..], rest, n);
      assert full == [full[0]] + full[1..];
      if |s| <= n {
        assert more == [];
      }
    }
  }

  // ---- bulkIndexWithRetry ----

  /** retry.DefaultOptions, in seconds. */
  const DEFAULT_OPTIONS := Retry.Options(3, 0.2, 10.0)

  /** One turn of the retry loop: the context is done before it, what BulkIndex answers
      (a count, or an error and no count), the wait drawn, the context done while waiting. */
  datatype Attempt = Attempt(ctxDone: bool, reply: Option<nat>, wait: real, cancelledWaiting: bool)

  /** The count of the first answered attempt, from attempt i on. */
  function Settled(at: nat -> Attempt, i: nat): Option<nat>
    decreases 3 - i
  {
    if i >= 3 || at(i).ctxDone then None
    else if at(i).reply.Some? then at(i).reply
    else if i < 2 && at(i).cancelledWaiting then None
    else Settled(at, i + 1)
  }

  /** Whatever the failures and cancellations: a batch that fails counts for nothing. */
  method BulkIndexWithRetry(at: nat -> Attempt) returns (indexed: nat, failed: bool)
    ensures failed <==> Settled(at, 0) == None
    ensures indexed == if Settled(at, 0).Some? then Settled(at, 0).value else 0
  {
    var world := (i: nat) => Retry.Turn(at(i).ctxDone, at(i).reply.Some?, at(i).wait, at(i).cancelledWaiting);
    var r, calls, waits, waited := Retry.Do(DEFAULT_OPTIONS, world);
    indexed := 0;
    if calls > 0 && at(calls - 1).reply.Some? {
      indexed := at(calls - 1).reply.value;
    }
    failed := r != Retry.Nil;
    SettledAfter(at, calls, r == Retry.ContextError);
  }

  lemma SettledAfter(at: nat -> Attempt, calls: nat, stopped: bool)
    requires calls <= 3
    requires forall i | 0 <= i < calls - 1 :: at(i).reply == None && !at(i).cancelledWaiting
    requires forall i | 0 <= i < calls :: !at(i).ctxDone
    requires stopped ==> calls < 3 && (at(calls).ctxDone || (calls > 0 && at(calls - 1).cancelledWaiting))
                         && !(calls > 0 && at(calls - 1).reply.Some?)
    requires !stopped ==> calls == 3 || (calls > 0 && at(calls - 1).reply.Some?)
    ensures Settled(at, 0) == if calls > 0 then (if at(calls - 1).reply.Some? then at(calls - 1).reply else None)
            else None
  {
    assert Settled(at, 3) == None;
  }

  /** A sink answers attempt j at batch k. */
  type Sink = nat -> (nat -> Attempt)

  function Unanswered(sink: Sink): nat -> bool { (k: nat) => Settled(sink(k), 0).None? }

  function FailedBatches(sink: Sink, n: nat): nat { CountTrue(Unanswered(sink), n) }

  /** What one batch adds to the exported logs: nothing when it failed. */
  function CountOf(at: nat -> Attempt): nat {
    if Settled(at, 0).Some? then Settled(at, 0).value else 0
  }

  /** One count per batch. */
  function Counts(sink: Sink, n: nat): (r: seq<nat>)
    ensures |r| == n && forall k | 0 <= k < n :: r[k] == CountOf(sink(k))
  {
    if n == 0 then [] else Counts(sink, n - 1) + [CountOf(sink(n - 1))]
  }

  lemma CountsSnoc(sink: Sink, n: nat)
    ensures Total(Counts(sink, n + 1)) == Total(Counts(sink, n)) + CountOf(sink(n))
  {
    TotalConcat(Counts(sink, n), [CountOf(sink(n))]);
    TotalConcat([CountOf(sink(n))], []);
  }

  /** The batches that failed, among the first n. */
  ghost function FailedAt(sink: Sink, n: nat): set<nat> { set k: nat | k < n && Unanswered(sink)(k) }

  /** The objects that cannot be read, by position. */
  ghost function UnreadableAt(env: Env, s3: Reads, keys: seq<string>): set<nat> {
    set i: nat | i < |keys| && Readable(env, s3, keys[i]).Err?
  }

  lemma FailedCounted(sink: Sink, n: nat)
    ensures FailedBatches(sink, n) == |FailedAt(sink, n)|
  {
    CountTrueSet(Unanswered(sink), n, FailedAt(sink, n));
  }

  lemma {:induction false} UnreadableCounted(env: Env, s3: Reads, keys: seq<string>)
    ensures Unreadable(env, s3, keys) == |UnreadableAt(env, s3, keys)|
  {
    if keys != [] {
      var n := |keys| - 1;
      UnreadableCounted(env, s3, keys[..n]);
      UnreadableConcat(env, s3, keys[..n], [keys[n]]);
      InitLast(keys);
      assert [keys[n]][1..] == [];
      OneMore((i: nat) => i < |keys| && Readable(env, s3, keys[i]).Err?, n,
              UnreadableAt(env, s3, keys[..n]), UnreadableAt(env, s3, keys));
    }
  }

  /** Batches that are all acknowledged in full, or all unanswered. */
  lemma {:induction false} AllOrNothing(sink: Sink, sent: seq<seq<LogEntry>>)
    ensures (forall k | 0 <= k < |sent| :: Settled(sink(k), 0) == Some(|sent[k]|))
            ==> Total(Counts(sink, |sent|)) == |Flatten(sent)|
    ensures (forall k | 0 <= k < |sent| :: Settled(sink(k), 0) == None)
            ==> Total(Counts(sink, |sent|)) == 0 && FailedBatches(sink, |sent|) == |sent|
  {
    if sent != [] {
      var n := |sent| - 1;
      AllOrNothing(sink, sent[..n]);
      CountsSnoc(sink, n);
      FlattenSnoc(sent[..n], sent[n]);
      InitLast(sent);
      assert forall k | 0 <= k < n :: sent[..n][k] == sent[k];
    }
  }

  // ---- Run ----

  /** Send one batch; sent is the number of batches before it. */
  method Send(job: ExportJob, sink: Sink, sent: nat, total: nat) returns (total': nat)
    requires total == Total(Counts(sink, sent))
    modifies job`errorCount
    ensures total' == Total(Counts(sink, sent + 1))
    ensures job.errorCount == old(job.errorCount) + FailedBatches(sink, sent + 1) - FailedBatches(sink, sent)
  {
    var indexed, failed := BulkIndexWithRetry(sink(sent));
    if failed {
      job.errorCount := job.errorCount + 1;
    }
    total' := total + indexed;
    CountsSnoc(sink, sent);
  }

  /** Full batches were cut from the front, and nothing else happened to the entries. */
  ghost predicate SameEntries<T>(n: int, before: seq<seq<T>>, pendingBefore: seq<T>, sent: seq<seq<T>>,
                                 pending: seq<T>) {
    AllOf(sent, n) && Flatten(sent) + pending == Flatten(before) + pendingBefore
  }

  lemma BatchTaken<T>(n: int, before: seq<seq<T>>, pendingBefore: seq<T>, sent: seq<seq<T>>, pending: seq<T>)
    requires n > 0 && SameEntries(n, before, pendingBefore, sent, pending) && |pending| >= n
    ensures SameEntries(n, before, pendingBefore, sent + [pending[..n]], pending[n..])
  {
    Assoc(Flatten(sent), pending[..n], pending[n..]);
    FlattenSnoc(sent, pending[..n]);
    assert pending == pending[..n] + pending[n..];
  }

  /** The inner loop: send full batches while there are any. */
  method SendFull(job: ExportJob, sink: Sink, n: int, before: seq<seq<LogEntry>>, pendingBefore: seq<LogEntry>,
                  totalBefore: nat)
    returns (sent: seq<seq<LogEntry>>, pending: seq<LogEntry>, total: nat)
    requires n > 0 && AllOf(before, n) && totalBefore == Total(Counts(sink, |before|))
    modifies job`errorCount
    ensures |pending| < n && SameEntries(n, before, pendingBefore, sent, pending)
    ensures total == Total(Counts(sink, |sent|))
    ensures job.errorCount - FailedBatches(sink, |sent|) == old(job.errorCount) - FailedBatches(sink, |before|)
  {
    sent, pending, total := before, pendingBefore, totalBefore;
    while |pending| >= n
      invariant SameEntries(n, before, pendingBefore, sent, pending)
      invariant total == Total(Counts(sink, |sent|))
      invariant job.errorCount - FailedBatches(sink, |sent|) == old(job.errorCount) - FailedBatches(sink, |before|)
    {
      var batch := pending[..n];
      total := Send(job, sink, |sent|, total);
      BatchTaken(n, before, pendingBefore, sent, pending);
      sent, pending := sent + [batch], pending[n..];
    }
  }

  /** Where the job stands after the first i objects, apart from its status. */
  ghost predicate Progress(e: Exporter, s3: Reads, req: Request, sink: Sink, keys: seq<string>,
                           sent: seq<seq<LogEntry>>, pending: seq<LogEntry>, total: nat, errors: int)
    requires e.batchSize > 0
  {
    && AllOf(sent, e.batchSize) && |pending| < e.batchSize
    && Flatten(sent) + pending == Selected(e.env, s3, req, keys)
    && total == Total(Counts(sink, |sent|))
    && errors == Unreadable(e.env, s3, keys) + FailedBatches(sink, |sent|)
  }

  /** The loop body: one object is filtered into the pending batch. */
  method ExportChunk(e: Exporter, s3: Reads, job: ExportJob, sink: Sink, keys: seq<string>, i: nat,
                     before: seq<seq<LogEntry>>, pendingBefore: seq<LogEntry>, totalBefore: nat, ghost errors: int)
    returns (sent: seq<seq<LogEntry>>, pending: seq<LogEntry>, total: nat)
    requires e.batchSize > 0 && i < |keys|
    requires Progress(e, s3, job.criteria, sink, keys[..i], before, pendingBefore, totalBefore, job.errorCount - errors)
    modifies job`errorCount, job`chunksProcessed
    ensures Progress(e, s3, job.criteria, sink, keys[..i + 1], sent, pending, total, job.errorCount - errors)
    ensures job.chunksProcessed == old(job.chunksProcessed) + 1
  {
    KeysSnoc(e.env, s3, job.criteria, keys, i);
    var entries := FetchAndFilter(Raw(e.env), s3, keys[i], job.criteria);
    if entries.Err? {
      job.errorCount := job.errorCount + 1;
      sent, pending, total := before, pendingBefore, totalBefore;
    } else {
      var matched := entries.value.0;
      Assoc(Flatten(before), pendingBefore, matched);
      sent, pending, total := SendFull(job, sink, e.batchSize, before, pendingBefore + matched, totalBefore);
    }
    job.chunksProcessed := job.chunksProcessed + 1;
  }

  /** The last batch, which may be short. */
  method SendRest(e: Exporter, s3: Reads, job: ExportJob, sink: Sink, ghost keys: seq<string>,
                  before: seq<seq<LogEntry>>, pending: seq<LogEntry>, totalBefore: nat, ghost errors: int)
    returns (sent: seq<seq<LogEntry>>, total: nat)
    requires e.batchSize > 0
    requires Progress(e, s3, job.criteria, sink, keys, before, pending, totalBefore, job.errorCount - errors)
    modifies job`errorCount
    ensures sent == Chop(Selected(e.env, s3, job.criteria, keys), e.batchSize)
    ensures total == Total(Counts(sink, |sent|))
    ensures job.errorCount - errors == Unreadable(e.env, s3, keys) + FailedBatches(sink, |sent|)
  {
    sent, total := before, totalBefore;
    ChopFull(sent, pending, e.batchSize);
    if |pending| > 0 {
      total := Send(job, sink, |sent|, total);
      sent := sent + [pending];
    }
  }

  lemma Totals(e: Exporter, s3: Reads, sink: Sink, keys: seq<string>, selected: seq<LogEntry>, sent: seq<seq<LogEntry>>)
    requires e.batchSize > 0 && sent == Chop(selected, e.batchSize)
    ensures Unreadable(e.env, s3, keys) == |UnreadableAt(e.env, s3, keys)|
    ensures FailedBatches(sink, |sent|) == |FailedAt(sink, |sent|)|
    ensures (forall k | 0 <= k < |sent| :: Settled(sink(k), 0) == Some(|sent[k]|))
            ==> Total(Counts(sink, |sent|)) == |selected|
    ensures (forall k | 0 <= k < |sent| :: Settled(sink(k), 0) == None)
            ==> Total(Counts(sink, |sent|)) == 0 && |FailedAt(sink, |sent|)| == |sent|
  {
    UnreadableCounted(e.env, s3, keys);
    FailedCounted(sink, |sent|);
    AllOrNothing(sink, sent);
    ChopShape(selected, e.batchSize);
  }

  /** How far a job got when it was cancelled before object i: full batches only, and
      less than a batch held back. */
  ghost predicate Interrupted(e: Exporter, s3: Reads, req: Request, keys: seq<string>, sent: seq<seq<LogEntry>>)
  {
    AllOf(sent, e.batchSize) &&
    exists pending :: |pending| < e.batchSize && Flatten(sent) + pending == Selected(e.env, s3, req, keys)
  }

  lemma StoppedEarly(e: Exporter, s3: Reads, req: Request, sink: Sink, keys: seq<string>,
                     sent: seq<seq<LogEntry>>, pending: seq<LogEntry>, total: nat, errors: int)
    requires e.batchSize > 0 && Progress(e, s3, req, sink, keys, sent, pending, total, errors)
    ensures Interrupted(e, s3, req, keys, sent)
    ensures errors == |UnreadableAt(e.env, s3, keys)| + |FailedAt(sink, |sent|)|
  {
    UnreadableCounted(e.env, s3, keys);
    FailedCounted(sink, |sent|);
  }

  /** Run. cancelled is the first object before which the context is done, cause the text of
      the listing's or the context's error; sent lists the batches handed to bulk indexing. */
  method Run(e: Exporter, s3: Reads, job: ExportJob, sink: Sink, cancelled: nat, cause: string)
    returns (ok: bool, sent: seq<seq<LogEntry>>)
    requires e.batchSize > 0
    modifies job
    ensures ok <==> JobListable(e.env, s3, job.criteria) && cancelled >= |JobKeys(e.env, s3, job.criteria)|
    ensures ok ==>
      var keys := JobKeys(e.env, s3, job.criteria);
      && job.status == Completed
      && sent == Chop(Selected(e.env, s3, job.criteria, keys), e.batchSize)
      && job.chunksTotal == |keys| && job.chunksProcessed == old(job.chunksProcessed) + |keys|
      && job.errorCount == old(job.errorCount)
                           + |UnreadableAt(e.env, s3, keys)|
                           + |FailedAt(sink, |sent|)|
      && job.logsExported == Total(Counts(sink, |sent|))
    ensures ok && (forall k | 0 <= k < |sent| :: Settled(sink(k), 0) == Some(|sent[k]|)) ==>
      job.logsExported == |Selected(e.env, s3, job.criteria, JobKeys(e.env, s3, job.criteria))|
    ensures ok && (forall k | 0 <= k < |sent| :: Settled(sink(k), 0) == None) ==>
      var keys := JobKeys(e.env, s3, job.criteria);
      && job.logsExported == 0
      && job.errorCount == old(job.errorCount) + |UnreadableAt(e.env, s3, keys)| + |sent|
    ensures ok ==> job.error == if job.errorCount > 0 then IntText(job.errorCount) + " errors during export"
            else old(job.error)
    ensures !ok ==> job.status == Failed && job.error == cause && job.logsExported == old(job.logsExported)
    ensures !JobListable(e.env, s3, job.criteria) ==>
      sent == [] && job.chunksTotal == old(job.chunksTotal) && job.chunksProcessed == old(job.chunksProcessed)
      && job.errorCount == old(job.errorCount)
    ensures !ok && JobListable(e.env, s3, job.criteria) ==>
      var keys := JobKeys(e.env, s3, job.criteria);
      && job.chunksTotal == |keys| && job.chunksProcessed == old(job.chunksProcessed) + cancelled
      && Interrupted(e, s3, job.criteria, keys[..cancelled], sent)
      && job.errorCount == old(job.errorCount)
                           + |UnreadableAt(e.env, s3, keys[..cancelled])|
                           + |FailedAt(sink, |sent|)|
  {
    job.status := Running;
    var listed := ListAll(e.env, s3, job.criteria);
    if listed.Err? {
      job.status, job.error := Failed, cause;
      return false, [];
    }
    job.chunksTotal := |listed.value|;
    ok, sent := RunKeys(e, s3, job, sink, listed.value, cancelled, cause);
  }

  /** Run behind the listing. */
  method RunKeys(e: Exporter, s3: Reads, job: ExportJob, sink: Sink, keys: seq<string>, cancelled: nat, cause: string)
    returns (ok: bool, sent: seq<seq<LogEntry>>)
    requires e.batchSize > 0
    modifies job
    ensures ok <==> cancelled >= |keys|
    ensures job.chunksTotal == old(job.chunksTotal)
    ensures job.chunksProcessed == old(job.chunksProcessed) + if ok then |keys| else cancelled
    ensures ok ==> job.status == Completed && sent == Chop(Selected(e.env, s3, job.criteria, keys), e.batchSize)
    ensures ok ==> job.logsExported == Total(Counts(sink, |sent|))
    ensures ok ==> job.errorCount == old(job.errorCount) + |UnreadableAt(e.env, s3, keys)| + |FailedAt(sink, |sent|)|
    ensures ok && (forall k | 0 <= k < |sent| :: Settled(sink(k), 0) == Some(|sent[k]|)) ==>
      job.logsExported == |Selected(e.env, s3, job.criteria, keys)|
    ensures ok && (forall k | 0 <= k < |sent| :: Settled(sink(k), 0) == None) ==>
      job.logsExported == 0 && |FailedAt(sink, |sent|)| == |sent|
    ensures ok ==> job.error == if job.errorCount > 0 then IntText(job.errorCount) + " errors during export"
            else old(job.error)
    ensures !ok ==> job.status == Failed && job.error == cause && job.logsExported == old(job.logsExported)
    ensures !ok ==> Interrupted(e, s3, job.criteria, keys[..cancelled], sent)
    ensures !ok ==>
      job.errorCount == old(job.errorCount) + |UnreadableAt(e.env, s3, keys[..cancelled])| + |FailedAt(sink, |sent|)|
  {
    ghost var errors: int := job.errorCount;
    var pending, total;
    ok, sent, pending, total := ExportChunks(e, s3, job, sink, keys, cancelled);
    if !ok {
      job.status, job.error := Failed, cause;
      return;
    }
    sent := Complete(e, s3, job, sink, keys, sent, pending, total, errors);
  }

  /** Run behind the loop over the objects. */
  method Complete(e: Exporter, s3: Reads, job: ExportJob, sink: Sink, ghost keys: seq<string>,
                  before: seq<seq<LogEntry>>, pending: seq<LogEntry>, totalBefore: nat, ghost errors: int)
    returns (sent: seq<seq<LogEntry>>)
    requires e.batchSize > 0
    requires Progress(e, s3, job.criteria, sink, keys, before, pending, totalBefore, job.errorCount - errors)
    modifies job`errorCount, job`logsExported, job`status, job`error
    ensures job.status == Completed && sent == Chop(Selected(e.env, s3, job.criteria, keys), e.batchSize)
    ensures job.logsExported == Total(Counts(sink, |sent|))
    ensures job.errorCount == errors + |UnreadableAt(e.env, s3, keys)| + |FailedAt(sink, |sent|)|
    ensures (forall k | 0 <= k < |sent| :: Settled(sink(k), 0) == Some(|sent[k]|)) ==>
      job.logsExported == |Selected(e.env, s3, job.criteria, keys)|
    ensures (forall k | 0 <= k < |sent| :: Settled(sink(k), 0) == None) ==>
      job.logsExported == 0 && |FailedAt(sink, |sent|)| == |sent|
    ensures job.error == if job.errorCount > 0 then IntText(job.errorCount) + " errors during export"
            else old(job.error)
  {
    var total;
    sent, total := SendRest(e, s3, job, sink, keys, before, pending, totalBefore, errors);
    Totals(e, s3, sink, keys, Selected(e.env, s3, job.criteria, keys), sent);
    job.logsExported := total;
    job.status := Completed;
    if job.errorCount > 0 {
      job.error := IntText(job.errorCount) + " errors during export";
    }
  }

  /** The loop over the objects, up to the one before which the context is done. */
  method ExportChunks(e: Exporter, s3: Reads, job: ExportJob, sink: Sink, keys: seq<string>, cancelled: nat)
    returns (ok: bool, sent: seq<seq<LogEntry>>, pending: seq<LogEntry>, total: nat)
    requires e.batchSize > 0
    modifies job`errorCount, job`chunksProcessed
    ensures ok <==> cancelled >= |keys|
    ensures job.chunksProcessed == old(job.chunksProcessed) + if ok then |keys| else cancelled
    ensures ok ==> Progress(e, s3, job.criteria, sink, keys, sent, pending, total, job.errorCount - old(job.errorCount))
    ensures !ok ==> Interrupted(e, s3, job.criteria, keys[..cancelled], sent)
    ensures !ok ==>
      job.errorCount == old(job.errorCount) + |UnreadableAt(e.env, s3, keys[..cancelled])| + |FailedAt(sink, |sent|)|
  {
    ghost var errors: int := job.errorCount;
    sent, pending, total := [], [], 0;
    var i := 0;
    while i < |keys|
      invariant 0 <= i <= |keys| && i <= cancelled
      invariant job.chunksProcessed == old(job.chunksProcessed) + i
      invariant Progress(e, s3, job.criteria, sink, keys[..i], sent, pending, total, job.errorCount - errors)
    {
      if i >= cancelled {
        StoppedEarly(e, s3, job.criteria, sink, keys[..i], sent, pending, total, job.errorCount - errors);
        return false, sent, pending, total;
      }
      sent, pending, total := ExportChunk(e, s3, job, sink, keys, i, sent, pending, total, errors);
      i := i + 1;
    }
    assert keys[..i] == keys;
    return true, sent, pending, total;
  }
}
