/** Crash durability: what the WAL holds in every reachable state, and therefore what
    a restart rebuilds, whatever happened to the flushes. */
module Durability {
  import opened Seqs
  import opened Domain
  import opened Lines
  import opened Wal
  import opened Batches
  import opened Pipeline
  import LabelSets
  import Keys

  ghost predicate WalInv(cfg: Config, s: State) {
    Holds(cfg.codec, s.wal.file, s.log)
  }

  lemma AppendKeeps(cfg: Config, s: State, e: LogEntry, f: WriteFault)
    requires ConfigOk(cfg) && WalInv(cfg, s)
    ensures var (wal, log) := WalAfter(cfg, s, e, f); Holds(cfg.codec, wal.file, log)
  {
    AppendHolds(cfg.codec, s.wal, s.log, e, f);
  }

  lemma StepKeepsWal(cfg: Config, s: State, step: Step)
    requires ConfigOk(cfg) && WalInv(cfg, s) && Enabled(cfg, s, step)
    ensures WalInv(cfg, Next(cfg, s, step))
  {
    match step
    case Add(e, f) => AppendKeeps(cfg, s, e, f);
    case Crash(during) => if during.Some? { AppendKeeps(cfg, s, during.value.0, during.value.1); }
    case StopReset(f) => EmptyHolds(cfg.codec);
    case _ =>
  }

  lemma {:induction false} RunKeepsWal(cfg: Config, s: State, steps: seq<Step>, s': State)
    requires ConfigOk(cfg) && WalInv(cfg, s) && After(cfg, s, steps) == Some(s')
    ensures WalInv(cfg, s')
    decreases |steps|
  {
    if steps != [] {
      StepKeepsWal(cfg, s, steps[0]);
      RunKeepsWal(cfg, Next(cfg, s, steps[0]), steps[1..], s');
    }
  }

  lemma ReachableWal(cfg: Config, s: State)
    requires ConfigOk(cfg) && Reachable(cfg, s)
    ensures WalInv(cfg, s)
  {
    var steps :| IsRun(cfg, steps, s);
    EmptyHolds(cfg.codec);
    RunKeepsWal(cfg, INIT, steps, s);
  }

  /** The batch of the process started right after this one is killed. */
  ghost function Rebuilt(cfg: Config, s: State): seq<LogEntry> {
    RestartStep(cfg, CrashStep(cfg, s, None), true).proc.batch.entries
  }

  lemma RebuiltReplay(cfg: Config, s: State)
    requires cfg.hasWal
    ensures Rebuilt(cfg, s) == Replay(cfg.codec, s.wal.file)
  {
    AddAllDescribes(EMPTY, Replay(cfg.codec, s.wal.file));
  }

  /** Durability exactly, for every run with any mixture of torn writes, failed syncs,
      flush failures and crashes: one over-long line loses everything; otherwise every
      line written since the last truncation comes back in order as its outcome. */
  lemma RestartExact(cfg: Config, s: State)
    requires ConfigOk(cfg) && cfg.hasWal && Reachable(cfg, s)
    ensures Written(cfg.codec, s.log)
    ensures Rebuilt(cfg, s)
         == if AnyTooLong(LogLines(cfg.codec, s.log)) || TooLong(Tail(s.wal.file)) then []
            else Outcomes(cfg.codec, s.log) +
                 (if Tail(s.wal.file) == [] then [] else Opt(cfg.codec.dec(DropCR(Tail(s.wal.file)))))
  {
    ReachableWal(cfg, s);
    RebuiltReplay(cfg, s);
    ReplayExact(cfg.codec, s.wal.file, s.log);
  }

  // ---- acknowledged entries of a run ----

  ghost predicate Acknowledges(cfg: Config, s: State, step: Step) {
    step.Add? && cfg.hasWal && Accepts(cfg.minLevel, step.entry)
        && AppendWal(cfg.codec, s.wal, step.entry, step.fault).1
  }

  predicate Truncates(cfg: Config, step: Step) {
    cfg.hasWal && step.StopReset? && !step.reset.TruncateFailed?
  }

  /** Entries whose WAL append succeeded since the last truncation, read off the run. */
  ghost function AckedInRun(cfg: Config, s: State, steps: seq<Step>, before: seq<LogEntry>): seq<LogEntry>
    requires After(cfg, s, steps).Some?
    decreases |steps|
  {
    if steps == [] then before
    else
      var acked := if Truncates(cfg, steps[0]) then []
                   else if Acknowledges(cfg, s, steps[0]) then before + [steps[0].entry]
                   else before;
      AckedInRun(cfg, Next(cfg, s, steps[0]), steps[1..], acked)
  }

  lemma StepAcks(cfg: Config, s: State, step: Step)
    requires ConfigOk(cfg) && WalInv(cfg, s) && Enabled(cfg, s, step)
    ensures Acked(Next(cfg, s, step).log)
         == if Truncates(cfg, step) then []
            else if Acknowledges(cfg, s, step) then Acked(s.log) + [step.entry]
            else Acked(s.log)
  {
    match step
    case Add(e, f) => if cfg.hasWal { LoggedAcks(cfg.codec, s.wal, s.log, e, f); }
    case Crash(during) =>
      if cfg.hasWal && during.Some? {
        LoggedAcks(cfg.codec, s.wal, s.log, during.value.0, during.value.1);
      }
    case _ =>
  }

  lemma LoggedAcks(c: Codec, w: WalState, log: seq<Record>, e: LogEntry, f: WriteFault)
    requires LineCodec(c)
    ensures var ok := AppendWal(c, w, e, f).1;
            Acked(Logged(c, w, log, e, f)) == Acked(log) + (if ok then [e] else [])
  {
    var (written, _, ok) := AppendBytes(c, w, e, f);
    AckedSnoc(log, Record(e, Tail(w.file), ok));
  }

  lemma {:induction false} RunAcks(cfg: Config, s: State, steps: seq<Step>, s': State)
    requires ConfigOk(cfg) && WalInv(cfg, s) && After(cfg, s, steps) == Some(s')
    ensures AckedInRun(cfg, s, steps, Acked(s.log)) == Acked(s'.log)
    decreases |steps|
  {
    if steps != [] {
      StepAcks(cfg, s, steps[0]);
      StepKeepsWal(cfg, s, steps[0]);
      RunAcks(cfg, Next(cfg, s, steps[0]), steps[1..], s');
    }
  }

  // ---- runs without torn writes and over-long lines ----

  ghost predicate QuietWrite(cfg: Config, e: LogEntry, f: WriteFault) {
    !f.ShortWrite? && (cfg.codec.enc(e).Some? ==> !TooLong(cfg.codec.enc(e).value))
  }

  ghost predicate QuietStep(cfg: Config, step: Step) {
    && (step.Add? ==> QuietWrite(cfg, step.entry, step.fault))
    && (step.Crash? && step.during.Some? ==> QuietWrite(cfg, step.during.value.0, step.during.value.1))
  }

  ghost predicate Quiet(cfg: Config, steps: seq<Step>) {
    forall step | step in steps :: QuietStep(cfg, step)
  }

  ghost predicate QuietInv(cfg: Config, s: State) {
    && WalInv(cfg, s) && Untorn(s.log) && Tail(s.wal.file) == []
    && forall r | r in s.log :: cfg.codec.enc(r.entry).Some? && !TooLong(cfg.codec.enc(r.entry).value)
  }

  lemma QuietAppend(cfg: Config, s: State, e: LogEntry, f: WriteFault)
    requires ConfigOk(cfg) && QuietInv(cfg, s) && QuietWrite(cfg, e, f)
    ensures var (wal, log) := WalAfter(cfg, s, e, f);
            Untorn(log) && Tail(wal.file) == [] &&
            forall r | r in log :: cfg.codec.enc(r.entry).Some? && !TooLong(cfg.codec.enc(r.entry).value)
  {
    AppendHolds(cfg.codec, s.wal, s.log, e, f);
  }

  lemma StepKeepsQuiet(cfg: Config, s: State, step: Step)
    requires ConfigOk(cfg) && QuietInv(cfg, s) && Enabled(cfg, s, step) && QuietStep(cfg, step)
    ensures QuietInv(cfg, Next(cfg, s, step))
  {
    StepKeepsWal(cfg, s, step);
    match step
    case Add(e, f) => QuietAppend(cfg, s, e, f);
    case Crash(during) => if during.Some? { QuietAppend(cfg, s, during.value.0, during.value.1); }
    case StopReset(f) => EmptyHolds(cfg.codec);
    case _ => OtherLeavesWal(cfg, s, step);
  }

  lemma OtherLeavesWal(cfg: Config, s: State, step: Step)
    requires Enabled(cfg, s, step) && !step.Add? && !step.Crash? && !step.StopReset?
    ensures Next(cfg, s, step).log == s.log && Next(cfg, s, step).wal.file == s.wal.file
  {
  }

  lemma {:induction false} RunKeepsQuiet(cfg: Config, s: State, steps: seq<Step>, s': State)
    requires ConfigOk(cfg) && QuietInv(cfg, s) && After(cfg, s, steps) == Some(s') && Quiet(cfg, steps)
    ensures QuietInv(cfg, s')
    decreases |steps|
  {
    if steps != [] {
      assert steps[0] in steps;
      StepKeepsQuiet(cfg, s, steps[0]);
      RunKeepsQuiet(cfg, Next(cfg, s, steps[0]), steps[1..], s');
    }
  }

  /** At-least-once: over any interleaving of adds, dispatches, failed and successful
      flushes and repeated crashes and restarts, without torn writes and over-long lines,
      killing the process now and restarting rebuilds a batch that holds every entry
      acknowledged since the last truncation, in order, flushed or not. */
  lemma CrashDurability(cfg: Config, steps: seq<Step>, s: State)
    requires ConfigOk(cfg) && cfg.hasWal && IsRun(cfg, steps, s) && Quiet(cfg, steps)
    ensures Subsequence(AckedInRun(cfg, INIT, steps, []), Rebuilt(cfg, s))
    ensures Rebuilt(cfg, s) == EntriesOf(s.log)
  {
    EmptyHolds(cfg.codec);
    RunKeepsQuiet(cfg, INIT, steps, s);
    RunAcks(cfg, INIT, steps, s);
    var lines := LogLines(cfg.codec, s.log);
    assert !AnyTooLong(lines) by {
      if i :| 0 <= i < |lines| && TooLong(lines[i]) {
        assert s.log[i] in s.log;
        assert lines[i] == [] + cfg.codec.enc(s.log[i].entry).value;
      }
    }
    ReplayUntorn(cfg.codec, s.wal.file, s.log);
    RebuiltReplay(cfg, s);
  }

  // ---- where acknowledged entries are lost ----

  /** A torn line costs the next acknowledged entry: with a decoder that rejects the
      glued line, an append that reports success is replayed exactly when the file ended
      in a finished line. */
  lemma AckSurvives(c: Codec, w: WalState, e: LogEntry)
    requires LineCodec(c) && AppendWal(c, w, e, NoFault).1
    requires !AnyTooLong(Heads(w.file)) && !TooLong(Tail(w.file) + c.enc(e).value)
    requires Tail(w.file) != [] ==> c.dec(Tail(w.file) + c.enc(e).value) == None
    ensures Replay(c, AppendWal(c, w, e, NoFault).0.file)
         == DecodeAll(c, Heads(w.file)) + (if Tail(w.file) == [] then [e] else [])
  {
    var x := c.enc(e).value;
    var glued, file := Tail(w.file) + x, w.file + x + [NL];
    assert AppendWal(c, w, e, NoFault).0.file == file by { assert w.file + (x + [NL]) == file; }
    SplitLine(w.file, x);
    assert LinesOf(file) == Heads(w.file) + [glued];
    TooLongSnoc(Heads(w.file), glued);
    DecodeSnoc(c, Heads(w.file), glued);
    assert glued[|glued| - 1] == x[|x| - 1];
    assert Tail(w.file) == [] ==> glued == x;
  }

  /** Stop with one batch left to flushLoop, whose flush fails. */
  lemma FailThenReset(cfg: Config, s: State, id: string, sets: seq<Labels>) returns (steps: seq<Step>, end: State)
    requires cfg.hasWal && s.proc.phase == Draining && s.proc.queue == []
    requires s.proc.loop.Some? && s.proc.loop.value.Waiting?
    requires Keys.IsId(id) && id !in s.store.begun && LabelSets.Collected(s.proc.loop.value.job.entries, sets)
    ensures After(cfg, s, steps) == Some(end) && end.proc.phase == Stopped
    ensures end.flow == s.flow.(failed := s.flow.failed + [s.proc.loop.value.job])
    ensures end.store.bucket == s.store.bucket && end.wal.file == []
  {
    var job := s.proc.loop.value.job;
    var s1 := StartStep(cfg, s, Loop, id, sets);
    var s2 := if Encodable(cfg.codec, job.entries) then Fail(s1, Loop) else s1;
    end := StopResetStep(cfg, s2, ResetOk);
    steps := [];
    Prepend(cfg, s2, StopReset(ResetOk), steps, end);
    steps := [StopReset(ResetOk)] + steps;
    if Encodable(cfg.codec, job.entries) {
      Prepend(cfg, s1, GiveUp(Loop), steps, end);
      steps := [GiveUp(Loop)] + steps;
    }
    Prepend(cfg, s, Start(Loop, id, sets), steps, end);
    steps := [Start(Loop, id, sets)] + steps;
  }

  lemma EmptyReplay(c: Codec)
    ensures Replay(c, []) == []
  {
    EmptyHolds(c);
    assert LinesOf([]) == [];
  }

  /** Stop truncates without asking how the flushes went: the run in which the only
      flush fails ends with the entry in no batch, no object and no log. */
  lemma StopCanLose(cfg: Config, e: LogEntry, id: string, sets: seq<Labels>) returns (steps: seq<Step>, s: State)
    requires ConfigOk(cfg) && cfg.hasWal && Accepts(cfg.minLevel, e) && Keys.IsId(id) && LabelSets.Collected([e], sets)
    ensures IsRun(cfg, steps, s) && s.proc.phase == Stopped
    ensures s.flow.accepted == [e] && s.flow.flushed == [] && s.store.bucket == map[] && Rebuilt(cfg, s) == []
  {
    EmptyReplay(cfg.codec);
    var s1 := RestartStep(cfg, INIT, true);
    var s2 := AddStep(cfg, s1, e, NoFault);
    assert s2.proc.batch.entries == [e];
    var s3 := StopDispatchStep(s2);
    var s4 := DequeueStep(s3);
    assert s4.proc.queue == [] && s4.proc.loop == Some(Waiting(JobOf(s2.proc.batch)));
    steps, s := FailThenReset(cfg, s4, id, sets);
    Prepend(cfg, s3, Dequeue, steps, s);
    steps := [Dequeue] + steps;
    Prepend(cfg, s2, StopDispatch, steps, s);
    steps := [StopDispatch] + steps;
    Prepend(cfg, s1, Add(e, NoFault), steps, s);
    steps := [Add(e, NoFault)] + steps;
    Prepend(cfg, INIT, Restart(true), steps, s);
    steps := [Restart(true)] + steps;
    RebuiltReplay(cfg, s);
  }
}
