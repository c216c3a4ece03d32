/** internal/exporter/pool.go and registry.go: the bounded pool of export jobs as a
    transition system over its goroutines, and the two objects that make its steps. */
module Pool {
  import opened Seqs
  import opened Exporter

  const DEFAULT_CONCURRENT := 4

  // ---- every interleaving of Submit, the job goroutines and Cancel ----

  /** Where an accepted job is: slot taken, registered, its goroutine launched, slot
      given back, wait group told. */
  datatype Phase = Acquired | Registered | Launched | Released | Over

  /** One accepted job, and how often it gave its slot back. */
  datatype Work = Work(id: string, phase: Phase, freed: nat, cancelled: bool)

  /** works in order of acceptance; the registry's maps name works by position. */
  datatype State = State(max: nat, sem: nat, wg: nat, works: seq<Work>,
                         jobs: map<string, nat>, cancels: map<string, nat>)

  datatype Step =
    | Acquire(id: string)
    | Register(i: nat)
    | Launch(i: nat)
    | Release(i: nat)
    | Finish(i: nat)
    | Cancel(id: string)

  function Limit(maxConcurrent: int): nat { if maxConcurrent <= 0 then DEFAULT_CONCURRENT else maxConcurrent }

  function Init(maxConcurrent: int): State { State(Limit(maxConcurrent), 0, 0, [], map[], map[]) }

  predicate InPhase(s: State, i: nat, p: Phase) { i < |s.works| && s.works[i].phase == p }

  predicate Enabled(s: State, step: Step) {
    match step
    case Acquire(_) => true
    case Register(i) => InPhase(s, i, Acquired)
    case Launch(i) => InPhase(s, i, Registered)
    case Release(i) => InPhase(s, i, Launched) && s.sem > 0
    case Finish(i) => InPhase(s, i, Released) && s.wg > 0
    case Cancel(id) => id in s.cancels ==> s.cancels[id] < |s.works|
  }

  /** The job moves on to the next phase. */
  function Moved(s: State, i: nat, p: Phase): State
    requires i < |s.works|
  {
    s.(works := s.works[i := s.works[i].(phase := p)])
  }

  function Next(s: State, step: Step): State
    requires Enabled(s, step)
  {
    match step
    case Acquire(id) =>
      if s.sem < s.max then s.(sem := s.sem + 1, works := s.works + [Work(id, Acquired, 0, false)]) else s
    case Register(i) =>
      var id := s.works[i].id;
      Moved(s, i, Registered).(jobs := s.jobs[id := i], cancels := s.cancels[id := i])
    case Launch(i) => Moved(s, i, Launched).(wg := s.wg + 1)
    case Release(i) => s.(sem := s.sem - 1,
                          works := s.works[i := s.works[i].(phase := Released, freed := s.works[i].freed + 1)])
    case Finish(i) => Moved(s, i, Over).(wg := s.wg - 1)
    case Cancel(id) =>
      if id in s.cancels then s.(works := s.works[s.cancels[id] := s.works[s.cancels[id]].(cancelled := true)]) else s
  }

  // ---- the invariant ----

  predicate HoldsSlot(w: Work) { w.phase == Acquired || w.phase == Registered || w.phase == Launched }

  predicate Awaited(w: Work) { w.phase == Launched || w.phase == Released }

  function Count(ws: seq<Work>, p: Work -> bool): nat {
    if ws == [] then 0 else (if p(ws[0]) then 1 else 0) + Count(ws[1..], p)
  }

  lemma {:induction false} CountConcat(a: seq<Work>, b: seq<Work>, p: Work -> bool)
    ensures Count(a + b, p) == Count(a, p) + Count(b, p)
  {
    if a == [] {
      assert a + b == b;
    } else {
      assert (a + b)[1..] == a[1..] + b;
      CountConcat(a[1..], b, p);
    }
  }

  lemma CountSet(ws: seq<Work>, i: nat, w: Work, p: Work -> bool)
    requires i < |ws|
    ensures Count(ws[i := w], p) == Count(ws, p) - (if p(ws[i]) then 1 else 0) + (if p(w) then 1 else 0)
  {
    var a, b := ws[..i], ws[i + 1..];
    assert ws == a + ([ws[i]] + b) && ws[i := w] == a + ([w] + b);
    CountConcat(a, [ws[i]] + b, p);
    CountConcat(a, [w] + b, p);
    assert ([ws[i]] + b)[1..] == b && ([w] + b)[1..] == b;
  }

  lemma {:induction false} CountNone(ws: seq<Work>, p: Work -> bool)
    ensures Count(ws, p) == 0 <==> forall i | 0 <= i < |ws| :: !p(ws[i])
    ensures Count(ws, p) <= |ws|
  {
    if ws != [] {
      CountNone(ws[1..], p);
      assert ws == [ws[0]] + ws[1..];
    }
  }

  /** One job: registered under its id before its goroutine starts, and its slot given
      back once, after it ran. */
  ghost predicate WorkOk(s: State, w: Work) {
    && (w.phase != Acquired ==> w.id in s.jobs)
    && w.freed == (if HoldsSlot(w) then 0 else 1)
  }

  /** Both maps name the same accepted job, with that id, under every id. */
  ghost predicate RegistryOk(s: State) {
    && s.jobs == s.cancels
    && forall id | id in s.jobs ::
        s.jobs[id] < |s.works| && s.works[s.jobs[id]].id == id && s.works[s.jobs[id]].phase != Acquired
  }

  ghost predicate Inv(s: State) {
    && s.sem == Count(s.works, HoldsSlot) && s.sem <= s.max
    && s.wg == Count(s.works, Awaited)
    && (forall i | 0 <= i < |s.works| :: WorkOk(s, s.works[i]))
    && RegistryOk(s)
  }

  /** A step of one job keeps the invariant when it moves the counters with the phase. */
  lemma WorkStepKeeps(s: State, i: nat, w: Work, s': State)
    requires Inv(s) && i < |s.works| && s'.works == s.works[i := w]
    requires w.id == s.works[i].id && w.phase != Acquired && w.freed == (if HoldsSlot(w) then 0 else 1)
    requires s'.sem == s.sem - (if HoldsSlot(s.works[i]) then 1 else 0) + (if HoldsSlot(w) then 1 else 0) <= s'.max
    requires s'.wg == s.wg - (if Awaited(s.works[i]) then 1 else 0) + (if Awaited(w) then 1 else 0)
    requires s'.jobs == s'.cancels
    requires s'.jobs == s.jobs[w.id := i] || (s'.jobs == s.jobs && s.works[i].phase != Acquired)
    ensures Inv(s')
  {
    CountBoth(s.works, i, w);
    assert WorkOk(s, s.works[i]);
    forall j | 0 <= j < |s'.works|
      ensures WorkOk(s', s'.works[j])
    {
      assert WorkOk(s, s.works[j]);
    }
    forall id | id in s'.jobs
      ensures s'.jobs[id] < |s'.works| && s'.works[s'.jobs[id]].id == id && s'.works[s'.jobs[id]].phase != Acquired
    {
      assert id in s.jobs || id == w.id;
    }
  }

  lemma AcquireKeeps(s: State, id: string)
    requires Inv(s) && s.sem < s.max
    ensures Inv(Next(s, Acquire(id)))
  {
    var w := Work(id, Acquired, 0, false);
    var s' := Next(s, Acquire(id));
    CountConcat(s.works, [w], HoldsSlot);
    CountConcat(s.works, [w], Awaited);
    assert [w][1..] == [];
    forall j | 0 <= j < |s'.works|
      ensures WorkOk(s', s'.works[j])
    {
      assert j < |s.works| ==> WorkOk(s, s.works[j]);
    }
  }

  lemma StepKeeps(s: State, step: Step)
    requires Inv(s) && Enabled(s, step)
    ensures Inv(Next(s, step)) && Next(s, step).max == s.max
  {
    match step
    case Acquire(id) => if s.sem < s.max { AcquireKeeps(s, id); }
    case Cancel(id) =>
      if id in s.cancels {
        var i := s.cancels[id];
        assert WorkOk(s, s.works[i]);
        WorkStepKeeps(s, i, s.works[i].(cancelled := true), Next(s, step));
      }
    case Register(i) => MoveKeeps(s, step, i);
    case Launch(i) => MoveKeeps(s, step, i);
    case Release(i) => MoveKeeps(s, step, i);
    case Finish(i) => MoveKeeps(s, step, i);
  }

  lemma MoveKeeps(s: State, step: Step, i: nat)
    requires Inv(s) && Enabled(s, step)
    requires step == Register(i) || step == Launch(i) || step == Release(i) || step == Finish(i)
    ensures Inv(Next(s, step))
  {
    assert WorkOk(s, s.works[i]);
    WorkStepKeeps(s, i, Next(s, step).works[i], Next(s, step));
  }

  lemma CountBoth(ws: seq<Work>, i: nat, w: Work)
    requires i < |ws|
    ensures Count(ws[i := w], HoldsSlot)
            == Count(ws, HoldsSlot) - (if HoldsSlot(ws[i]) then 1 else 0) + (if HoldsSlot(w) then 1 else 0)
    ensures Count(ws[i := w], Awaited)
            == Count(ws, Awaited) - (if Awaited(ws[i]) then 1 else 0) + (if Awaited(w) then 1 else 0)
  {
    CountSet(ws, i, w, HoldsSlot);
    CountSet(ws, i, w, Awaited);
  }

  /** No goroutine of the pool ever blocks giving back its slot or leaving the wait
      group: the counters it takes from are positive. */
  lemma NeverStuck(s: State, i: nat)
    requires Inv(s)
    ensures InPhase(s, i, Launched) ==> s.sem > 0 && s.wg > 0
    ensures InPhase(s, i, Released) ==> s.wg > 0
  {
    CountNone(s.works, HoldsSlot);
    CountNone(s.works, Awaited);
  }

  ghost function After(s: State, steps: seq<Step>): Option<State>
    decreases |steps|
  {
    if steps == [] then Some(s)
    else if !Enabled(s, steps[0]) then None
    else After(Next(s, steps[0]), steps[1..])
  }

  lemma {:induction false} RunKeeps(s: State, steps: seq<Step>, s': State)
    requires Inv(s) && After(s, steps) == Some(s')
    ensures Inv(s') && s'.max == s.max
    decreases |steps|
  {
    if steps != [] {
      StepKeeps(s, steps[0]);
      RunKeeps(Next(s, steps[0]), steps[1..], s');
    }
  }

  // ---- what the registry holds, read off the run ----

  /** The work of the last Register step for this id. */
  function LastRegistered(steps: seq<Step>, works: seq<Work>, id: string): Option<nat>
    decreases |steps|
  {
    if steps == [] then None
    else
      var later := LastRegistered(steps[1..], works, id);
      if later.Some? then later
      else if steps[0].Register? && steps[0].i < |works| && works[steps[0].i].id == id then Some(steps[0].i)
      else None
  }

  /** Accepted works stay, and keep their ids. */
  predicate Extends(ws: seq<Work>, ws': seq<Work>) {
    |ws| <= |ws'| && forall i | 0 <= i < |ws| :: ws'[i].id == ws[i].id
  }

  lemma {:induction false} RunExtends(s: State, steps: seq<Step>, s': State)
    requires After(s, steps) == Some(s')
    ensures Extends(s.works, s'.works)
    decreases |steps|
  {
    if steps != [] {
      RunExtends(Next(s, steps[0]), steps[1..], s');
      assert Extends(s.works, Next(s, steps[0]).works);
    }
  }

  lemma {:induction false} RunRegisters(s: State, steps: seq<Step>, s': State, id: string)
    requires After(s, steps) == Some(s')
    ensures var last := LastRegistered(steps, s'.works, id);
            if last.Some? then id in s'.jobs && s'.jobs[id] == last.value
            else (id in s'.jobs <==> id in s.jobs) && (id in s.jobs ==> s'.jobs[id] == s.jobs[id])
    decreases |steps|
  {
    if steps != [] {
      var s1 := Next(s, steps[0]);
      RunRegisters(s1, steps[1..], s', id);
      RunExtends(s1, steps[1..], s');
    }
  }

  lemma {:induction false} RunRegistersEach(s: State, steps: seq<Step>, s': State, i: nat)
    requires After(s, steps) == Some(s') && i < |s'.works| && s'.works[i].phase != Acquired
    ensures Register(i) in steps || (i < |s.works| && s.works[i].phase != Acquired)
    decreases |steps|
  {
    if steps != [] {
      RunRegistersEach(Next(s, steps[0]), steps[1..], s', i);
      ConsRest(steps);
    }
  }

  /** The registry holds, under every id, the job registered last with it. */
  lemma RegistryLatest(maxConcurrent: int, steps: seq<Step>, s: State, id: string)
    requires After(Init(maxConcurrent), steps) == Some(s)
    ensures LastRegistered(steps, s.works, id) == if id in s.jobs then Some(s.jobs[id]) else None
  {
    RunRegisters(Init(maxConcurrent), steps, s, id);
  }

  predicate IsRunning(w: Work) { w.phase == Launched }

  function TotalFreed(ws: seq<Work>): nat {
    if ws == [] then 0 else ws[0].freed + TotalFreed(ws[1..])
  }

  lemma {:induction false} SlotsBalance(ws: seq<Work>)
    requires forall i | 0 <= i < |ws| :: ws[i].freed == (if HoldsSlot(ws[i]) then 0 else 1)
    ensures |ws| == Count(ws, HoldsSlot) + TotalFreed(ws)
    ensures Count(ws, IsRunning) <= Count(ws, HoldsSlot)
  {
    if ws != [] { SlotsBalance(ws[1..]); }
  }

  /** The pool over every interleaving: at most the limit run at once; every accepted job
      either holds one slot or gave it back once; what is launched was registered first,
      the two maps never disagree and name the job registered last; the wait group is at
      zero, so that Stop can return, exactly when no launched job is unfinished; and then
      all accepted jobs are over exactly when none is still on its way to be launched. */
  lemma PoolSafe(maxConcurrent: int, steps: seq<Step>, s: State)
    requires After(Init(maxConcurrent), steps) == Some(s)
    ensures Count(s.works, IsRunning) <= s.sem <= if maxConcurrent <= 0 then 4 else maxConcurrent
    ensures s.max == if maxConcurrent <= 0 then 4 else maxConcurrent
    ensures |s.works| == s.sem + TotalFreed(s.works)
    ensures forall i | 0 <= i < |s.works| :: s.works[i].freed == (if HoldsSlot(s.works[i]) then 0 else 1)
    ensures forall i | 0 <= i < |s.works| && s.works[i].phase != Acquired ::
              s.works[i].id in s.jobs && Register(i) in steps
    ensures s.jobs == s.cancels
    ensures forall id | id in s.jobs :: LastRegistered(steps, s.works, id) == Some(s.jobs[id])
    ensures s.wg == 0 <==> forall i | 0 <= i < |s.works| :: !Awaited(s.works[i])
    ensures (forall i | 0 <= i < |s.works| :: s.works[i].phase == Over)
       <==> s.wg == 0 && forall i | 0 <= i < |s.works| :: s.works[i].phase != Acquired && s.works[i].phase != Registered
  {
    forall id | id in s.jobs
      ensures LastRegistered(steps, s.works, id) == Some(s.jobs[id])
    {
      RegistryLatest(maxConcurrent, steps, s, id);
    }
    forall i | 0 <= i < |s.works| && s.works[i].phase != Acquired
      ensures Register(i) in steps
    {
      RunRegistersEach(Init(maxConcurrent), steps, s, i);
    }
    RunKeeps(Init(maxConcurrent), steps, s);
    SlotsBalance(s.works);
    CountNone(s.works, Awaited);
  }

  /** A refused Submit changes nothing, and Submit is refused exactly when the limit of
      jobs hold a slot. */
  lemma RefusedIff(s: State, id: string)
    requires Inv(s)
    ensures Next(s, Acquire(id)) == s <==> Count(s.works, HoldsSlot) == s.max
  {
  }

  /** Cancel reaches the job that Get returns for that id, and no other. */
  lemma CancelExact(s: State, id: string)
    requires Inv(s) && id in s.jobs
    ensures var s' := Next(s, Cancel(id));
            s'.works[s.jobs[id]].cancelled && s'.works[s.jobs[id]].id == id &&
            forall i | 0 <= i < |s.works| && i != s.jobs[id] :: s'.works[i] == s.works[i]
  {
  }

  /** Stop can return while a job it never waited for starts later: the slot is taken
      before the wait group is told. */
  lemma StopTooEarly(id: string)
    ensures var steps := [Acquire(id), Register(0)];
            exists s :: After(Init(1), steps) == Some(s) && s.wg == 0 && Enabled(s, Launch(0))
  {
    var s1 := Next(Init(1), Acquire(id));
    var s2 := Next(s1, Register(0));
    Prepend(s1, Register(0), [], s2);
    Prepend(Init(1), Acquire(id), [Register(0)], s2);
    assert [Register(0)] + [] == [Register(0)] && [Acquire(id)] + [Register(0)] == [Acquire(id), Register(0)];
  }

  // ---- the objects ----

  /** A job's context. */
  class Context {
    var done: bool

    constructor ()
      ensures !done
    {
      done := false;
    }
  }

  class Registry {
    var jobs: map<string, ExportJob>
    var cancels: map<string, Context>

    ghost predicate Valid()
      reads this
    {
      jobs.Keys == cancels.Keys && forall id | id in jobs :: jobs[id].id == id
    }

    constructor ()
      ensures Valid() && jobs == map[]
    {
      jobs, cancels := map[], map[];
    }

    method Add(job: ExportJob, cancel: Context)
      requires Valid()
      modifies this
      ensures Valid()
      ensures jobs == old(jobs)[job.id := job] && cancels == old(cancels)[job.id := cancel]
    {
      jobs := jobs[job.id := job];
      cancels := cancels[job.id := cancel];
    }

    /** The job found has the id asked for and can be cancelled; no job is found exactly
        for the ids that Cancel refuses. */
    method Get(id: string) returns (r: Option<ExportJob>)
      requires Valid()
      ensures r.None? <==> id !in cancels
      ensures r.Some? ==> r.value.id == id && id in jobs && r.value == jobs[id]
    {
      r := if id in jobs then Some(jobs[id]) else None;
    }

    method Cancel(id: string) returns (ok: bool)
      requires Valid()
      modifies if id in cancels then {cancels[id]} else {}
      modifies (if id in jobs then {jobs[id]} else {})`status, (if id in jobs then {jobs[id]} else {})`error
      ensures Valid()
      ensures ok <==> id in jobs
      ensures ok ==> cancels[id].done && jobs[id].status == Failed && jobs[id].error == "cancelled by user"
    {
      if id !in cancels {
        return false;
      }
      cancels[id].done := true;
      if id in jobs {
        jobs[id].status := Failed;
        jobs[id].error := "cancelled by user";
      }
      return true;
    }
  }

  class Pool {
    const max: nat
    var sem: nat
    var wg: nat
    const registry: Registry
    /** The state of the transition system these fields show, and its jobs. */
    ghost var view: State
    ghost var handles: seq<ExportJob>

    ghost predicate Valid()
      reads this, registry
    {
      && Inv(view) && view.max == max && view.sem == sem && view.wg == wg
      && registry.Valid() && registry.jobs.Keys == view.jobs.Keys && |handles| == |view.works|
      && forall id | id in view.jobs :: view.jobs[id] < |handles| && registry.jobs[id] == handles[view.jobs[id]]
    }

    constructor (registry: Registry, maxConcurrent: int)
      requires registry.Valid() && registry.jobs == map[]
      ensures Valid() && this.registry == registry && view == Init(maxConcurrent)
    {
      this.registry := registry;
      max := Limit(maxConcurrent);
      sem, wg := 0, 0;
      view, handles := Init(maxConcurrent), [];
    }

    /** Submit is three steps of the transition system in a row, or a refusal. */
    method Submit(job: ExportJob) returns (ok: bool)
      requires Valid()
      modifies this, registry
      ensures Valid()
      ensures ok <==> old(sem) < max
      ensures !ok ==> unchanged(this) && unchanged(registry)
      ensures ok ==>
        var i := |old(view).works|;
        && After(old(view), [Acquire(job.id), Register(i), Launch(i)]) == Some(view)
        && registry.jobs == old(registry.jobs)[job.id := job]
        && handles == old(handles) + [job]
    {
      if sem >= max {
        return false;
      }
      ghost var i := |view.works|;
      ghost var s1 := Next(view, Acquire(job.id));
      ghost var s2 := Next(s1, Register(i));
      ghost var s3 := Next(s2, Launch(i));
      SubmitRun(view, job.id);
      StepKeeps(view, Acquire(job.id));
      StepKeeps(s1, Register(i));
      StepKeeps(s2, Launch(i));
      sem := sem + 1;
      var cancel := new Context();
      registry.Add(job, cancel);
      wg := wg + 1;
      view, handles := s3, handles + [job];
      return true;
    }

    /** The goroutine's deferred calls, in the order they run. */
    method JobEnds(ghost i: nat)
      requires Valid() && InPhase(view, i, Launched)
      modifies this
      ensures Valid() && handles == old(handles)
      ensures After(old(view), [Release(i), Finish(i)]) == Some(view)
      ensures sem == old(sem) - 1 && wg == old(wg) - 1
    {
      ghost var end := EndRun(view, i);
      sem := sem - 1;
      wg := wg - 1;
      view := end;
    }
  }

  lemma Prepend(s: State, step: Step, rest: seq<Step>, end: State)
    requires Enabled(s, step) && After(Next(s, step), rest) == Some(end)
    ensures After(s, [step] + rest) == Some(end)
  {
    assert ([step] + rest)[1..] == rest;
  }

  lemma SubmitRun(s: State, id: string)
    requires s.sem < s.max
    ensures var i := |s.works|;
            var s1 := Next(s, Acquire(id));
            Enabled(s1, Register(i)) && Enabled(Next(s1, Register(i)), Launch(i)) &&
            After(s, [Acquire(id), Register(i), Launch(i)]) == Some(Next(Next(s1, Register(i)), Launch(i)))
  {
    var i := |s.works|;
    var s1 := Next(s, Acquire(id));
    var s2 := Next(s1, Register(i));
    var s3 := Next(s2, Launch(i));
    Prepend(s2, Launch(i), [], s3);
    Prepend(s1, Register(i), [Launch(i)], s3);
    Prepend(s, Acquire(id), [Register(i), Launch(i)], s3);
    assert [Launch(i)] + [] == [Launch(i)] && [Register(i)] + [Launch(i)] == [Register(i), Launch(i)];
    assert [Acquire(id)] + [Register(i), Launch(i)] == [Acquire(id), Register(i), Launch(i)];
  }

  lemma EndRun(s: State, i: nat) returns (end: State)
    requires Inv(s) && InPhase(s, i, Launched)
    ensures After(s, [Release(i), Finish(i)]) == Some(end) && Inv(end)
    ensures end.max == s.max && end.sem == s.sem - 1 && end.wg == s.wg - 1 && s.sem > 0 && s.wg > 0
    ensures end.jobs == s.jobs && |end.works| == |s.works|
  {
    NeverStuck(s, i);
    var s1 := Next(s, Release(i));
    StepKeeps(s, Release(i));
    NeverStuck(s1, i);
    end := Next(s1, Finish(i));
    StepKeeps(s1, Finish(i));
    Prepend(s1, Finish(i), [], end);
    Prepend(s, Release(i), [Finish(i)], end);
    assert [Finish(i)] + [] == [Finish(i)] && [Release(i)] + [Finish(i)] == [Release(i), Finish(i)];
  }
}
