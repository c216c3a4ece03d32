/** internal/ingester/broker.go: bounded, lossy fan-out to live-tail subscribers. */
module Broker {
  import opened Seqs
  import opened Domain

  const CAPACITY := 256

  /** A Subscription: its filter (none passes everything) and its channel's buffer. */
  datatype Sub = Sub(filter: Option<LogEntry -> bool>, ch: seq<LogEntry>)

  predicate Passes(s: Sub, e: LogEntry) { s.filter.None? || s.filter.value(e) }

  /** The non-blocking send. */
  function Offer(s: Sub, e: LogEntry): Sub {
    if Passes(s, e) && |s.ch| < CAPACITY then s.(ch := s.ch + [e]) else s
  }

  function OfferAll(subs: map<string, Sub>, e: LogEntry): map<string, Sub> {
    map id | id in subs :: Offer(subs[id], e)
  }

  // ---- every interleaving ----

  /** What a subscriber took from its channel, and what was published for it while it was
      subscribed: everything that passes its filter, and how much of that was dropped. */
  datatype Trail = Trail(received: seq<LogEntry>, offered: seq<LogEntry>, dropped: nat)

  /** live: in the broker's map; gone: unsubscribed, channel still held by its reader. */
  datatype State = State(live: map<string, Sub>, gone: map<string, Sub>, trails: map<string, Trail>)

  datatype Step =
    | Subscribe(id: string, filter: Option<LogEntry -> bool>)
    | Unsubscribe(id: string)
    | Publish(e: LogEntry)
    | Receive(id: string)

  const INIT := State(map[], map[], map[])

  predicate Fits(s: Sub) { |s.ch| < CAPACITY }

  function TrailAfter(s: Sub, t: Trail, e: LogEntry): Trail {
    if !Passes(s, e) then t
    else t.(offered := t.offered + [e], dropped := if Fits(s) then t.dropped else t.dropped + 1)
  }

  function Take(s: Sub): Sub
    requires s.ch != []
  {
    s.(ch := s.ch[1..])
  }

  /** Every subscriber, live or gone, has a trail. */
  predicate WellFormed(s: State) {
    s.live.Keys <= s.trails.Keys && s.gone.Keys <= s.trails.Keys && s.live.Keys !! s.gone.Keys
  }

  predicate Enabled(s: State, step: Step) {
    match step
    case Subscribe(id, _) => id !in s.trails
    case Unsubscribe(_) => true
    case Publish(_) => true
    case Receive(id) => (id in s.live && s.live[id].ch != []) || (id in s.gone && s.gone[id].ch != [])
  }

  function Next(s: State, step: Step): State
    requires WellFormed(s) && Enabled(s, step)
  {
    match step
    case Subscribe(id, filter) => s.(live := s.live[id := Sub(filter, [])], trails := s.trails[id := Trail([], [], 0)])
    case Unsubscribe(id) => if id in s.live then s.(live := s.live - {id}, gone := s.gone[id := s.live[id]]) else s
    case Publish(e) =>
      s.(live := OfferAll(s.live, e),
         trails := map id | id in s.trails ::
           if id in s.live then TrailAfter(s.live[id], s.trails[id], e) else s.trails[id])
    case Receive(id) =>
      var sub := if id in s.live then s.live[id] else s.gone[id];
      var t := s.trails[id].(received := s.trails[id].received + [sub.ch[0]]);
      if id in s.live then s.(live := s.live[id := Take(sub)], trails := s.trails[id := t])
      else s.(gone := s.gone[id := Take(sub)], trails := s.trails[id := t])
  }

  /** The law of one subscriber. */
  ghost predicate SubOk(s: Sub, t: Trail) {
    && |s.ch| <= CAPACITY
    && Subsequence(t.received + s.ch, t.offered)
    && |t.offered| == |t.received| + |s.ch| + t.dropped
  }

  ghost predicate Inv(s: State) {
    && WellFormed(s)
    && (forall id | id in s.live :: SubOk(s.live[id], s.trails[id]))
    && (forall id | id in s.gone :: SubOk(s.gone[id], s.trails[id]))
  }

  lemma OfferKeeps(s: Sub, t: Trail, e: LogEntry)
    requires SubOk(s, t)
    ensures SubOk(Offer(s, e), TrailAfter(s, t, e))
  {
    if Passes(s, e) {
      if Fits(s) {
        SubsequenceKeep(t.received + s.ch, t.offered, e);
        assert t.received + (s.ch + [e]) == t.received + s.ch + [e];
      } else {
        SubsequenceSkip(t.received + s.ch, t.offered, e);
      }
    }
  }

  lemma TakeKeeps(s: Sub, t: Trail)
    requires SubOk(s, t) && s.ch != []
    ensures SubOk(Take(s), t.(received := t.received + [s.ch[0]]))
  {
    assert t.received + [s.ch[0]] + s.ch[1..] == t.received + s.ch;
  }

  lemma StepKeeps(s: State, step: Step)
    requires Inv(s) && Enabled(s, step)
    ensures Inv(Next(s, step))
  {
    match step
    case Publish(e) =>
      forall id | id in s.live
        ensures SubOk(Offer(s.live[id], e), TrailAfter(s.live[id], s.trails[id], e))
      {
        OfferKeeps(s.live[id], s.trails[id], e);
      }
    case Receive(id) =>
      TakeKeeps(if id in s.live then s.live[id] else s.gone[id], s.trails[id]);
    case Subscribe(id, filter) =>
    case Unsubscribe(id) =>
  }

  ghost function After(s: State, steps: seq<Step>): Option<State>
    requires WellFormed(s)
    decreases |steps|
  {
    if steps == [] then Some(s)
    else if !Enabled(s, steps[0]) || !WellFormed(Next(s, steps[0])) then None
    else After(Next(s, steps[0]), steps[1..])
  }

  lemma {:induction false} RunKeeps(s: State, steps: seq<Step>, s': State)
    requires Inv(s) && After(s, steps) == Some(s')
    ensures Inv(s')
    decreases |steps|
  {
    if steps != [] {
      StepKeeps(s, steps[0]);
      RunKeeps(Next(s, steps[0]), steps[1..], s');
    }
  }

  /** Live tail, over every interleaving: what a subscriber received and still has pending
      is an in-order part of what was published for it, at most CAPACITY is pending, and
      nothing is missing exactly when no publish found its channel full. */
  lemma TailExact(steps: seq<Step>, s: State, id: string)
    requires After(INIT, steps) == Some(s) && id in s.trails && (id in s.live || id in s.gone)
    ensures var sub, t := if id in s.live then s.live[id] else s.gone[id], s.trails[id];
            Subsequence(t.received + sub.ch, t.offered) && |sub.ch| <= CAPACITY &&
            (t.received + sub.ch == t.offered <==> t.dropped == 0)
  {
    RunKeeps(INIT, steps, s);
    var sub, t := if id in s.live then s.live[id] else s.gone[id], s.trails[id];
    SubsequenceWhole(t.received + sub.ch, t.offered);
  }

  // ---- what a subscriber is owed, read off the run ----

  /** The entries published in steps that pass the filter, up to the Unsubscribe of id. */
  function PublishedFor(steps: seq<Step>, id: string, filter: Option<LogEntry -> bool>): seq<LogEntry>
    decreases |steps|
  {
    if steps == [] then []
    else match steps[0]
      case Unsubscribe(other) => if other == id then [] else PublishedFor(steps[1..], id, filter)
      case Publish(e) =>
        (if filter == None || filter.value(e) then [e] else []) + PublishedFor(steps[1..], id, filter)
      case _ => PublishedFor(steps[1..], id, filter)
  }

  /** The filter id subscribed with. */
  function FilterInRun(steps: seq<Step>, id: string): Option<Option<LogEntry -> bool>>
    decreases |steps|
  {
    if steps == [] then None
    else if steps[0].Subscribe? && steps[0].id == id then Some(steps[0].filter)
    else FilterInRun(steps[1..], id)
  }

  /** What was published for id between its Subscribe and its Unsubscribe. */
  function OwedInRun(steps: seq<Step>, id: string): seq<LogEntry>
    decreases |steps|
  {
    if steps == [] then []
    else if steps[0].Subscribe? && steps[0].id == id then PublishedFor(steps[1..], id, steps[0].filter)
    else OwedInRun(steps[1..], id)
  }

  /** That part of it which was published while fewer than 256 entries were pending. */
  ghost function TakenInRun(s: State, steps: seq<Step>, id: string): seq<LogEntry>
    requires WellFormed(s) && After(s, steps).Some?
    decreases |steps|
  {
    if steps == [] then []
    else
      var rest := TakenInRun(Next(s, steps[0]), steps[1..], id);
      if steps[0].Publish? && id in s.live && |s.live[id].ch| < 256
         && (s.live[id].filter == None || s.live[id].filter.value(steps[0].e))
      then [steps[0].e] + rest
      else rest
  }

  /** While id is live its trail grows by what is owed to it; afterwards not at all. */
  lemma {:induction false} RunOwes(s: State, steps: seq<Step>, s': State, id: string)
    requires Inv(s) && After(s, steps) == Some(s')
    ensures id in s.live ==>
      id in s'.trails && s'.trails[id].offered == s.trails[id].offered + PublishedFor(steps, id, s.live[id].filter)
    ensures id in s.trails && id !in s.live ==> id in s'.trails && s'.trails[id].offered == s.trails[id].offered
    ensures id !in s.trails && id in s'.trails ==> s'.trails[id].offered == OwedInRun(steps, id)
    decreases |steps|
  {
    if steps != [] {
      var s1 := Next(s, steps[0]);
      StepKeeps(s, steps[0]);
      RunOwes(s1, steps[1..], s', id);
      StepOwes(s, steps[0], id);
      if id in s1.live && id in s.live {
        var more := PublishedFor(steps[1..], id, s.live[id].filter);
        Assoc(s.trails[id].offered, Owed(s.live[id].filter, steps[0]), more);
      }
    }
  }

  /** What one step owes to a live subscriber with this filter. */
  function Owed(filter: Option<LogEntry -> bool>, step: Step): seq<LogEntry> {
    if step.Publish? && (filter == None || filter.value(step.e)) then [step.e] else []
  }

  lemma StepOwes(s: State, step: Step, id: string)
    requires Inv(s) && Enabled(s, step)
    ensures var s1 := Next(s, step);
      && (id in s.live && !(step.Unsubscribe? && step.id == id) ==>
            id in s1.live && s1.live[id].filter == s.live[id].filter
            && s1.trails[id].offered == s.trails[id].offered + Owed(s.live[id].filter, step))
      && (id in s.live && step.Unsubscribe? && step.id == id ==>
            id !in s1.live && id in s1.trails && s1.trails[id].offered == s.trails[id].offered)
      && (id in s.trails && id !in s.live ==>
            id !in s1.live && id in s1.trails && s1.trails[id].offered == s.trails[id].offered)
      && (id !in s.trails && step.Subscribe? && step.id == id ==>
            id in s1.live && s1.live[id].filter == step.filter && s1.trails[id].offered == [])
      && (id !in s.trails && !(step.Subscribe? && step.id == id) ==> id !in s1.trails)
  {
  }

  /** How often a publish owed to id found 256 entries pending. */
  ghost function FullInRun(s: State, steps: seq<Step>, id: string): nat
    requires WellFormed(s) && After(s, steps).Some?
    decreases |steps|
  {
    if steps == [] then 0
    else
      var rest := FullInRun(Next(s, steps[0]), steps[1..], id);
      if steps[0].Publish? && id in s.live && |s.live[id].ch| >= 256
         && (s.live[id].filter == None || s.live[id].filter.value(steps[0].e))
      then rest + 1
      else rest
  }

  /** What id received, then what it has pending. */
  function Held(s: State, id: string): seq<LogEntry> {
    if id !in s.trails then []
    else if id in s.live then s.trails[id].received + s.live[id].ch
    else if id in s.gone then s.trails[id].received + s.gone[id].ch
    else []
  }

  /** What one step adds to it. */
  function Taken(s: State, step: Step, id: string): seq<LogEntry> {
    if step.Publish? && id in s.live && |s.live[id].ch| < 256
       && (s.live[id].filter == None || s.live[id].filter.value(step.e))
    then [step.e] else []
  }

  lemma StepTakes(s: State, step: Step, id: string)
    requires Inv(s) && Enabled(s, step)
    ensures Held(Next(s, step), id) == Held(s, id) + Taken(s, step, id)
  {
    match step
    case Publish(e) => if id in s.live { Assoc(s.trails[id].received, s.live[id].ch, Taken(s, step, id)); }
    case Receive(other) =>
      var sub := if other in s.live then s.live[other] else s.gone[other];
      MoveOne(s.trails[other].received, sub.ch);
    case _ =>
  }

  lemma TakenStep(s: State, steps: seq<Step>, id: string)
    requires WellFormed(s) && After(s, steps).Some? && steps != []
    ensures TakenInRun(s, steps, id) == Taken(s, steps[0], id) + TakenInRun(Next(s, steps[0]), steps[1..], id)
  {
  }

  lemma {:induction false} RunTakes(s: State, steps: seq<Step>, s': State, id: string)
    requires Inv(s) && After(s, steps) == Some(s')
    ensures Held(s', id) == Held(s, id) + TakenInRun(s, steps, id)
    decreases |steps|
  {
    if steps != [] {
      StepKeeps(s, steps[0]);
      StepTakes(s, steps[0], id);
      RunTakes(Next(s, steps[0]), steps[1..], s', id);
      Assoc(Held(s, id), Taken(s, steps[0], id), TakenInRun(Next(s, steps[0]), steps[1..], id));
      TakenStep(s, steps, id);
    }
  }

  /** What is owed was taken or found the channel full. */
  lemma {:induction false} RunCounts(s: State, steps: seq<Step>, s': State, id: string)
    requires Inv(s) && After(s, steps) == Some(s')
    ensures var n := |TakenInRun(s, steps, id)| + FullInRun(s, steps, id);
      && (id in s.live ==> |PublishedFor(steps, id, s.live[id].filter)| == n)
      && (id in s.trails && id !in s.live ==> n == 0)
      && (id !in s.trails ==> |OwedInRun(steps, id)| == n)
    decreases |steps|
  {
    if steps != [] {
      StepKeeps(s, steps[0]);
      StepOwes(s, steps[0], id);
      RunCounts(Next(s, steps[0]), steps[1..], s', id);
    }
  }

  lemma {:induction false} PublishedPass(steps: seq<Step>, id: string, filter: Option<LogEntry -> bool>)
    ensures forall e | e in PublishedFor(steps, id, filter) :: filter == None || filter.value(e)
    decreases |steps|
  {
    if steps != [] { PublishedPass(steps[1..], id, filter); }
  }

  lemma {:induction false} OwedPass(steps: seq<Step>, id: string)
    ensures OwedInRun(steps, id) != [] ==> FilterInRun(steps, id).Some?
    ensures FilterInRun(steps, id).Some? ==>
      var filter := FilterInRun(steps, id).value;
      forall e | e in OwedInRun(steps, id) :: filter == None || filter.value(e)
    decreases |steps|
  {
    if steps != [] {
      if steps[0].Subscribe? && steps[0].id == id {
        PublishedPass(steps[1..], id, steps[0].filter);
      } else {
        OwedPass(steps[1..], id);
      }
    }
  }

  /** Live tail against the run itself: what a subscriber received and still has pending is
      what was published between its Subscribe and its Unsubscribe, passed its filter and
      found fewer than 256 entries pending; it is an in-order part of what passed, all of it
      exactly when no publish found the channel full; and each entry passes the filter. */
  lemma TailFromRun(steps: seq<Step>, s: State, id: string)
    requires After(INIT, steps) == Some(s) && id in s.trails && (id in s.live || id in s.gone)
    ensures var sub, t := if id in s.live then s.live[id] else s.gone[id], s.trails[id];
      var held := t.received + sub.ch;
      && t.offered == OwedInRun(steps, id)
      && held == TakenInRun(INIT, steps, id)
      && Subsequence(held, OwedInRun(steps, id)) && |sub.ch| <= 256
      && (held == OwedInRun(steps, id) <==> FullInRun(INIT, steps, id) == 0)
      && (held != [] ==> FilterInRun(steps, id).Some?)
      && forall e | e in held :: FilterInRun(steps, id).value == None || FilterInRun(steps, id).value.value(e)
  {
    TailOwed(steps, s, id);
    OwedPass(steps, id);
    TailExact(steps, s, id);
    SubsequenceWhole(Held(s, id), OwedInRun(steps, id));
    SubsequenceElements(Held(s, id), OwedInRun(steps, id));
  }

  lemma TailOwed(steps: seq<Step>, s: State, id: string)
    requires After(INIT, steps) == Some(s) && id in s.trails
    ensures s.trails[id].offered == OwedInRun(steps, id) && Held(s, id) == TakenInRun(INIT, steps, id)
    ensures |OwedInRun(steps, id)| == |TakenInRun(INIT, steps, id)| + FullInRun(INIT, steps, id)
  {
    RunOwes(INIT, steps, s, id);
    RunTakes(INIT, steps, s, id);
    RunCounts(INIT, steps, s, id);
    assert Held(INIT, id) == [];
  }

  // ---- the object ----

  /** Its methods are steps of the system above: the subscribers it holds are the live ones,
      so TailExact speaks of their channels. */
  class Hub {
    var subs: map<string, Sub>

    ghost predicate Agrees(s: State)
      reads this
    {
      subs == s.live
    }

    constructor ()
      ensures Agrees(INIT)
    {
      subs := map[];
    }

    /** id is a new uuid. */
    method Subscribe(id: string, filter: Option<LogEntry -> bool>, ghost s: State) returns (ghost s': State)
      requires Agrees(s) && Inv(s) && Enabled(s, Step.Subscribe(id, filter))
      modifies this
      ensures s' == Next(s, Step.Subscribe(id, filter)) && Agrees(s') && Inv(s')
    {
      s' := Next(s, Step.Subscribe(id, filter));
      StepKeeps(s, Step.Subscribe(id, filter));
      subs := subs[id := Sub(filter, [])];
    }

    /** The channel is not closed: its reader keeps what is left in it. */
    method Unsubscribe(id: string, ghost s: State) returns (ghost s': State)
      requires Agrees(s) && Inv(s)
      modifies this
      ensures s' == Next(s, Step.Unsubscribe(id)) && Agrees(s') && Inv(s')
    {
      s' := Next(s, Step.Unsubscribe(id));
      StepKeeps(s, Step.Unsubscribe(id));
      if id in subs {
        subs := subs - {id};
      }
    }

    method Publish(e: LogEntry, ghost s: State) returns (ghost s': State)
      requires Agrees(s) && Inv(s)
      modifies this
      ensures s' == Next(s, Step.Publish(e)) && Agrees(s') && Inv(s')
    {
      s' := Next(s, Step.Publish(e));
      StepKeeps(s, Step.Publish(e));
      var rest := subs.Keys;
      while rest != {}
        invariant rest <= subs.Keys == old(subs).Keys
        invariant forall id | id in subs :: subs[id] == if id in rest then old(subs)[id] else Offer(old(subs)[id], e)
      {
        var id :| id in rest;
        var s := subs[id];
        if Passes(s, e) {
          if |s.ch| < CAPACITY {
            subs := subs[id := s.(ch := s.ch + [e])];
          }
        }
        rest := rest - {id};
      }
    }
  }
}
