/** The in-memory batch of internal/ingester/buffer.go: estimateSize, level
    sampling, addToBuffer and the snapshot handed to a flush. */
module Batches {
  import opened Seqs
  import opened Domain

  // ---- estimateSize ----

  /** Bytes counted for a label map; the order of ranging does not matter
      (LabelBytesRemove). */
  ghost function LabelBytes(m: Labels): nat {
    if m == map[] then 0
    else
      var k :| k in m;
      |k| + |m[k]| + 6 + LabelBytes(m - {k})
  }

  lemma {:induction false} LabelBytesRemove(m: Labels, k: string)
    requires k in m
    ensures LabelBytes(m) == |k| + |m[k]| + 6 + LabelBytes(m - {k})
    decreases |m|
  {
    var j :| j in m && LabelBytes(m) == |j| + |m[j]| + 6 + LabelBytes(m - {j});
    if j != k {
      assert |m - {j}| < |m| && |m - {k}| < |m| by {
        assert (m - {j}).Keys == m.Keys - {j} && (m - {k}).Keys == m.Keys - {k};
      }
      LabelBytesRemove(m - {j}, k);
      LabelBytesRemove(m - {k}, j);
      assert m - {j} - {k} == m - {k} - {j};
    }
  }

  ghost function SizeOf(e: LogEntry): nat {
    80 + |e.service| + |e.level| + |e.message| + LabelBytes(e.labels)
  }

  method EstimateSize(e: LogEntry) returns (n: nat)
    ensures n == SizeOf(e)
  {
    n := 80 + |e.service| + |e.level| + |e.message|;
    var rest := e.labels;
    while rest != map[]
      invariant n + LabelBytes(rest) == SizeOf(e)
      decreases |rest|
    {
      var k :| k in rest;
      LabelBytesRemove(rest, k);
      assert (rest - {k}).Keys == rest.Keys - {k};
      n := n + |k| + |rest[k]| + 6;
      rest := rest - {k};
    }
  }

  /** The estimate: 80, the three texts, and for each label its key, its value and 6. */
  lemma SizeExact(e: LogEntry, key: string, value: string)
    ensures e.labels == map[] ==> SizeOf(e) == 80 + |e.service| + |e.level| + |e.message|
    ensures key !in e.labels ==> SizeOf(e.(labels := e.labels[key := value])) == SizeOf(e) + |key| + |value| + 6
  {
    if key !in e.labels {
      var m := e.labels[key := value];
      LabelBytesRemove(m, key);
      assert m - {key} == e.labels;
    }
  }

  ghost function SizeSum(es: seq<LogEntry>): nat {
    if es == [] then 0 else SizeSum(es[..|es| - 1]) + SizeOf(es[|es| - 1])
  }

  // ---- level sampling ----

  /** levelPriority; an unknown level reads as 0. */
  function Priority(level: string): nat {
    var l := ToLower(level);
    if l == "info" then 1
    else if l == "warn" || l == "warning" then 2
    else if l == "error" then 3
    else if l == "fatal" || l == "critical" then 4
    else 0
  }

  predicate Accepts(minLevel: string, e: LogEntry) {
    minLevel == "" || Priority(e.level) >= Priority(minLevel)
  }

  /** The levels in ascending order. */
  const TIERS: seq<set<string>> := [{"debug", "trace"}, {"info"}, {"warn", "warning"}, {"error"}, {"fatal", "critical"}]

  /** A level name up to case. */
  ghost predicate Names(level: string, tier: set<string>) { exists name | name in tier :: EqualFold(level, name) }

  lemma TierPriority(level: string, i: nat)
    requires i < |TIERS| && Names(level, TIERS[i])
    ensures Priority(level) == i
  {
    var name :| name in TIERS[i] && EqualFold(level, name);
    LowerNames();
    assert ToLower(level) == ToLower(name) == name;
  }

  lemma LowerNames()
    ensures forall i, name | 0 <= i < |TIERS| && name in TIERS[i] :: ToLower(name) == name
  {
  }

  /** Sampling: with both levels known, up to case, an entry is accepted exactly when its
      level is not below the minimum; an unknown level counts as the lowest; and without a
      minimum everything is accepted. */
  lemma LevelsOrdered(minLevel: string, e: LogEntry)
    ensures forall i, j | 0 <= i < |TIERS| && 0 <= j < |TIERS| && Names(minLevel, TIERS[i])
            && Names(e.level, TIERS[j]) ::
      Accepts(minLevel, e) <==> i <= j
    ensures minLevel == "" ==> Accepts(minLevel, e)
    ensures (forall j | 0 <= j < |TIERS| :: !Names(e.level, TIERS[j])) ==>
      forall i | 0 <= i < |TIERS| && Names(minLevel, TIERS[i]) :: Accepts(minLevel, e) <==> i == 0
  {
    forall i | 0 <= i < |TIERS| && Names(minLevel, TIERS[i])
      ensures minLevel != "" && Priority(minLevel) == i
    {
      TierPriority(minLevel, i);
      assert ToLower("") == "";
    }
    forall j | 0 <= j < |TIERS| && Names(e.level, TIERS[j])
      ensures Priority(e.level) == j
    {
      TierPriority(e.level, j);
    }
    if forall j | 0 <= j < |TIERS| :: !Names(e.level, TIERS[j]) {
      UnknownIsLowest(e.level);
    }
  }

  lemma UnknownIsLowest(level: string)
    requires forall j | 0 <= j < |TIERS| :: !Names(level, TIERS[j])
    ensures Priority(level) == 0
  {
    LowerNames();
    var l := ToLower(level);
    assert forall j, name | 0 <= j < |TIERS| && name in TIERS[j] :: ToLower(name) == name && l != name;
    assert "info" in TIERS[1] && "warn" in TIERS[2] && "warning" in TIERS[2] && "error" in TIERS[3];
    assert "fatal" in TIERS[4] && "critical" in TIERS[4];
  }

  // ---- batches ----

  datatype Batch = Batch(entries: seq<LogEntry>, sizeEst: int, minTime: int, maxTime: int, service: string)

  /** flushJob */
  datatype Job = Job(entries: seq<LogEntry>, service: string, minTime: int, maxTime: int)

  const EMPTY := Batch([], 0, 0, 0, "")

  function AddToBatch(b: Batch, e: LogEntry): Batch {
    if b.entries == [] then Batch([e], b.sizeEst, e.timestamp, e.timestamp, e.service)
    else b.(entries := b.entries + [e],
            minTime := if e.timestamp < b.minTime then e.timestamp else b.minTime,
            maxTime := if e.timestamp > b.maxTime then e.timestamp else b.maxTime)
  }

  /** NewBuffer's replay loop. */
  function AddAll(b: Batch, es: seq<LogEntry>): Batch
    decreases |es|
  {
    if es == [] then b else AddAll(AddToBatch(b, es[0]), es[1..])
  }

  function JobOf(b: Batch): Job { Job(b.entries, b.service, b.minTime, b.maxTime) }

  function Cleared(b: Batch): Batch { b.(entries := [], sizeEst := 0) }

  /** lo and hi are the least and greatest timestamps of es, attained in es. */
  ghost predicate Spans(es: seq<LogEntry>, lo: int, hi: int) {
    && (exists e | e in es :: e.timestamp == lo)
    && (exists e | e in es :: e.timestamp == hi)
    && forall e | e in es :: lo <= e.timestamp <= hi
  }

  /** A batch's metadata describes its entries. */
  ghost predicate Describes(es: seq<LogEntry>, service: string, lo: int, hi: int) {
    es != [] && service == es[0].service && Spans(es, lo, hi)
  }

  ghost predicate JobOk(j: Job) {
    Describes(j.entries, j.service, j.minTime, j.maxTime)
  }

  /** The batch invariant. The first `replayed` entries came from the WAL and are
      not counted in sizeEst. */
  ghost predicate BatchOk(b: Batch, maxBytes: int, replayed: nat) {
    && (b.entries != [] ==> Describes(b.entries, b.service, b.minTime, b.maxTime))
    && replayed <= |b.entries|
    && b.sizeEst == SizeSum(b.entries[replayed..])
    && (|b.entries| <= 1 || b.sizeEst <= maxBytes)
  }

  lemma AddDescribes(b: Batch, e: LogEntry)
    requires b.entries != [] ==> Describes(b.entries, b.service, b.minTime, b.maxTime)
    ensures var b' := AddToBatch(b, e);
            b'.entries == b.entries + [e] && b'.sizeEst == b.sizeEst &&
            Describes(b'.entries, b'.service, b'.minTime, b'.maxTime)
  {
    var b' := AddToBatch(b, e);
    assert b'.entries == b.entries + [e];
    assert e in b'.entries;
    forall x | x in b.entries
      ensures x in b'.entries
    {
    }
    if b.entries != [] {
      var lo :| lo in b.entries && lo.timestamp == b.minTime;
      var hi :| hi in b.entries && hi.timestamp == b.maxTime;
      assert lo in b'.entries && hi in b'.entries;
    }
  }

  lemma {:induction false} AddAllDescribes(b: Batch, es: seq<LogEntry>)
    requires b.entries != [] ==> Describes(b.entries, b.service, b.minTime, b.maxTime)
    ensures var b' := AddAll(b, es);
            b'.entries == b.entries + es && b'.sizeEst == b.sizeEst &&
            (b'.entries != [] ==> Describes(b'.entries, b'.service, b'.minTime, b'.maxTime))
    decreases |es|
  {
    if es == [] {
      assert b.entries + es == b.entries;
    } else {
      AddDescribes(b, es[0]);
      AddAllDescribes(AddToBatch(b, es[0]), es[1..]);
      MoveOne(b.entries, es);
    }
  }

  lemma SizeSumSnoc(es: seq<LogEntry>, e: LogEntry)
    ensures SizeSum(es + [e]) == SizeSum(es) + SizeOf(e)
  {
    assert (es + [e])[..|es|] == es;
  }

  /** Adding an entry after a dispatch, or when it fits, keeps the invariant. */
  lemma AddKeepsBatchOk(b: Batch, e: LogEntry, maxBytes: int, replayed: nat)
    requires BatchOk(b, maxBytes, replayed)
    requires b.entries == [] || b.sizeEst + SizeOf(e) <= maxBytes
    ensures var b' := AddToBatch(b, e);
            BatchOk(b'.(sizeEst := b'.sizeEst + SizeOf(e)), maxBytes, replayed)
  {
    AddDescribes(b, e);
    SizeSumSnoc(b.entries[replayed..], e);
    assert (b.entries + [e])[replayed..] == b.entries[replayed..] + [e];
  }

  /** Replaying a log keeps it with nothing counted. */
  lemma ReplayKeepsBatchOk(es: seq<LogEntry>, maxBytes: int)
    requires 0 <= maxBytes
    ensures BatchOk(AddAll(EMPTY, es), maxBytes, |es|) && AddAll(EMPTY, es).entries == es
  {
    AddAllDescribes(EMPTY, es);
    assert es[|es|..] == [];
  }
}
