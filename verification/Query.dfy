/** internal/query/query.go and Store.Query of internal/index/index.go: the indexed query
    as the code runs it, against the unlimited scan it cuts short. */
module Query {
  import opened Seqs
  import opened Calendar
  import opened Domain
  import opened Lines
  import opened Keys
  import opened LabelSets

  const DEFAULT_LIMIT := 200

  datatype Request = Request(start: int, end: int, service: string, labels: Labels, level: string, limit: int)

  /** What the s3 of one query see: the keys of the bucket in listing order, the
      objects that can be read, and the prefixes whose listing fails. */
  datatype Reads = Reads(keys: seq<string>, objects: map<string, bytes>, unlistable: set<string>)

  datatype Env = Env(codec: Codec, s3Prefix: string, indexPrefix: string)

  datatype Stats = Stats(indexFilesScanned: nat, chunksMatched: nat, chunksFetched: nat, entriesScanned: nat,
                         entriesMatched: nat)

  datatype Response = Response(entries: seq<LogEntry>, stats: Stats)

  // ---- filters ----

  predicate ServiceMatches(wanted: string, service: string) {
    wanted == "" || EqualFold(service, wanted)
  }

  /** The per-entry filter of fetchAndFilter. */
  predicate EntryMatches(req: Request, e: LogEntry) {
    && req.start <= e.timestamp <= req.end
    && ServiceMatches(req.service, e.service)
    && (req.level == "" || EqualFold(e.level, req.level))
    && HasLabels(e.labels, req.labels)
  }

  function Matching(req: Request, es: seq<LogEntry>): seq<LogEntry> {
    if es == [] then []
    else (if EntryMatches(req, es[0]) then [es[0]] else []) + Matching(req, es[1..])
  }

  /** The filter, read off an answer: an entry is found as often as it is there when its
      time is in the range and its service, its level and each queried label have the
      values asked for, and not at all otherwise; and the order is kept. */
  lemma {:induction false} FoundExactly(req: Request, es: seq<LogEntry>, e: LogEntry)
    ensures var asked :=
        && req.start <= e.timestamp <= req.end
        && (req.service == "" || EqualFold(e.service, req.service))
        && (req.level == "" || EqualFold(e.level, req.level))
        && (forall k | k in req.labels :: (if k in e.labels then e.labels[k] else "") == req.labels[k]);
            multiset(Matching(req, es))[e] == if asked then multiset(es)[e] else 0
  {
    if es != [] {
      FoundExactly(req, es[1..], e);
      ConsRest(es);
      assert multiset(es) == multiset{es[0]} + multiset(es[1..]);
    }
  }

  lemma {:induction false} FoundInOrder(req: Request, es: seq<LogEntry>)
    ensures Subsequence(Matching(req, es), es)
  {
    if es != [] {
      FoundInOrder(req, es[1..]);
      if EntryMatches(req, es[0]) {
        assert ([es[0]] + Matching(req, es[1..]))[1..] == Matching(req, es[1..]);
      } else {
        assert Matching(req, es) == Matching(req, es[1..]);
      }
    }
  }

  lemma AllFound(req: Request, es: seq<LogEntry>)
    ensures Subsequence(Matching(req, es), es)
    ensures forall e: LogEntry ::
      var asked :=
        && req.start <= e.timestamp <= req.end
        && (req.service == "" || EqualFold(e.service, req.service))
        && (req.level == "" || EqualFold(e.level, req.level))
        && (forall k | k in req.labels :: (if k in e.labels then e.labels[k] else "") == req.labels[k]);
      multiset(Matching(req, es))[e] == if asked then multiset(es)[e] else 0
  {
    FoundInOrder(req, es);
    forall e: LogEntry
      ensures var asked :=
                && req.start <= e.timestamp <= req.end
                && (req.service == "" || EqualFold(e.service, req.service))
                && (req.level == "" || EqualFold(e.level, req.level))
                && (forall k | k in req.labels :: (if k in e.labels then e.labels[k] else "") == req.labels[k]);
              multiset(Matching(req, es))[e] == if asked then multiset(es)[e] else 0
    {
      FoundExactly(req, es, e);
    }
  }

  predicate TimeOverlaps(lo: int, hi: int, start: int, end: int) {
    !(hi < start) && !(lo > end)
  }

  predicate Within(t: int, lo: int, hi: int) { lo <= t <= hi }

  /** Some instant lies in both ranges. */
  lemma OverlapExact(lo: int, hi: int, start: int, end: int)
    requires lo <= hi && start <= end
    ensures TimeOverlaps(lo, hi, start, end) <==> exists t :: Within(t, lo, hi) && Within(t, start, end)
  {
    if TimeOverlaps(lo, hi, start, end) {
      var t := if lo < start then start else lo;
      assert Within(t, lo, hi) && Within(t, start, end);
    }
  }

  predicate IndexMatches(req: Request, c: Chunk) {
    && TimeOverlaps(c.minTime, c.maxTime, req.start, req.end)
    && ServiceMatches(req.service, c.service)
    && Match(c.labelSets, req.labels)
  }

  // ---- Store.Query ----

  /** ListObjectsV2 under a prefix. */
  function Under(keys: seq<string>, prefix: string): seq<string> {
    if keys == [] then []
    else (if prefix <= keys[0] then [keys[0]] else []) + Under(keys[1..], prefix)
  }

  /** A listing keeps the bucket's order. */
  lemma {:induction false} UnderInOrder(keys: seq<string>, prefix: string)
    ensures Subsequence(Under(keys, prefix), keys)
  {
    if keys != [] {
      UnderInOrder(keys[1..], prefix);
      var rest := Under(keys[1..], prefix);
      if prefix <= keys[0] {
        assert ([keys[0]] + rest)[1..] == rest;
      } else {
        assert Under(keys, prefix) == rest;
      }
    }
  }

  function Visited(keys: seq<string>, prefixes: seq<string>): seq<string> {
    if prefixes == [] then [] else Under(keys, prefixes[0]) + Visited(keys, prefixes[1..])
  }

  /** The index entry one index object contributes. */
  function Hit(env: Env, s3: Reads, req: Request, key: string): seq<Chunk> {
    if key !in s3.objects then []
    else match env.codec.decIndex(s3.objects[key])
      case None => []
      case Some(c) => if IndexMatches(req, c) then [c] else []
  }

  function Hits(env: Env, s3: Reads, req: Request, keys: seq<string>): seq<Chunk> {
    if keys == [] then [] else Hit(env, s3, req, keys[0]) + Hits(env, s3, req, keys[1..])
  }

  function QueryPrefixes(env: Env, req: Request): seq<string> {
    DayRange(env.indexPrefix, Day(req.start), Day(req.end))
  }

  ghost predicate Listable(env: Env, s3: Reads, req: Request) {
    forall p | p in QueryPrefixes(env, req) :: p !in s3.unlistable
  }

  function QueryHits(env: Env, s3: Reads, req: Request): seq<Chunk> {
    Hits(env, s3, req, Visited(s3.keys, QueryPrefixes(env, req)))
  }

  method ListUnder(keys: seq<string>, prefix: string) returns (r: seq<string>)
    ensures r == Under(keys, prefix)
  {
    r := [];
    for i := 0 to |keys|
      invariant r + Under(keys[i..], prefix) == Under(keys, prefix)
    {
      assert keys[i..][0] == keys[i] && keys[i..][1..] == keys[i + 1..];
      if prefix <= keys[i] {
        r := r + [keys[i]];
      }
    }
  }

  method QueryIndex(env: Env, s3: Reads, req: Request) returns (r: Result<seq<Chunk>>)
    ensures r == if Listable(env, s3, req) then Ok(QueryHits(env, s3, req)) else Err
  {
    var prefixes := DayPrefixes(env.indexPrefix, req.start, req.end);
    r := QueryUnder(env, s3, req, prefixes);
  }

  /** The loop over the day prefixes. */
  method QueryUnder(env: Env, s3: Reads, req: Request, prefixes: seq<string>) returns (r: Result<seq<Chunk>>)
    ensures r == if forall p | p in prefixes :: p !in s3.unlistable
                 then Ok(Hits(env, s3, req, Visited(s3.keys, prefixes))) else Err
  {
    var results: seq<Chunk> := [];
    ghost var visited: seq<string> := [];
    for i := 0 to |prefixes|
      invariant visited + Visited(s3.keys, prefixes[i..]) == Visited(s3.keys, prefixes)
      invariant results == Hits(env, s3, req, visited)
      invariant forall j | 0 <= j < i :: prefixes[j] !in s3.unlistable
    {
      if prefixes[i] in s3.unlistable {
        return Err;
      }
      var keys := ListUnder(s3.keys, prefixes[i]);
      results := ReadIndexes(env, s3, req, keys, results, visited);
      VisitedStep(s3.keys, prefixes, i, visited);
      visited := visited + keys;
    }
    assert visited == Visited(s3.keys, prefixes);
    return Ok(results);
  }

  lemma VisitedStep(keys: seq<string>, prefixes: seq<string>, i: nat, visited: seq<string>)
    requires i < |prefixes|
    ensures visited + Visited(keys, prefixes[i..])
            == (visited + Under(keys, prefixes[i])) + Visited(keys, prefixes[i + 1..])
  {
    assert prefixes[i..][1..] == prefixes[i + 1..];
  }

  lemma {:induction false} HitsConcat(env: Env, s3: Reads, req: Request, a: seq<string>, b: seq<string>)
    ensures Hits(env, s3, req, a + b) == Hits(env, s3, req, a) + Hits(env, s3, req, b)
  {
    if a == [] {
      assert a + b == b;
    } else {
      assert (a + b)[1..] == a[1..] + b;
      HitsConcat(env, s3, req, a[1..], b);
    }
  }

  /** The inner loop over the keys of one day. */
  method ReadIndexes(env: Env, s3: Reads, req: Request, keys: seq<string>, before: seq<Chunk>,
                     ghost visited: seq<string>)
    returns (results: seq<Chunk>)
    requires before == Hits(env, s3, req, visited)
    ensures results == Hits(env, s3, req, visited + keys)
  {
    results := before;
    for i := 0 to |keys|
      invariant results == before + Hits(env, s3, req, keys[..i])
    {
      assert keys[..i + 1] == keys[..i] + [keys[i]];
      HitsConcat(env, s3, req, keys[..i], [keys[i]]);
      assert Hits(env, s3, req, [keys[i]]) == Hit(env, s3, req, keys[i]);
      if keys[i] !in s3.objects {
        continue;
      }
      var decoded := env.codec.decIndex(s3.objects[keys[i]]);
      if decoded.None? {
        continue;
      }
      var c := decoded.value;
      if !TimeOverlaps(c.minTime, c.maxTime, req.start, req.end) {
        continue;
      }
      if req.service != "" && !EqualFold(c.service, req.service) {
        continue;
      }
      var labelsMatch := MatchLabels(c.labelSets, req.labels);
      if !labelsMatch {
        continue;
      }
      results := results + [c];
    }
    assert keys[..|keys|] == keys;
    HitsConcat(env, s3, req, visited, keys);
  }

  // ---- fetchAndFilter ----

  predicate HasSuffix(s: string, suffix: string) {
    |suffix| <= |s| && s[|s| - |suffix|..] == suffix
  }

  function AlgoOfKey(key: string): Algo { if HasSuffix(key, ".sz") then Snappy else Gzip }

  /** The entries of a chunk that can be fetched, decompressed and scanned. */
  function Fetched(env: Env, s3: Reads, chunkKey: string): Result<seq<LogEntry>> {
    var key := env.s3Prefix + chunkKey;
    if key !in s3.objects then Err
    else match env.codec.decompress(AlgoOfKey(chunkKey), s3.objects[key])
      case None => Err
      case Some(raw) => Scanned(env.codec, raw)
  }

  method FetchAndFilter(env: Env, s3: Reads, chunkKey: string, req: Request) returns (r: Result<(seq<LogEntry>, nat)>)
    ensures r == match Fetched(env, s3, chunkKey) { case Err => Err case Ok(es) => Ok((Matching(req, es), |es|)) }
    ensures r.Ok? ==> Subsequence(r.value.0, Fetched(env, s3, chunkKey).value)
    ensures r.Ok? ==> forall e: LogEntry ::
      var asked :=
        && req.start <= e.timestamp <= req.end
        && (req.service == "" || EqualFold(e.service, req.service))
        && (req.level == "" || EqualFold(e.level, req.level))
        && (forall k | k in req.labels :: (if k in e.labels then e.labels[k] else "") == req.labels[k]);
      multiset(r.value.0)[e] == if asked then multiset(Fetched(env, s3, chunkKey).value)[e] else 0
  {
    var key := env.s3Prefix + chunkKey;
    if key !in s3.objects {
      return Err;
    }
    var raw := env.codec.decompress(AlgoOfKey(chunkKey), s3.objects[key]);
    if raw.None? {
      return Err;
    }
    var scanned := Scan(env.codec, raw.value);
    if scanned.Err? {
      return Err;
    }
    var matched := FilterEntries(req, scanned.value);
    AllFound(req, scanned.value);
    return Ok((matched, |scanned.value|));
  }

  method FilterEntries(req: Request, es: seq<LogEntry>) returns (matched: seq<LogEntry>)
    ensures matched == Matching(req, es)
  {
    matched := [];
    for i := 0 to |es|
      invariant matched + Matching(req, es[i..]) == Matching(req, es)
    {
      assert es[i..][0] == es[i] && es[i..][1..] == es[i + 1..];
      var e := es[i];
      Assoc(matched, if EntryMatches(req, e) then [e] else [], Matching(req, es[i + 1..]));
      if e.timestamp < req.start || e.timestamp > req.end {
        continue;
      }
      if req.service != "" && !EqualFold(e.service, req.service) {
        continue;
      }
      if req.level != "" && !EqualFold(e.level, req.level) {
        continue;
      }
      var labelled := AllMatch(e.labels, req.labels);
      if !labelled {
        continue;
      }
      matched := matched + [e];
    }
  }

  // ---- Engine.Run ----

  /** What one matched chunk adds to an unlimited scan. */
  function Contribution(env: Env, s3: Reads, req: Request, c: Chunk): seq<LogEntry> {
    match Fetched(env, s3, c.key)
    case Err => []
    case Ok(es) => Matching(req, es)
  }

  function Unlimited(env: Env, s3: Reads, req: Request, cs: seq<Chunk>): seq<LogEntry> {
    if cs == [] then [] else Contribution(env, s3, req, cs[0]) + Unlimited(env, s3, req, cs[1..])
  }

  function LimitOf(req: Request): nat { if req.limit <= 0 then DEFAULT_LIMIT else req.limit }

  function Take<T>(s: seq<T>, n: nat): seq<T> { if |s| <= n then s else s[..n] }

  lemma {:induction false} MatchingShorter(req: Request, es: seq<LogEntry>)
    ensures |Matching(req, es)| <= |es|
  {
    if es != [] { MatchingShorter(req, es[1..]); }
  }

  lemma {:induction false} UnlimitedConcat(env: Env, s3: Reads, req: Request, a: seq<Chunk>, b: seq<Chunk>)
    ensures Unlimited(env, s3, req, a + b) == Unlimited(env, s3, req, a) + Unlimited(env, s3, req, b)
  {
    if a == [] {
      assert a + b == b;
    } else {
      assert (a + b)[1..] == a[1..] + b;
      UnlimitedConcat(env, s3, req, a[1..], b);
    }
  }

  lemma UnlimitedSnoc(env: Env, s3: Reads, req: Request, cs: seq<Chunk>, i: nat)
    requires i < |cs|
    ensures Unlimited(env, s3, req, cs[..i + 1]) == Unlimited(env, s3, req, cs[..i]) + Contribution(env, s3, req, cs[i])
  {
    assert cs[..i + 1] == cs[..i] + [cs[i]];
    UnlimitedConcat(env, s3, req, cs[..i], [cs[i]]);
    assert Unlimited(env, s3, req, [cs[i]]) == Contribution(env, s3, req, cs[i]);
  }

  /** Stopping once there are enough entries changes nothing in the first n. */
  lemma EarlyExit(env: Env, s3: Reads, req: Request, cs: seq<Chunk>, i: nat, n: nat)
    requires i <= |cs| && (i == |cs| || |Unlimited(env, s3, req, cs[..i])| >= n)
    ensures Take(Unlimited(env, s3, req, cs[..i]), n) == Take(Unlimited(env, s3, req, cs), n)
  {
    assert cs == cs[..i] + cs[i..];
    UnlimitedConcat(env, s3, req, cs[..i], cs[i..]);
    if i == |cs| {
      assert cs[..i] == cs;
    }
  }

  /** Whatever an unlimited scan finds is what was asked for. */
  lemma {:induction false} FoundAreAsked(env: Env, s3: Reads, req: Request, cs: seq<Chunk>)
    ensures forall e | e in Unlimited(env, s3, req, cs) :: EntryMatches(req, e)
  {
    if cs != [] {
      FoundAreAsked(env, s3, req, cs[1..]);
      var here := Contribution(env, s3, req, cs[0]);
      forall e | e in here
        ensures EntryMatches(req, e)
      {
        var es := Fetched(env, s3, cs[0].key).value;
        assert multiset(Matching(req, es))[e] > 0;
        FoundExactly(req, es, e);
      }
    }
  }

  lemma PartIsAsked(env: Env, s3: Reads, req: Request, cs: seq<Chunk>, part: seq<LogEntry>)
    requires part <= Unlimited(env, s3, req, cs)
    ensures forall e | e in part ::
      && req.start <= e.timestamp <= req.end
      && (req.service == "" || EqualFold(e.service, req.service))
      && (req.level == "" || EqualFold(e.level, req.level))
      && (forall k | k in req.labels :: (if k in e.labels then e.labels[k] else "") == req.labels[k])
  {
    FoundAreAsked(env, s3, req, cs);
    assert forall e | e in part :: e in Unlimited(env, s3, req, cs) && EntryMatches(req, e);
  }

  /** The chunks that can be read, by position. */
  ghost function ReadableAt(env: Env, s3: Reads, cs: seq<Chunk>): set<nat> {
    set i: nat | i < |cs| && Fetched(env, s3, cs[i].key).Ok?
  }

  /** How many entries each chunk holds, none for one that cannot be read. */
  ghost function EntryCounts(env: Env, s3: Reads, cs: seq<Chunk>): (ns: seq<nat>)
    ensures |ns| == |cs|
    ensures forall i | 0 <= i < |cs| ::
      ns[i] == match Fetched(env, s3, cs[i].key) { case Err => 0 case Ok(es) => |es| }
  {
    if cs == [] then []
    else
      var n: nat := match Fetched(env, s3, cs[|cs| - 1].key) { case Err => 0 case Ok(es) => |es| };
      EntryCounts(env, s3, cs[..|cs| - 1]) + [n]
  }

  lemma CountsSnoc(env: Env, s3: Reads, cs: seq<Chunk>, i: nat)
    requires i < |cs|
    ensures |ReadableAt(env, s3, cs[..i + 1])|
         == |ReadableAt(env, s3, cs[..i])| + if Fetched(env, s3, cs[i].key).Ok? then 1 else 0
    ensures Total(EntryCounts(env, s3, cs[..i + 1]))
         == Total(EntryCounts(env, s3, cs[..i]))
             + match Fetched(env, s3, cs[i].key) { case Err => 0 case Ok(es) => |es| }
  {
    OneMore((k: nat) => k < |cs| && Fetched(env, s3, cs[k].key).Ok?, i,
            ReadableAt(env, s3, cs[..i]), ReadableAt(env, s3, cs[..i + 1]));
    var n: nat := match Fetched(env, s3, cs[i].key) { case Err => 0 case Ok(es) => |es| };
    assert cs[..i + 1][..i] == cs[..i];
    TotalConcat(EntryCounts(env, s3, cs[..i]), [n]);
    TotalConcat([n], []);
  }

  /** The scan of cs stops behind the first k chunks: it has enough entries then, or no more
      chunks, and had too few before. */
  ghost predicate StopsAt(env: Env, s3: Reads, req: Request, cs: seq<Chunk>, k: nat) {
    && k <= |cs| && (k == |cs| || |Unlimited(env, s3, req, cs[..k])| >= LimitOf(req))
    && forall j | 0 <= j < k :: |Unlimited(env, s3, req, cs[..j])| < LimitOf(req)
  }

  /** A query cancelled before chunk i is answered all the same when it has no more chunks
      to fetch by then, or enough entries. */
  predicate Finishes(env: Env, s3: Reads, req: Request, cs: seq<Chunk>, cancelled: nat) {
    cancelled >= |cs| || |Unlimited(env, s3, req, cs[..cancelled])| >= LimitOf(req)
  }

  lemma UnlimitedGrows(env: Env, s3: Reads, req: Request, cs: seq<Chunk>, i: nat, j: nat)
    requires i <= |cs| && i <= j
    ensures j <= |cs| ==> |Unlimited(env, s3, req, cs[..i])| <= |Unlimited(env, s3, req, cs[..j])|
  {
    if j <= |cs| {
      assert cs[..j] == cs[..i] + cs[i..j];
      UnlimitedConcat(env, s3, req, cs[..i], cs[i..j]);
    }
  }

  /** What the statistics of a scan of cs that stops at chunk k count. */
  ghost predicate Counts(env: Env, s3: Reads, req: Request, cs: seq<Chunk>, fetched: nat, scanned: nat, k: nat) {
    && StopsAt(env, s3, req, cs, k)
    && fetched == |ReadableAt(env, s3, cs[..k])| && scanned == Total(EntryCounts(env, s3, cs[..k]))
  }

  /** Where the scan of cs stands behind its last chunk. */
  ghost predicate Scanning(env: Env, s3: Reads, req: Request, cs: seq<Chunk>, entries: seq<LogEntry>, fetched: nat,
                           scanned: nat)
  {
    && entries == Unlimited(env, s3, req, cs) && fetched <= |cs| && |entries| <= scanned
    && fetched == |ReadableAt(env, s3, cs)| && scanned == Total(EntryCounts(env, s3, cs))
  }

  /** The loop body: one chunk. */
  method ScanChunk(env: Env, s3: Reads, req: Request, cs: seq<Chunk>, i: nat, entries: seq<LogEntry>, fetched: nat,
                   scanned: nat)
    returns (entries': seq<LogEntry>, fetched': nat, scanned': nat)
    requires i < |cs| && Scanning(env, s3, req, cs[..i], entries, fetched, scanned)
    ensures Scanning(env, s3, req, cs[..i + 1], entries', fetched', scanned')
  {
    entries', fetched', scanned' := entries, fetched, scanned;
    var chunk := FetchAndFilter(env, s3, cs[i].key, req);
    UnlimitedSnoc(env, s3, req, cs, i);
    CountsSnoc(env, s3, cs, i);
    if chunk.Ok? {
      MatchingShorter(req, Fetched(env, s3, cs[i].key).value);
      fetched' := fetched + 1;
      scanned' := scanned + chunk.value.1;
      entries' := entries + chunk.value.0;
    }
  }

  /** The loop over the index hits: done unless the context ends it. */
  method ScanChunks(env: Env, s3: Reads, req: Request, cs: seq<Chunk>, cancelled: nat)
    returns (done: bool, entries: seq<LogEntry>, fetched: nat, scanned: nat, ghost k: nat)
    ensures done <==> Finishes(env, s3, req, cs, cancelled)
    ensures done ==> Counts(env, s3, req, cs, fetched, scanned, k) && entries == Unlimited(env, s3, req, cs[..k])
    ensures done ==> fetched <= |cs| && |entries| <= scanned
  {
    var limit := LimitOf(req);
    entries, fetched, scanned := [], 0, 0;
    var i := 0;
    while i < |cs|
      invariant 0 <= i <= |cs| && i <= cancelled
      invariant Scanning(env, s3, req, cs[..i], entries, fetched, scanned)
      invariant forall j | 0 <= j < i :: |Unlimited(env, s3, req, cs[..j])| < limit
    {
      if |entries| >= limit {
        break;
      }
      if i >= cancelled {
        return false, entries, fetched, scanned, i;
      }
      entries, fetched, scanned := ScanChunk(env, s3, req, cs, i, entries, fetched, scanned);
      i := i + 1;
    }
    UnlimitedGrows(env, s3, req, cs, i, cancelled);
    return true, entries, fetched, scanned, i;
  }

  /** Run: the first `limit` entries of the unlimited scan of the index hits, in index
      order. cancelled is the first chunk before which the context is done; k is where the
      scan stopped. */
  method Run(env: Env, s3: Reads, req: Request, cancelled: nat) returns (r: Result<Response>, ghost k: nat)
    ensures r.Ok? <==> Listable(env, s3, req) && Finishes(env, s3, req, QueryHits(env, s3, req), cancelled)
    ensures r.Ok? ==> r.value.entries == Take(Unlimited(env, s3, req, QueryHits(env, s3, req)),
                                              if req.limit <= 0 then 200 else req.limit)
    ensures r.Ok? ==> forall e | e in r.value.entries ::
      && req.start <= e.timestamp <= req.end
      && (req.service == "" || EqualFold(e.service, req.service))
      && (req.level == "" || EqualFold(e.level, req.level))
      && (forall k | k in req.labels :: (if k in e.labels then e.labels[k] else "") == req.labels[k])
    ensures r.Ok? ==> r.value.stats.indexFilesScanned == r.value.stats.chunksMatched == |QueryHits(env, s3, req)|
    ensures r.Ok? ==> Counts(env, s3, req, QueryHits(env, s3, req),
                             r.value.stats.chunksFetched, r.value.stats.entriesScanned, k)
    ensures r.Ok? ==> r.value.stats.chunksFetched <= r.value.stats.chunksMatched
    ensures r.Ok? ==> r.value.stats.entriesMatched == |r.value.entries| <= r.value.stats.entriesScanned
  {
    k := 0;
    var limit := LimitOf(req);
    var found := QueryIndex(env, s3, req);
    if found.Err? {
      return Err, k;
    }
    var indexes := found.value;
    var done, entries, fetched, scanned;
    done, entries, fetched, scanned, k := ScanChunks(env, s3, req, indexes, cancelled);
    if !done {
      return Err, k;
    }
    EarlyExit(env, s3, req, indexes, k, limit);
    if |entries| > limit {
      entries := entries[..limit];
    }
    PartIsAsked(env, s3, req, indexes[..k], entries);
    return Ok(Response(entries, Stats(|indexes|, |indexes|, fetched, scanned, |entries|))), k;
  }
}
