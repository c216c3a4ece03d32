/** Which chunks an export job reaches: the exact listing rule for every pair of service
    names, and when the export is the plain scan of all stored chunks. */
module ExportScan {
  import opened Seqs
  import opened Calendar
  import opened Domain
  import opened Lines
  import opened Keys
  import opened KeyRouting
  import opened Query
  import opened Exporter
  import opened Bags
  import opened Pipeline
  import opened IndexTruth
  import opened EndToEnd
  import Visibility
  import Ledger

  // ---- the listing rule ----

  /** Path components of a job's service. */
  function Path(service: string): seq<string> { if service == "" then [] else Split(service, '/') }

  lemma PathFree(service: string)
    ensures forall p | p in Path(service) :: '/' !in p
  {
    if service != "" { SplitPartsFree(service, '/'); }
  }

  lemma JoinPath(service: string, parts: seq<string>)
    requires parts != []
    ensures Join(Path(service) + parts, '/') == ServicePath(service) + Join(parts, '/')
  {
    if service == "" {
      assert Path(service) + parts == parts;
    } else {
      JoinConcat(Split(service, '/'), parts, '/');
      JoinSplit(service, '/');
    }
  }

  /** A key lies under a job's prefix for day d when the service's components and the
      day's lead its own. */
  lemma JobPrefixComponents(prefix: string, service: string, d: int, tail: string)
    ensures DayPrefix(prefix + ServicePath(service), d) <= prefix + tail
            <==> Path(service) + DayParts(d) < Split(tail, '/')
  {
    var parts, path := Path(service) + DayParts(d), ServicePath(service);
    PathFree(service);
    DayPartsPlain(d);
    JoinPath(service, DayParts(d));
    assert forall p | p in parts :: p in Path(service) || p in DayParts(d);
    PathPrefix(prefix, path, DayText(d), parts, tail);
  }

  lemma ChunkKeyComponents(service: string, t: int, id: string, algo: Algo) returns (file: string)
    requires IsId(id)
    ensures Split(ChunkKey(service, t, id, algo), '/') == Split(service, '/') + DayParts(Day(t)) + [file]
  {
    ChunkKeyForm(service, t, id, algo);
    StemPlain(t, id);
    var stem, letters := FileStem(t, id), FileExtension(algo)[1..];
    assert letters == "gz" || letters == "sz";
    file := stem + "." + letters;
    KeyComponents(service, DayText(Day(t)), DayParts(Day(t)), stem, letters, file) by { DayPartsPlain(Day(t)); }
  }

  lemma KeyComponents(service: string, day: string, parts: seq<string>, stem: string, letters: string, file: string)
    requires day == Join(parts, '/') && parts != [] && forall p | p in parts :: '/' !in p
    requires file == stem + "." + letters && '/' !in stem && '/' !in letters
    ensures Split(service + "/" + (day + "/" + stem + "." + letters), '/') == Split(service, '/') + parts + [file]
  {
    Assoc(day + "/", stem + ".", letters);
    Assoc(day + "/", stem, ".");
    FileComponents(parts, file);
    SplitConcat(service, '/', day + "/" + file);
    Assoc(Split(service, '/'), parts, [file]);
  }

  /** The job for service wanted and day d lists the chunks stored under service on day. */
  predicate ListedOn(wanted: string, d: int, service: string, day: int) {
    Path(wanted) + DayParts(d) <= Split(service, '/') + DayParts(day)
  }

  lemma StrictPrefix<T>(a: seq<T>, b: seq<T>, x: T)
    ensures a < b + [x] <==> a <= b
  {
    if a < b + [x] { assert b == (b + [x])[..|b|]; }
  }

  /** Export selection for every pair of service names, time and day. */
  lemma Listing(prefix: string, wanted: string, d: int, service: string, t: int, id: string, algo: Algo)
    requires IsId(id)
    ensures DayPrefix(prefix + ServicePath(wanted), d) <= prefix + ChunkKey(service, t, id, algo)
       <==> ListedOn(wanted, d, service, Day(t))
  {
    JobPrefixComponents(prefix, wanted, d, ChunkKey(service, t, id, algo));
    var file := ChunkKeyComponents(service, t, id, algo);
    StrictPrefix(Path(wanted) + DayParts(d), Split(service, '/') + DayParts(Day(t)), file);
  }

  /** A slash-free job service lists slash-free services exactly: the same name, to the
      letter, and the chunk's first day. */
  lemma ListingSlashFree(wanted: string, d: int, service: string, day: int)
    requires SlashFree(wanted) && wanted != "" && SlashFree(service)
    ensures ListedOn(wanted, d, service, day) <==> wanted == service && d == day
  {
    SplitFree(wanted, '/');
    SplitFree(service, '/');
    var a, b := [wanted] + DayParts(d), [service] + DayParts(day);
    assert |a| == |b| == 4;
    assert a <= b <==> a == b;
    if a == b {
      assert a[0] == b[0];
      assert a[1..] == DayParts(d) && b[1..] == DayParts(day);
      DayPartsInjective(d, day);
    }
  }

  /** Without a service nothing stored under a slash-free service is listed. */
  lemma ListingNoService(d: int, service: string, day: int)
    requires SlashFree(service)
    ensures !ListedOn("", d, service, day)
  {
    SplitFree(service, '/');
    var a, b := Path("") + DayParts(d), [service] + DayParts(day);
    assert |a[1]| == 2 && |b[1]| >= 4;
  }

  // ---- what one listed object contributes ----

  /** An index file is JSON, not a gzip stream. */
  ghost predicate ExportCodecOk(c: Codec) {
    CodecOk(c) && forall k | c.encIndex(k).Some? :: c.decompress(Gzip, c.encIndex(k).value) == None
  }

  /** The codec laws can be met together: a codec for one entry and one index file. */
  ghost function TinyCodec(e0: LogEntry, k0: Chunk): Codec {
    Codec(e => if e == e0 then Some([1]) else None,
          b => if b == [1] then Some(e0) else None,
          (a, x) => [0] + x,
          (a, b) => if b != [] && b[0] == 0 then Some(b[1..]) else None,
          k => if k == k0 then Some([1]) else None,
          b => if b == [1] then Some(k0) else None)
  }

  lemma CodecLawsConsistent(e0: LogEntry, k0: Chunk)
    ensures var c := TinyCodec(e0, k0); ExportCodecOk(c) && c.enc(e0).Some? && c.encIndex(k0).Some?
  {
    var c := TinyCodec(e0, k0);
    forall a: Algo, x: bytes
      ensures c.decompress(a, c.compress(a, x)) == Some(x) && c.decIndex(c.compress(a, x)) == None
    {
      var y: bytes := [0] + x;
      assert y[1..] == x && y[0] == 0;
    }
  }

  /** Some day of the job lists the chunk. */
  ghost predicate Listed(req: Request, c: Chunk) {
    exists d :: InRange(req, d) && ListedOn(req.service, d, c.service, Day(c.minTime))
  }

  lemma ListedIff(req: Request, c: Chunk, p: int -> string, key: string)
    requires forall d :: p(d) <= key <==> ListedOn(req.service, d, c.service, Day(c.minTime))
    ensures Listed(req, c) <==> exists d :: Day(req.start) <= d <= Day(req.end) && p(d) <= key
  {
    if d :| InRange(req, d) && ListedOn(req.service, d, c.service, Day(c.minTime)) {
      assert p(d) <= key;
    }
    if d :| Day(req.start) <= d <= Day(req.end) && p(d) <= key {
      assert InRange(req, d);
    }
  }

  lemma DayIffListed(prefix: string, req: Request, c: Chunk, id: string, algo: Algo, key: string, d: int)
    requires IsId(id) && key == prefix + ChunkKey(c.service, c.minTime, id, algo)
    ensures DayPrefixOf(prefix + ServicePath(req.service))(d) <= key
       <==> ListedOn(req.service, d, c.service, Day(c.minTime))
  {
    Listing(prefix, req.service, d, c.service, c.minTime, id, algo);
  }

  /** The job visits a stored chunk exactly when one of its days lists it. */
  lemma VisitedIffListed(cfg: Config, req: Request, s3: Reads, id: string, sc: StoredChunk)
    requires TrueChunk(cfg, id, sc)
    ensures ObjectKey(cfg, sc) in JobKeys(EnvOf(cfg), s3, req)
            <==> ObjectKey(cfg, sc) in s3.keys && Listed(req, sc.chunk)
  {
    var key, prefix := ObjectKey(cfg, sc), cfg.s3Prefix + ServicePath(req.service);
    forall d
      ensures DayPrefixOf(prefix)(d) <= key <==> ListedOn(req.service, d, sc.chunk.service, Day(sc.chunk.minTime))
    {
      DayIffListed(cfg.s3Prefix, req, sc.chunk, id, cfg.algo, key, d);
    }
    VisitedOnSomeDay(s3.keys, prefix, Day(req.start), Day(req.end), key);
    ListedIff(req, sc.chunk, DayPrefixOf(prefix), key);
  }

  lemma VisitedOnceByJob(cfg: Config, req: Request, s3: Reads)
    requires NoDup(s3.keys)
    ensures NoDup(JobKeys(EnvOf(cfg), s3, req))
  {
    DaysExclusive(cfg.s3Prefix + ServicePath(req.service), Day(req.start), Day(req.end));
    VisitedNoDup(s3.keys, JobPrefixes(EnvOf(cfg), req));
  }

  lemma SuffixAlgo(key: string, algo: Algo)
    requires |key| >= 3 && key[|key| - 3..] == FileExtension(algo)
    ensures AlgoOfKey(key) == algo
  {
  }

  lemma RawKey(env: Env, s3: Reads, chunkKey: string)
    requires AlgoOfKey(env.s3Prefix + chunkKey) == AlgoOfKey(chunkKey)
    ensures Readable(env, s3, env.s3Prefix + chunkKey) == Fetched(env, s3, chunkKey)
  {
    assert "" + (env.s3Prefix + chunkKey) == env.s3Prefix + chunkKey;
  }

  lemma StoredContribution(cfg: Config, st: Store, s3: Reads, req: Request, id: string)
    requires CodecOk(cfg.codec) && StoreOk(cfg, st) && Snapshot(st, s3) && id in st.stored
    ensures id in st.begun && TrueChunk(cfg, id, st.begun[id])
    ensures var sc := st.begun[id];
            ObjectKey(cfg, sc) in s3.keys &&
            KeyMatches(EnvOf(cfg), s3, req, ObjectKey(cfg, sc))
            == if Fits(cfg, sc.entries) then Matching(req, sc.entries) else []
  {
    FetchStored(cfg, st, s3, id);
    assert Ledger.HasChunk(st.bucket, AllFiles(cfg, st.begun)[id]);
    SameFetch(cfg, s3, id, st.begun[id]);
    var sc := st.begun[id];
    MatchesOf(EnvOf(cfg), s3, req, ObjectKey(cfg, sc), if Fits(cfg, sc.entries) then Ok(sc.entries) else Err);
  }

  lemma MatchesOf(env: Env, s3: Reads, req: Request, key: string, r: Result<seq<LogEntry>>)
    requires Readable(env, s3, key) == r
    ensures KeyMatches(env, s3, req, key) == if r.Ok? then Matching(req, r.value) else []
  {
  }

  /** The full key reads the same object as prefix and chunk key. */
  lemma SameFetch(cfg: Config, s3: Reads, id: string, sc: StoredChunk)
    requires TrueChunk(cfg, id, sc)
    ensures Readable(EnvOf(cfg), s3, ObjectKey(cfg, sc)) == Fetched(EnvOf(cfg), s3, sc.chunk.key)
  {
    var c := sc.chunk;
    ChunkKeyId(cfg.s3Prefix, c.service, c.minTime, id, cfg.algo);
    SuffixAlgo(ObjectKey(cfg, sc), cfg.algo);
    AlgoRecovered(c.service, c.minTime, id, cfg.algo);
    RawKey(EnvOf(cfg), s3, c.key);
  }

  lemma JsonIsGzip(key: string)
    requires |key| >= 5 && key[|key| - 5..] == ".json"
    ensures AlgoOfKey(key) == Gzip
  {
    assert key[|key| - 1] == 'n' by { assert key[|key| - 5..][4] == key[|key| - 1]; }
    assert key[|key| - 3..][2] == key[|key| - 1];
  }

  lemma JsonContribution(env: Env, s3: Reads, req: Request, key: string, data: bytes)
    requires AlgoOfKey(key) == Gzip && Ledger.Has(s3.objects, key, data) && env.codec.decompress(Gzip, data) == None
    ensures KeyMatches(env, s3, req, key) == []
  {
    assert "" + key == key;
  }

  lemma IndexFileIsJson(cfg: Config, id: string, sc: StoredChunk)
    requires TrueChunk(cfg, id, sc)
    ensures AlgoOfKey(IndexFileKey(cfg, sc)) == Gzip
  {
    IndexKeyId(cfg.indexPrefix, sc.chunk.service, sc.chunk.minTime, id, cfg.algo);
    JsonIsGzip(IndexFileKey(cfg, sc));
  }

  /** An index file among the listed objects is an unreadable chunk. */
  lemma IndexFileContribution(cfg: Config, st: Store, s3: Reads, req: Request, id: string)
    requires ExportCodecOk(cfg.codec) && StoreOk(cfg, st) && Snapshot(st, s3) && id in st.indexed && id in st.begun
    ensures KeyMatches(EnvOf(cfg), s3, req, IndexFileKey(cfg, st.begun[id])) == []
  {
    var sc := st.begun[id];
    assert Ledger.HasIndex(st.bucket, AllFiles(cfg, st.begun)[id]);
    IndexFileIsJson(cfg, id, sc);
    JsonContribution(EnvOf(cfg), s3, req, IndexFileKey(cfg, sc), cfg.codec.encIndex(sc.chunk).value);
  }

  lemma OnlyStoredContribute(cfg: Config, st: Store, s3: Reads, req: Request, key: string)
    requires ExportCodecOk(cfg.codec) && StoreOk(cfg, st) && Snapshot(st, s3) && key in s3.keys
    requires KeyMatches(EnvOf(cfg), s3, req, key) != []
    ensures exists id :: id in st.stored && id in st.begun && key == ObjectKey(cfg, st.begun[id])
  {
    var files := AllFiles(cfg, st.begun);
    assert key in st.bucket;
    var id :| Ledger.Owns(files, st.stored, st.indexed, id, key);
    if id in st.indexed {
      IndexFileContribution(cfg, st, s3, req, id);
    }
  }

  // ---- the theorem ----

  /** The job reaches the chunk. */
  ghost predicate Reached(cfg: Config, req: Request, sc: StoredChunk) {
    Listed(req, sc.chunk) && Encodable(cfg.codec, sc.entries) && Fits(cfg, sc.entries)
  }

  ghost function Exports(cfg: Config, st: Store, req: Request): string -> seq<LogEntry> {
    id => if id in st.begun && Reached(cfg, req, st.begun[id]) then Matching(req, st.begun[id].entries) else []
  }

  ghost function ObjectOf(cfg: Config, st: Store): string -> string {
    id => if id in st.begun then ObjectKey(cfg, st.begun[id]) else ""
  }

  ghost function ByObject(env: Env, s3: Reads, req: Request): string -> seq<LogEntry> {
    k => KeyMatches(env, s3, req, k)
  }

  lemma {:induction false} SelectedByKey(env: Env, s3: Reads, req: Request, keys: seq<string>)
    ensures multiset(Selected(env, s3, req, keys)) == Bag(keys, ByObject(env, s3, req))
  {
    if keys != [] {
      SelectedByKey(env, s3, req, keys[1..]);
    }
  }

  lemma ObjectsDiffer(cfg: Config, st: Store, s3: Reads, a: string, b: string)
    requires CodecOk(cfg.codec) && StoreOk(cfg, st) && Snapshot(st, s3) && a in st.stored && b in st.stored && a != b
    ensures ObjectOf(cfg, st)(a) != ObjectOf(cfg, st)(b)
  {
    FetchStored(cfg, st, s3, a);
    FetchStored(cfg, st, s3, b);
    FilesApart(cfg, a, st.begun[a], b, st.begun[b]);
  }

  lemma ObjectsAgree(cfg: Config, st: Store, s3: Reads, req: Request, id: string)
    requires CodecOk(cfg.codec) && StoreOk(cfg, st) && Snapshot(st, s3) && id in st.stored
    ensures var ks, key := JobKeys(EnvOf(cfg), s3, req), ObjectOf(cfg, st)(id);
            Exports(cfg, st, req)(id) == if key in ks then ByObject(EnvOf(cfg), s3, req)(key) else []
  {
    StoredContribution(cfg, st, s3, req, id);
    VisitedIffListed(cfg, req, s3, id, st.begun[id]);
    ExportsForm(cfg, st, req, id);
  }

  lemma ExportsForm(cfg: Config, st: Store, req: Request, id: string)
    requires id in st.begun && Encodable(cfg.codec, st.begun[id].entries)
    ensures var sc := st.begun[id];
            Exports(cfg, st, req)(id)
            == if Listed(req, sc.chunk) && Fits(cfg, sc.entries) then Matching(req, sc.entries) else []
  {
  }

  lemma ObjectsCover(cfg: Config, st: Store, s3: Reads, req: Request, k: string)
    requires ExportCodecOk(cfg.codec) && StoreOk(cfg, st) && Snapshot(st, s3)
    requires k in JobKeys(EnvOf(cfg), s3, req) && ByObject(EnvOf(cfg), s3, req)(k) != []
    ensures exists id :: id in st.stored && ObjectOf(cfg, st)(id) == k
  {
    VisitedMember(s3.keys, JobPrefixes(EnvOf(cfg), req), k);
    OnlyStoredContribute(cfg, st, s3, req, k);
    var id :| id in st.stored && id in st.begun && k == ObjectKey(cfg, st.begun[id]);
    assert ObjectOf(cfg, st)(id) == k;
  }

  /** What a completed job sends, chunk by chunk. */
  lemma SelectedIsExports(cfg: Config, st: Store, s3: Reads, req: Request, ids: seq<string>)
    requires ExportCodecOk(cfg.codec) && StoreOk(cfg, st) && Snapshot(st, s3) && Enumerates(ids, st.stored)
    ensures multiset(Selected(EnvOf(cfg), s3, req, JobKeys(EnvOf(cfg), s3, req))) == Bag(ids, Exports(cfg, st, req))
  {
    var env := EnvOf(cfg);
    var ks := JobKeys(env, s3, req);
    var key, f, g := ObjectOf(cfg, st), ByObject(env, s3, req), Exports(cfg, st, req);
    SelectedByKey(env, s3, req, ks);
    VisitedOnceByJob(cfg, req, s3);
    forall a, b | a in ids && b in ids && a != b
      ensures key(a) != key(b)
    {
      ObjectsDiffer(cfg, st, s3, a, b);
    }
    forall k | k in ks && f(k) != []
      ensures exists id :: id in ids && key(id) == k
    {
      ObjectsCover(cfg, st, s3, req, k);
    }
    forall id | id in ids
      ensures g(id) == if key(id) in ks then f(key(id)) else []
    {
      ObjectsAgree(cfg, st, s3, req, id);
    }
    Transfer(ks, ids, key, f, g);
  }

  lemma ExportsIffReached(cfg: Config, st: Store, req: Request, id: string)
    requires id in st.begun
    ensures Exports(cfg, st, req)(id) == Scans(st, req)(id) || Exports(cfg, st, req)(id) == []
    ensures Exports(cfg, st, req)(id) == Scans(st, req)(id)
            <==> (Scans(st, req)(id) != [] ==> Reached(cfg, req, st.begun[id]))
  {
  }

  /** After any run of the ingester, the batches of a completed export, put together, are
      the matching entries of every stored chunk, indexed or not, if and only if every
      stored chunk that holds a match is reached by the job. */
  lemma ExportIsScan(cfg: Config, s: State, s3: Reads, req: Request, n: int, ids: seq<string>)
    requires ConfigOk(cfg) && ExportCodecOk(cfg.codec) && Reachable(cfg, s) && n > 0
    requires Snapshot(s.store, s3) && Enumerates(ids, s.store.stored)
    ensures var sent := Chop(Selected(EnvOf(cfg), s3, req, JobKeys(EnvOf(cfg), s3, req)), n);
            multiset(Flatten(sent)) == Bag(ids, Scans(s.store, req))
            <==> forall id | id in ids && Scans(s.store, req)(id) != [] :: Reached(cfg, req, s.store.begun[id])
  {
    BucketTruth(cfg, s);
    SelectedIsExports(cfg, s.store, s3, req, ids);
    ChopShape(Selected(EnvOf(cfg), s3, req, JobKeys(EnvOf(cfg), s3, req)), n);
    var g, h := Exports(cfg, s.store, req), Scans(s.store, req);
    forall id | id in ids
      ensures g(id) == h(id) || g(id) == []
      ensures g(id) == h(id) <==> (h(id) != [] ==> Reached(cfg, req, s.store.begun[id]))
    {
      FetchStored(cfg, s.store, s3, id);
      ExportsIffReached(cfg, s.store, req, id);
    }
    DropsNothing(ids, g, h);
  }

  /** A chunk of a slash-free service that holds a match is reached by a job with a
      slash-free service exactly when the names are equal to the letter, the chunk began
      no earlier than the job's first day, and its lines fit. */
  lemma ReachedExact(cfg: Config, req: Request, id: string, sc: StoredChunk)
    requires TrueChunk(cfg, id, sc) && Visibility.HasMatch(req, sc.entries)
    requires SlashFree(req.service) && req.service != "" && SlashFree(sc.chunk.service)
    ensures Reached(cfg, req, sc)
       <==> sc.chunk.service == req.service && Day(req.start) <= Day(sc.chunk.minTime) && Fits(cfg, sc.entries)
  {
    var c := sc.chunk;
    var i :| 0 <= i < |sc.entries| && EntryMatches(req, sc.entries[i]);
    assert sc.entries[i] in sc.entries;
    Visibility.DayMonotone(c.minTime, req.end);
    forall d
      ensures ListedOn(req.service, d, c.service, Day(c.minTime)) <==> req.service == c.service && d == Day(c.minTime)
    {
      ListingSlashFree(req.service, d, c.service, Day(c.minTime));
    }
    assert InRange(req, Day(c.minTime)) <==> Day(req.start) <= Day(c.minTime);
  }

  /** Single-day chunks of the job's own service are never missed. */
  lemma SingleDayReached(cfg: Config, req: Request, id: string, sc: StoredChunk)
    requires TrueChunk(cfg, id, sc) && Visibility.HasMatch(req, sc.entries) && Fits(cfg, sc.entries)
    requires SlashFree(req.service) && req.service != "" && sc.chunk.service == req.service
    requires Day(sc.chunk.minTime) == Day(sc.chunk.maxTime)
    ensures Reached(cfg, req, sc)
  {
    var i :| 0 <= i < |sc.entries| && EntryMatches(req, sc.entries[i]);
    assert sc.entries[i] in sc.entries;
    Visibility.DayMonotone(req.start, sc.entries[i].timestamp);
    Visibility.DayMonotone(sc.entries[i].timestamp, sc.chunk.maxTime);
    ReachedExact(cfg, req, id, sc);
  }

  /** A job without a service exports nothing at all from slash-free services, although
      its entry filter would pass every service. */
  lemma NoServiceNoExport(cfg: Config, s: State, s3: Reads, req: Request, ids: seq<string>)
    requires ConfigOk(cfg) && ExportCodecOk(cfg.codec) && Reachable(cfg, s) && req.service == ""
    requires Snapshot(s.store, s3) && Enumerates(ids, s.store.stored)
    requires forall id | id in ids && id in s.store.begun :: SlashFree(s.store.begun[id].chunk.service)
    ensures Selected(EnvOf(cfg), s3, req, JobKeys(EnvOf(cfg), s3, req)) == []
  {
    BucketTruth(cfg, s);
    var g := Exports(cfg, s.store, req);
    forall id | id in ids
      ensures g(id) == []
    {
      FetchStored(cfg, s.store, s3, id);
      NotReached(cfg, req, s.store.begun[id]);
    }
    BagNothing(ids, g);
    SelectedIsExports(cfg, s.store, s3, req, ids);
    assert |multiset(Selected(EnvOf(cfg), s3, req, JobKeys(EnvOf(cfg), s3, req)))| == 0;
  }

  lemma NotReached(cfg: Config, req: Request, sc: StoredChunk)
    requires req.service == "" && SlashFree(sc.chunk.service)
    ensures !Reached(cfg, req, sc)
  {
    forall d
      ensures !ListedOn("", d, sc.chunk.service, Day(sc.chunk.minTime))
    {
      ListingNoService(d, sc.chunk.service, Day(sc.chunk.minTime));
    }
  }
}
