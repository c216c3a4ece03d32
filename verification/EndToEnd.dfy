/** The label index as an accelerator: after any run of the ingester, what the indexed
    query returns, what a scan of every indexed chunk returns, and exactly when the two
    agree. */
module EndToEnd {
  import opened Seqs
  import opened Calendar
  import opened Domain
  import opened Lines
  import opened Keys
  import opened KeyRouting
  import opened Pipeline
  import opened Query
  import opened Bags
  import Ledger
  import opened IndexTruth

  /** Encoders that invert each other; compressed data is not an index file. */
  ghost predicate CodecOk(c: Codec) {
    && LineCodec(c)
    && (forall a, x :: c.decompress(a, c.compress(a, x)) == Some(x))
    && (forall a, x :: c.decIndex(c.compress(a, x)) == None)
    && (forall k | c.encIndex(k).Some? :: c.decIndex(c.encIndex(k).value) == Some(k))
  }

  function EnvOf(cfg: Config): Env { Env(cfg.codec, cfg.s3Prefix, cfg.indexPrefix) }

  /** The query reads the bucket as it stands, without faults. */
  ghost predicate Snapshot(st: Store, s3: Reads) {
    && s3.objects == st.bucket && s3.unlistable == {}
    && NoDup(s3.keys) && forall k :: k in s3.keys <==> k in st.bucket
  }

  /** Every line of the chunk fits the scanner. */
  ghost predicate Fits(cfg: Config, es: seq<LogEntry>)
    requires Encodable(cfg.codec, es)
  {
    forall e | e in es :: !TooLong(cfg.codec.enc(e).value)
  }

  // ---- which index files a query visits ----

  lemma {:induction false} UnderMember(keys: seq<string>, prefix: string, k: string)
    ensures k in Under(keys, prefix) <==> k in keys && prefix <= k
  {
    if keys != [] {
      UnderMember(keys[1..], prefix, k);
      assert k in keys <==> k == keys[0] || k in keys[1..];
    }
  }

  lemma {:induction false} UnderNoDup(keys: seq<string>, prefix: string)
    requires NoDup(keys)
    ensures NoDup(Under(keys, prefix))
  {
    if keys != [] {
      UnderNoDup(keys[1..], prefix);
      UnderMember(keys[1..], prefix, keys[0]);
    }
  }

  lemma {:induction false} VisitedMember(keys: seq<string>, prefixes: seq<string>, k: string)
    ensures k in Visited(keys, prefixes) <==> k in keys && exists i | 0 <= i < |prefixes| :: prefixes[i] <= k
  {
    if prefixes != [] {
      UnderMember(keys, prefixes[0], k);
      VisitedMember(keys, prefixes[1..], k);
      if i :| 0 <= i < |prefixes| && prefixes[i] <= k {
        assert i == 0 || prefixes[1..][i - 1] <= k;
      }
      if j :| 0 <= j < |prefixes[1..]| && prefixes[1..][j] <= k {
        assert prefixes[j + 1] <= k;
      }
    }
  }

  predicate Both(p: string, q: string, k: string) { p <= k && q <= k }

  ghost predicate Exclusive(prefixes: seq<string>) {
    forall i, j, k | 0 <= i < j < |prefixes| :: !Both(prefixes[i], prefixes[j], k)
  }

  lemma {:induction false} VisitedNoDup(keys: seq<string>, prefixes: seq<string>)
    requires NoDup(keys) && Exclusive(prefixes)
    ensures NoDup(Visited(keys, prefixes))
  {
    if prefixes != [] {
      var here, rest := Under(keys, prefixes[0]), Visited(keys, prefixes[1..]);
      UnderNoDup(keys, prefixes[0]);
      assert Exclusive(prefixes[1..]) by {
        forall i, j, k | 0 <= i < j < |prefixes[1..]|
          ensures !Both(prefixes[1..][i], prefixes[1..][j], k)
        {
          assert !Both(prefixes[i + 1], prefixes[j + 1], k);
        }
      }
      VisitedNoDup(keys, prefixes[1..]);
      forall i, j | 0 <= i < |here| && 0 <= j < |rest|
        ensures here[i] != rest[j]
      {
        UnderMember(keys, prefixes[0], here[i]);
        VisitedMember(keys, prefixes[1..], rest[j]);
        var m :| 0 <= m < |prefixes[1..]| && prefixes[1..][m] <= rest[j];
        assert !Both(prefixes[0], prefixes[m + 1], rest[j]);
      }
    }
  }

  lemma DaysApart(prefix: string, d: int, e: int, k: string)
    requires d != e
    ensures !Both(DayPrefix(prefix, d), DayPrefix(prefix, e), k)
  {
    if Both(DayPrefix(prefix, d), DayPrefix(prefix, e), k) {
      DayPrefixUnique(prefix, d, e, k);
    }
  }

  lemma DaysExclusive(prefix: string, first: int, last: int)
    ensures Exclusive(DayRange(prefix, first, last))
  {
    forall d, e, k | d != e
      ensures !Both(DayPrefixOf(prefix)(d), DayPrefixOf(prefix)(e), k)
    {
      DaysApart(prefix, d, e, k);
    }
    DayRangeForm(prefix, first, last);
    ExclusiveImage(DayRange(prefix, first, last), first, DayPrefixOf(prefix));
  }

  lemma ExclusiveImage(ps: seq<string>, first: int, p: int -> string)
    requires forall i | 0 <= i < |ps| :: ps[i] == p(first + i)
    requires forall d, e, k | d != e :: !Both(p(d), p(e), k)
    ensures Exclusive(ps)
  {
  }

  predicate InRange(req: Request, d: int) { Day(req.start) <= d <= Day(req.end) }

  /** The index file lies under the prefix of some day of the query. */
  ghost predicate Routed(req: Request, c: Chunk) {
    exists d :: InRange(req, d) && RoutedTo(c.service, Day(c.minTime), d)
  }

  /** Query visits an index file exactly when it is routed to a day of the range. */
  lemma VisitedIffRouted(cfg: Config, req: Request, keys: seq<string>, id: string, sc: StoredChunk)
    requires TrueChunk(cfg, id, sc)
    ensures IndexFileKey(cfg, sc) in Visited(keys, QueryPrefixes(EnvOf(cfg), req))
       <==> IndexFileKey(cfg, sc) in keys && Routed(req, sc.chunk)
  {
    VisitedKey(cfg.indexPrefix, req, keys, sc.chunk, id, cfg.algo, IndexFileKey(cfg, sc));
  }

  lemma VisitedKey(prefix: string, req: Request, keys: seq<string>, c: Chunk, id: string, algo: Algo, key: string)
    requires IsId(id) && key == IndexKey(prefix, ChunkKey(c.service, c.minTime, id, algo))
    ensures key in Visited(keys, DayRange(prefix, Day(req.start), Day(req.end))) <==> key in keys && Routed(req, c)
  {
    AllDaysIffRouted(prefix, c, id, algo, key);
    VisitedOnSomeDay(keys, prefix, Day(req.start), Day(req.end), key);
    RoutedIff(req, c, DayPrefixOf(prefix), key);
  }

  /** A listing of the days of a range visits the keys under one of them. */
  lemma VisitedOnSomeDay(keys: seq<string>, prefix: string, first: int, last: int, key: string)
    ensures key in Visited(keys, DayRange(prefix, first, last))
       <==> key in keys && exists d :: first <= d <= last && DayPrefixOf(prefix)(d) <= key
  {
    DayRangeForm(prefix, first, last);
    VisitedOnSome(keys, DayRange(prefix, first, last), first, last, DayPrefixOf(prefix), key);
  }

  lemma VisitedOnSome(keys: seq<string>, ps: seq<string>, first: int, last: int, p: int -> string, key: string)
    requires |ps| == DayCount(first, last) && forall i | 0 <= i < |ps| :: ps[i] == p(first + i)
    ensures key in Visited(keys, ps) <==> key in keys && exists d :: first <= d <= last && p(d) <= key
  {
    VisitedMember(keys, ps, key);
    SomePrefix(ps, first, last, p, key);
  }

  lemma AllDaysIffRouted(prefix: string, c: Chunk, id: string, algo: Algo, key: string)
    requires IsId(id) && key == IndexKey(prefix, ChunkKey(c.service, c.minTime, id, algo))
    ensures forall d :: DayPrefixOf(prefix)(d) <= key <==> RoutedTo(c.service, Day(c.minTime), d)
  {
    forall d
      ensures DayPrefixOf(prefix)(d) <= key <==> RoutedTo(c.service, Day(c.minTime), d)
    {
      DayIffRouted(prefix, c, id, algo, key, d);
    }
  }

  ghost function DayPrefixOf(prefix: string): int -> string { d => DayPrefix(prefix, d) }

  lemma RoutedIff(req: Request, c: Chunk, p: int -> string, key: string)
    requires forall d :: p(d) <= key <==> RoutedTo(c.service, Day(c.minTime), d)
    ensures Routed(req, c) <==> exists d :: Day(req.start) <= d <= Day(req.end) && p(d) <= key
  {
    if d :| InRange(req, d) && RoutedTo(c.service, Day(c.minTime), d) {
      assert p(d) <= key;
    }
    if d :| Day(req.start) <= d <= Day(req.end) && p(d) <= key {
      assert InRange(req, d);
    }
  }

  lemma DayRangeForm(prefix: string, first: int, last: int)
    ensures var ps := DayRange(prefix, first, last);
            |ps| == DayCount(first, last) && forall i | 0 <= i < |ps| :: ps[i] == DayPrefixOf(prefix)(first + i)
  {
  }

  lemma SomePrefix(ps: seq<string>, first: int, last: int, p: int -> string, key: string)
    requires |ps| == DayCount(first, last) && forall i | 0 <= i < |ps| :: ps[i] == p(first + i)
    ensures (exists i | 0 <= i < |ps| :: ps[i] <= key) <==> (exists d :: first <= d <= last && p(d) <= key)
  {
    if i :| 0 <= i < |ps| && ps[i] <= key {
      assert p(first + i) <= key;
    }
    if d :| first <= d <= last && p(d) <= key {
      assert ps[d - first] == p(d);
    }
  }

  lemma DayIffRouted(prefix: string, c: Chunk, id: string, algo: Algo, key: string, d: int)
    requires IsId(id) && key == IndexKey(prefix, ChunkKey(c.service, c.minTime, id, algo))
    ensures DayPrefixOf(prefix)(d) <= key <==> RoutedTo(c.service, Day(c.minTime), d)
  {
    Routing(prefix, c.service, c.minTime, id, algo, d);
  }

  // ---- what one key contributes ----

  function KeyContribution(env: Env, s3: Reads, req: Request, key: string): seq<LogEntry> {
    Unlimited(env, s3, req, Hit(env, s3, req, key))
  }

  lemma {:induction false} UnlimitedByKey(env: Env, s3: Reads, req: Request, keys: seq<string>)
    ensures multiset(Unlimited(env, s3, req, Hits(env, s3, req, keys)))
         == Bag(keys, ByKey(env, s3, req))
  {
    if keys != [] {
      UnlimitedConcat(env, s3, req, Hit(env, s3, req, keys[0]), Hits(env, s3, req, keys[1..]));
      UnlimitedByKey(env, s3, req, keys[1..]);
    }
  }

  lemma AlgoRecovered(service: string, t: int, id: string, algo: Algo)
    requires IsId(id)
    ensures AlgoOfKey(ChunkKey(service, t, id, algo)) == algo
  {
    ChunkKeyId("", service, t, id, algo);
    assert "" + ChunkKey(service, t, id, algo) == ChunkKey(service, t, id, algo);
  }

  /** A stored chunk reads back as its entries, unless a line is too long. */
  lemma FetchStored(cfg: Config, st: Store, s3: Reads, id: string)
    requires CodecOk(cfg.codec) && StoreOk(cfg, st) && Snapshot(st, s3) && id in st.stored
    ensures id in st.begun && TrueChunk(cfg, id, st.begun[id])
    ensures var sc := st.begun[id];
            Fetched(EnvOf(cfg), s3, sc.chunk.key) == if Fits(cfg, sc.entries) then Ok(sc.entries) else Err
  {
    assert id in AllFiles(cfg, st.begun);
    var sc := st.begun[id];
    assert TrueChunk(cfg, id, sc);
    assert Ledger.HasChunk(st.bucket, AllFiles(cfg, st.begun)[id]);
    AlgoRecovered(sc.chunk.service, sc.chunk.minTime, id, cfg.algo);
    ScanEncoded(cfg.codec, sc.entries);
  }

  /** The index file of an indexed chunk contributes the chunk's matching entries, when
      the index entry matches and the chunk can be scanned. */
  lemma IndexedContribution(cfg: Config, st: Store, s3: Reads, req: Request, id: string)
    requires CodecOk(cfg.codec) && StoreOk(cfg, st) && Snapshot(st, s3) && id in st.indexed
    ensures id in st.begun && TrueChunk(cfg, id, st.begun[id])
    ensures var sc := st.begun[id];
            IndexFileKey(cfg, sc) in s3.keys &&
            KeyContribution(EnvOf(cfg), s3, req, IndexFileKey(cfg, sc))
            == if IndexMatches(req, sc.chunk) && Fits(cfg, sc.entries) then Matching(req, sc.entries) else []
  {
    FetchStored(cfg, st, s3, id);
    IndexedHit(cfg, st, s3, req, id);
    OneHit(EnvOf(cfg), s3, req, st.begun[id].chunk);
  }

  lemma IndexedHit(cfg: Config, st: Store, s3: Reads, req: Request, id: string)
    requires CodecOk(cfg.codec) && StoreOk(cfg, st) && Snapshot(st, s3) && id in st.indexed && id in st.begun
    ensures var sc := st.begun[id];
            IndexFileKey(cfg, sc) in s3.keys &&
            Hit(EnvOf(cfg), s3, req, IndexFileKey(cfg, sc)) == if IndexMatches(req, sc.chunk) then [sc.chunk] else []
  {
    var sc := st.begun[id];
    assert Ledger.HasIndex(st.bucket, AllFiles(cfg, st.begun)[id]);
    HitOf(EnvOf(cfg), s3, req, IndexFileKey(cfg, sc), cfg.codec.encIndex(sc.chunk).value, sc.chunk);
  }

  lemma HitOf(env: Env, s3: Reads, req: Request, key: string, data: bytes, c: Chunk)
    requires Ledger.Has(s3.objects, key, data) && env.codec.decIndex(data) == Some(c)
    ensures Hit(env, s3, req, key) == if IndexMatches(req, c) then [c] else []
  {
  }

  lemma OneHit(env: Env, s3: Reads, req: Request, c: Chunk)
    ensures Unlimited(env, s3, req, [c]) == Contribution(env, s3, req, c)
  {
    assert Unlimited(env, s3, req, [c][1..]) == [];
  }

  /** A chunk object listed among the index files contributes nothing. */
  lemma ObjectContribution(cfg: Config, st: Store, s3: Reads, req: Request, id: string)
    requires CodecOk(cfg.codec) && StoreOk(cfg, st) && Snapshot(st, s3) && id in st.stored && id in st.begun
    ensures KeyContribution(EnvOf(cfg), s3, req, ObjectKey(cfg, st.begun[id])) == []
  {
    var sc := st.begun[id];
    assert Ledger.HasChunk(st.bucket, AllFiles(cfg, st.begun)[id]) && TrueChunk(cfg, id, sc);
    NoHit(EnvOf(cfg), s3, req, ObjectKey(cfg, sc), ChunkData(cfg, sc.entries));
  }

  lemma NoHit(env: Env, s3: Reads, req: Request, key: string, data: bytes)
    requires Ledger.Has(s3.objects, key, data) && env.codec.decIndex(data) == None
    ensures KeyContribution(env, s3, req, key) == []
  {
  }

  /** Whatever is not an index file contributes nothing. */
  lemma OtherContribution(cfg: Config, st: Store, s3: Reads, req: Request, key: string)
    requires CodecOk(cfg.codec) && StoreOk(cfg, st) && Snapshot(st, s3) && key in s3.keys
    requires KeyContribution(EnvOf(cfg), s3, req, key) != []
    ensures exists id :: id in st.indexed && id in st.begun && key == IndexFileKey(cfg, st.begun[id])
  {
    var files := AllFiles(cfg, st.begun);
    assert key in st.bucket;
    var id :| Ledger.Owns(files, st.stored, st.indexed, id, key);
    if id in st.stored {
      ObjectContribution(cfg, st, s3, req, id);
    }
  }

  // ---- the theorem ----

  /** The indexed query reaches the chunk: its index file lies under a day of the range,
      passes the index filters, and the chunk can be scanned. */
  ghost predicate Visible(cfg: Config, req: Request, sc: StoredChunk) {
    Routed(req, sc.chunk) && IndexMatches(req, sc.chunk) && Encodable(cfg.codec, sc.entries) && Fits(cfg, sc.entries)
  }

  /** All of chunk id. */
  ghost function EntriesIn(st: Store): string -> seq<LogEntry> {
    id => if id in st.begun then st.begun[id].entries else []
  }

  /** What a plain scan finds in chunk id. */
  ghost function Scans(st: Store, req: Request): string -> seq<LogEntry> {
    id => if id in st.begun then Matching(req, st.begun[id].entries) else []
  }

  /** What the indexed query finds there. */
  ghost function Finds(cfg: Config, st: Store, req: Request): string -> seq<LogEntry> {
    id => if id in st.begun && Visible(cfg, req, st.begun[id]) then Matching(req, st.begun[id].entries) else []
  }

  ghost predicate Enumerates(ids: seq<string>, all: set<string>) {
    NoDup(ids) && forall id :: id in ids <==> id in all
  }

  /** The unlimited result of the query as the code computes it. */
  function FullResult(cfg: Config, s3: Reads, req: Request): seq<LogEntry> {
    Unlimited(EnvOf(cfg), s3, req, QueryHits(EnvOf(cfg), s3, req))
  }

  ghost function KeyOf(cfg: Config, st: Store): string -> string {
    id => if id in st.begun then IndexFileKey(cfg, st.begun[id]) else ""
  }

  ghost function ByKey(env: Env, s3: Reads, req: Request): string -> seq<LogEntry> {
    k => KeyContribution(env, s3, req, k)
  }

  lemma KeysDiffer(cfg: Config, st: Store, a: string, b: string)
    requires StoreOk(cfg, st) && a in st.indexed && b in st.indexed && a != b
    ensures KeyOf(cfg, st)(a) != KeyOf(cfg, st)(b)
  {
    IndexedTrue(cfg, st, a);
    IndexedTrue(cfg, st, b);
    FilesApart(cfg, a, st.begun[a], b, st.begun[b]);
  }

  lemma KeysAgree(cfg: Config, st: Store, s3: Reads, req: Request, id: string)
    requires CodecOk(cfg.codec) && StoreOk(cfg, st) && Snapshot(st, s3) && id in st.indexed
    ensures var ks := Visited(s3.keys, QueryPrefixes(EnvOf(cfg), req));
            var key := KeyOf(cfg, st)(id);
            Finds(cfg, st, req)(id) == if key in ks then ByKey(EnvOf(cfg), s3, req)(key) else []
  {
    IndexedContribution(cfg, st, s3, req, id);
    VisitedIffRouted(cfg, req, s3.keys, id, st.begun[id]);
    FindsForm(cfg, st, req, id);
  }

  lemma FindsForm(cfg: Config, st: Store, req: Request, id: string)
    requires id in st.begun && Encodable(cfg.codec, st.begun[id].entries)
    ensures var sc := st.begun[id];
            Finds(cfg, st, req)(id)
            == if Routed(req, sc.chunk) && IndexMatches(req, sc.chunk) && Fits(cfg, sc.entries)
               then Matching(req, sc.entries) else []
  {
  }

  lemma KeysCover(cfg: Config, st: Store, s3: Reads, req: Request, k: string)
    requires CodecOk(cfg.codec) && StoreOk(cfg, st) && Snapshot(st, s3)
    requires k in Visited(s3.keys, QueryPrefixes(EnvOf(cfg), req)) && ByKey(EnvOf(cfg), s3, req)(k) != []
    ensures exists id :: id in st.indexed && KeyOf(cfg, st)(id) == k
  {
    VisitedMember(s3.keys, QueryPrefixes(EnvOf(cfg), req), k);
    OtherContribution(cfg, st, s3, req, k);
    var id :| id in st.indexed && id in st.begun && k == IndexFileKey(cfg, st.begun[id]);
    assert KeyOf(cfg, st)(id) == k;
  }

  lemma VisitedOnce(cfg: Config, req: Request, keys: seq<string>)
    requires NoDup(keys)
    ensures NoDup(Visited(keys, QueryPrefixes(EnvOf(cfg), req)))
  {
    DaysExclusive(cfg.indexPrefix, Day(req.start), Day(req.end));
    VisitedNoDup(keys, QueryPrefixes(EnvOf(cfg), req));
  }

  lemma ResultIsFinds(cfg: Config, st: Store, s3: Reads, req: Request, ids: seq<string>)
    requires CodecOk(cfg.codec) && StoreOk(cfg, st) && Snapshot(st, s3) && Enumerates(ids, st.indexed)
    ensures multiset(FullResult(cfg, s3, req)) == Bag(ids, Finds(cfg, st, req))
  {
    var env := EnvOf(cfg);
    var ks := Visited(s3.keys, QueryPrefixes(env, req));
    var key, f, g := KeyOf(cfg, st), ByKey(env, s3, req), Finds(cfg, st, req);
    UnlimitedByKey(env, s3, req, ks);
    VisitedOnce(cfg, req, s3.keys);
    forall a, b | a in ids && b in ids && a != b
      ensures key(a) != key(b)
    {
      KeysDiffer(cfg, st, a, b);
    }
    forall k | k in ks && f(k) != []
      ensures exists id :: id in ids && key(id) == k
    {
      KeysCover(cfg, st, s3, req, k);
    }
    forall id | id in ids
      ensures g(id) == if key(id) in ks then f(key(id)) else []
    {
      KeysAgree(cfg, st, s3, req, id);
    }
    Transfer(ks, ids, key, f, g);
  }

  lemma IndexedTrue(cfg: Config, st: Store, id: string)
    requires StoreOk(cfg, st) && id in st.indexed
    ensures id in st.begun && TrueChunk(cfg, id, st.begun[id])
  {
    assert id in AllFiles(cfg, st.begun);
  }

  /** End to end. After any run of the ingester, the unlimited indexed query over the
      bucket returns exactly the entries a plain scan of every indexed chunk returns, as
      multisets, if and only if every indexed chunk that holds a matching entry is visible
      to the query. */
  lemma IndexedQueryIsScan(cfg: Config, s: State, s3: Reads, req: Request, ids: seq<string>)
    requires ConfigOk(cfg) && CodecOk(cfg.codec) && Reachable(cfg, s)
    requires Snapshot(s.store, s3) && Enumerates(ids, s.store.indexed)
    ensures multiset(FullResult(cfg, s3, req)) == Bag(ids, Scans(s.store, req))
       <==> forall id | id in ids && Scans(s.store, req)(id) != [] :: Visible(cfg, req, s.store.begun[id])
  {
    BucketTruth(cfg, s);
    ResultIsFinds(cfg, s.store, s3, req, ids);
    var g, h := Finds(cfg, s.store, req), Scans(s.store, req);
    forall id | id in ids
      ensures g(id) == h(id) || g(id) == []
      ensures g(id) == h(id) <==> (h(id) != [] ==> Visible(cfg, req, s.store.begun[id]))
    {
      IndexedTrue(cfg, s.store, id);
      FindsIffVisible(cfg, s.store, req, id);
    }
    DropsNothing(ids, g, h);
  }

  lemma FindsIffVisible(cfg: Config, st: Store, req: Request, id: string)
    requires id in st.begun
    ensures Finds(cfg, st, req)(id) == Scans(st, req)(id) || Finds(cfg, st, req)(id) == []
    ensures Finds(cfg, st, req)(id) == Scans(st, req)(id)
            <==> (Scans(st, req)(id) != [] ==> Visible(cfg, req, st.begun[id]))
  {
  }
}
