/** What a chunk must be like for the indexed query to reach it: the exact conditions,
    hypotheses a deployment can check that imply them, and why each is needed. */
module Visibility {
  import opened Seqs
  import opened Calendar
  import opened Domain
  import opened Lines
  import opened Keys
  import opened KeyRouting
  import opened LabelSets
  import opened Pipeline
  import opened Query
  import opened Bags
  import opened IndexTruth
  import opened EndToEnd

  ghost predicate HasMatch(req: Request, es: seq<LogEntry>) {
    exists i | 0 <= i < |es| :: EntryMatches(req, es[i])
  }

  lemma {:induction false} MatchingIff(req: Request, es: seq<LogEntry>)
    ensures Matching(req, es) != [] <==> HasMatch(req, es)
  {
    if es != [] {
      MatchingIff(req, es[1..]);
      if i :| 0 <= i < |es| && EntryMatches(req, es[i]) {
        assert i == 0 || EntryMatches(req, es[1..][i - 1]);
      }
      if j :| 0 <= j < |es[1..]| && EntryMatches(req, es[1..][j]) {
        assert EntryMatches(req, es[j + 1]);
      }
    }
  }

  /** A chunk of a slash-free service that holds a match is visible exactly when it was
      filed no earlier than the query's first day, its first entry's service is asked for,
      its label sets match and its lines fit. */
  lemma VisibleExact(cfg: Config, req: Request, id: string, sc: StoredChunk)
    requires TrueChunk(cfg, id, sc) && SlashFree(sc.chunk.service) && HasMatch(req, sc.entries)
    ensures Visible(cfg, req, sc)
       <==> Day(req.start) <= Day(sc.chunk.minTime)
            && ServiceMatches(req.service, sc.entries[0].service)
            && Match(sc.chunk.labelSets, req.labels)
            && Fits(cfg, sc.entries)
  {
    var c := sc.chunk;
    var i :| 0 <= i < |sc.entries| && EntryMatches(req, sc.entries[i]);
    assert sc.entries[i] in sc.entries;
    assert c.minTime <= sc.entries[i].timestamp <= c.maxTime;
    DayMonotone(c.minTime, req.end);
    RoutedSlashFree(req, c);
  }

  lemma DayMonotone(t: int, u: int)
    requires t <= u
    ensures Day(t) <= Day(u)
  {
  }

  lemma RoutedSlashFree(req: Request, c: Chunk)
    requires SlashFree(c.service)
    ensures Routed(req, c) <==> InRange(req, Day(c.minTime))
  {
    forall d
      ensures RoutedTo(c.service, Day(c.minTime), d) <==> d == Day(c.minTime)
    {
      RoutedToOwnDay(c.service, Day(c.minTime), d);
    }
    assert RoutedTo(c.service, Day(c.minTime), Day(c.minTime));
  }

  /** Chunks a query can be trusted with: one UTC day, a slash-free service, one service
      up to case unless all are asked for, clean labels, lines that fit. */
  ghost predicate WellFiled(cfg: Config, req: Request, sc: StoredChunk) {
    && SlashFree(sc.chunk.service)
    && Day(sc.chunk.minTime) == Day(sc.chunk.maxTime)
    && sc.entries != []
    && (req.service == "" || forall e | e in sc.entries :: EqualFold(e.service, sc.entries[0].service))
    && CleanEntries(sc.entries)
    && Encodable(cfg.codec, sc.entries) && Fits(cfg, sc.entries)
  }

  lemma WellFiledVisible(cfg: Config, req: Request, id: string, sc: StoredChunk)
    requires TrueChunk(cfg, id, sc) && WellFiled(cfg, req, sc) && SafeQuery(req.labels) && HasMatch(req, sc.entries)
    ensures Visible(cfg, req, sc)
  {
    var i :| 0 <= i < |sc.entries| && EntryMatches(req, sc.entries[i]);
    var e := sc.entries[i];
    assert e in sc.entries;
    DayMonotone(req.start, e.timestamp);
    DayMonotone(e.timestamp, sc.chunk.maxTime);
    assert HasLabels(sc.entries[i].labels, req.labels);
    SafeQueryKeepsHits(sc.entries, sc.chunk.labelSets, req.labels);
    VisibleExact(cfg, req, id, sc);
  }

  lemma TakePart<T>(s: seq<T>, n: nat)
    ensures multiset(Take(s, n)) <= multiset(s) && |Take(s, n)| == if |s| <= n then |s| else n
  {
    if |s| > n {
      assert s == s[..n] + s[n..];
    }
  }

  /** End to end under checkable hypotheses: after any run of the ingester, over well-filed
      chunks and with a safe label selector, the query returns only indexed entries that
      match, as many as there are or as its limit allows, and so all of them when the
      limit is at least their number. */
  lemma IndexedQueryExact(cfg: Config, s: State, s3: Reads, req: Request, ids: seq<string>)
    requires ConfigOk(cfg) && CodecOk(cfg.codec) && Reachable(cfg, s)
    requires Snapshot(s.store, s3) && Enumerates(ids, s.store.indexed)
    requires SafeQuery(req.labels)
    requires forall id | id in ids && id in s.store.begun :: WellFiled(cfg, req, s.store.begun[id])
    ensures var found, all := Take(FullResult(cfg, s3, req), LimitOf(req)), Bag(ids, Scans(s.store, req));
            && multiset(found) <= all
            && |found| == (if |all| <= LimitOf(req) then |all| else LimitOf(req))
            && (|all| <= LimitOf(req) ==> multiset(found) == all)
  {
    BucketTruth(cfg, s);
    forall id | id in ids && Scans(s.store, req)(id) != []
      ensures Visible(cfg, req, s.store.begun[id])
    {
      IndexedTrue(cfg, s.store, id);
      MatchingIff(req, s.store.begun[id].entries);
      WellFiledVisible(cfg, req, id, s.store.begun[id]);
    }
    IndexedQueryIsScan(cfg, s, s3, req, ids);
    TakePart(FullResult(cfg, s3, req), LimitOf(req));
    assert |multiset(FullResult(cfg, s3, req))| == |FullResult(cfg, s3, req)|;
  }

  lemma {:induction false} ScansCount(st: Store, req: Request, ids: seq<string>, e: LogEntry)
    ensures Bag(ids, Scans(st, req))[e] == if EntryMatches(req, e) then Bag(ids, EntriesIn(st))[e] else 0
  {
    if ids != [] {
      ScansCount(st, req, ids[1..], e);
      var f, g := Scans(st, req), EntriesIn(st);
      assert Bag(ids, f)[e] == multiset(f(ids[0]))[e] + Bag(ids[1..], f)[e];
      assert Bag(ids, g)[e] == multiset(g(ids[0]))[e] + Bag(ids[1..], g)[e];
      if ids[0] in st.begun { FoundExactly(req, st.begun[ids[0]].entries, e); }
    }
  }

  /** The answer entry by entry, against the stored data itself: under the same hypotheses
      and with room for all matches, an entry is returned as often as it is in the indexed
      chunks when its time is in the range and its service, its level and each queried label
      have the values asked for, and not at all otherwise. */
  lemma AnswerExact(cfg: Config, s: State, s3: Reads, req: Request, ids: seq<string>, e: LogEntry)
    requires ConfigOk(cfg) && CodecOk(cfg.codec) && Reachable(cfg, s)
    requires Snapshot(s.store, s3) && Enumerates(ids, s.store.indexed) && SafeQuery(req.labels)
    requires forall id | id in ids && id in s.store.begun :: WellFiled(cfg, req, s.store.begun[id])
    requires |Bag(ids, Scans(s.store, req))| <= LimitOf(req)
    ensures var asked :=
        && req.start <= e.timestamp <= req.end
        && (req.service == "" || EqualFold(e.service, req.service))
        && (req.level == "" || EqualFold(e.level, req.level))
        && (forall k | k in req.labels :: (if k in e.labels then e.labels[k] else "") == req.labels[k]);
            multiset(Take(FullResult(cfg, s3, req), LimitOf(req)))[e]
            == if asked then Bag(ids, EntriesIn(s.store))[e] else 0
  {
    IndexedQueryExact(cfg, s, s3, req, ids);
    ScansCount(s.store, req, ids, e);
  }

  // ---- why each hypothesis is needed ----

  /** One day: a chunk that began the day before the query's first day is never visited,
      although it holds a match. */
  lemma MidnightMissed(cfg: Config, req: Request, id: string, sc: StoredChunk)
    requires TrueChunk(cfg, id, sc) && SlashFree(sc.chunk.service) && HasMatch(req, sc.entries)
    requires Day(sc.chunk.minTime) < Day(req.start)
    ensures !Visible(cfg, req, sc) && Matching(req, sc.entries) != []
  {
    VisibleExact(cfg, req, id, sc);
    MatchingIff(req, sc.entries);
  }

  /** One service: a chunk is filed under its first entry's service, so a query for the
      service of a later entry prunes it. */
  lemma MixedServiceMissed(cfg: Config, req: Request, id: string, sc: StoredChunk)
    requires TrueChunk(cfg, id, sc) && HasMatch(req, sc.entries)
    requires req.service != "" && !EqualFold(sc.entries[0].service, req.service)
    ensures !Visible(cfg, req, sc) && Matching(req, sc.entries) != []
  {
    MatchingIff(req, sc.entries);
  }

  /** No slash: a chunk whose service has one is visited by no query at all, unless what
      follows the slash is a dot. */
  lemma SlashHides(req: Request, c: Chunk, head: string, name: string)
    requires c.service == head + "/" + name && SlashFree(head) && SlashFree(name)
    ensures Routed(req, c) <==> name == "." && InRange(req, Day(c.minTime))
  {
    var s := c.service;
    IndexOfConcat(head, '/', name);
    SplitFree(name, '/');
    assert s[|head| + 1..] == name && TailParts(s) == [name];
    assert [name][1..] == [];
    assert TailStack(s) == Resolve([], Push([], name, false), false) == Push([], name, false);
    forall d
      ensures RoutedTo(s, Day(c.minTime), d) <==> name == "." && d == Day(c.minTime)
    {
    }
  }
}
