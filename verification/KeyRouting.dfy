/** Where an index file lands: the exact set of days whose prefix lists it, for
    every service name, and the distinctness of keys. */
module KeyRouting {
  import opened Seqs
  import opened Calendar
  import opened Domain
  import opened Keys

  /** What a service name puts in front of the day directory. */
  function Lead(service: string): string {
    var i := IndexOf(service, '/');
    if i == |service| then "" else service[i + 1..] + "/"
  }

  /** Directory of the index file of a chunk of this service on day d. */
  function IndexDir(service: string, d: int): string { Clean(Lead(service) + (DayText(d) + "/")) }

  lemma StemPlain(t: int, id: string)
    requires IsId(id)
    ensures '/' !in FileStem(t, id) && '.' !in FileStem(t, id) && FileStem(t, id) != ""
  {
  }

  lemma FirstSlash(service: string, after: string)
    ensures var key := service + "/" + after;
            var i := IndexOf(key, '/');
            i < |key| && key[..i] == Head(service) && key[i + 1..] == Lead(service) + after
  {
    var j := IndexOf(service, '/');
    if j == |service| {
      IndexOfConcat(service, '/', after);
    } else {
      var tail := service[j + 1..];
      assert service + "/" + after == service[..j] + ['/'] + (tail + "/" + after);
      IndexOfConcat(service[..j], '/', tail + "/" + after);
      assert tail + "/" + after == Lead(service) + after;
    }
  }

  /** Ext, Dir and Base of a key whose file name has one dot. */
  lemma StripExt(dir: string, stem: string, letters: string)
    requires '/' !in stem && '.' !in stem && stem != ""
    requires '/' !in letters && '.' !in letters
    ensures var rest := dir + "/" + stem + "." + letters;
            var base := rest[..|rest| - |Ext(rest)|];
            Dir(base) == Clean(dir + "/") && Base(base) == stem
  {
    var base := dir + "/" + stem;
    ExtOf(base, letters);
    DropEnd(base, "." + letters);
    Assoc(base, ".", letters);
    SuffixLengthOf(dir, stem);
    DropEnd(dir + "/", stem);
    BaseOf(dir, stem);
  }

  lemma DropEnd(a: string, b: string)
    ensures (a + b)[..|a + b| - |b|] == a
  {
  }

  lemma IndexFileOf(prefix: string, head: string, dir: string, stem: string, letters: string)
    requires '/' !in stem && '.' !in stem && stem != ""
    requires '/' !in letters && '.' !in letters
    ensures IndexFile(prefix, head, dir + "/" + stem + "." + letters)
         == prefix + (Clean(dir + "/") + "/" + (head + "-" + stem + ".json"))
  {
    StripExt(dir, stem, letters);
  }

  lemma IndexKeySplit(prefix: string, service: string, after: string)
    ensures IndexKey(prefix, service + "/" + after) == IndexFile(prefix, Head(service), Lead(service) + after)
  {
    FirstSlash(service, after);
  }

  lemma IndexKeyOf(prefix: string, service: string, day: string, stem: string, letters: string)
    requires '/' !in stem && '.' !in stem && stem != ""
    requires '/' !in letters && '.' !in letters
    ensures IndexKey(prefix, service + "/" + (day + "/" + stem + "." + letters))
         == prefix + (Clean(Lead(service) + (day + "/")) + "/" + (Head(service) + "-" + stem + ".json"))
  {
    var lead, head, after := Lead(service), Head(service), day + "/" + stem + "." + letters;
    IndexKeySplit(prefix, service, after);
    IndexFileOf(prefix, head, lead + day, stem, letters);
    Assoc(lead, day, "/");
    Assoc(lead, day + "/", stem + "." + letters);
    Assoc(day + "/", stem, "." + letters);
    Assoc(day + "/" + stem, ".", letters);
    Assoc(stem, ".", letters);
    Assoc(lead + day + "/", stem, "." + letters);
    Assoc(lead + day + "/" + stem, ".", letters);
  }

  lemma ChunkKeyForm(service: string, t: int, id: string, algo: Algo)
    ensures ChunkKey(service, t, id, algo)
         == service + "/" + (DayText(Day(t)) + "/" + FileStem(t, id) + "." + FileExtension(algo)[1..])
  {
    ConcatForm(service, DayText(Day(t)), FileStem(t, id), FileExtension(algo));
  }

  lemma ConcatForm(service: string, day: string, stem: string, ext: string)
    requires |ext| > 0 && ext[0] == '.'
    ensures service + "/" + day + "/" + stem + ext == service + "/" + (day + "/" + stem + "." + ext[1..])
  {
    assert ext == "." + ext[1..];
  }

  /** The index key, with every path function resolved. */
  lemma IndexKeyForm(prefix: string, service: string, t: int, id: string, algo: Algo)
    requires IsId(id)
    ensures IndexKey(prefix, ChunkKey(service, t, id, algo))
         == prefix + (IndexDir(service, Day(t)) + "/" + (Head(service) + "-" + FileStem(t, id) + ".json"))
  {
    ChunkKeyForm(service, t, id, algo);
    StemPlain(t, id);
    var letters := FileExtension(algo)[1..];
    assert letters == "gz" || letters == "sz";
    IndexKeyOf(prefix, service, DayText(Day(t)), FileStem(t, id), letters);
  }

  lemma LeadComponents(service: string, path: string)
    requires path != "" && path[0] != '/'
    ensures Split(Lead(service) + path, '/') == TailParts(service) + Split(path, '/')
    ensures Rooted(Lead(service) + path) <==> TailRooted(service)
  {
    var i := IndexOf(service, '/');
    if i == |service| {
      assert Lead(service) + path == path;
    } else {
      var tail := service[i + 1..];
      SplitConcat(tail, '/', path);
      RootedIff(tail, path);
      assert Lead(service) + path == tail + ['/'] + path;
    }
  }

  lemma RootedIff(tail: string, path: string)
    ensures Rooted(tail + ['/'] + path) <==> Split(tail, '/')[0] == ""
  {
    assert (tail + ['/'] + path)[0] == if tail == "" then '/' else tail[0];
  }

  lemma DayDirComponents(d: int)
    ensures Split(DayText(d) + "/", '/') == DayParts(d) + [""]
    ensures DayText(d) != "" && DayText(d)[0] != '/'
  {
    DayPartsPlain(d);
    var parts := DayParts(d);
    SplitJoin(parts, '/');
    JoinTrailing(parts);
    assert parts[0] in parts;
    assert DayText(d)[0] == parts[0][0];
  }

  lemma JoinTrailing(parts: seq<string>)
    requires parts != [] && forall p | p in parts :: '/' !in p
    ensures Split(Join(parts, '/') + "/", '/') == parts + [""]
  {
    SplitConcat(Join(parts, '/'), '/', "");
    SplitJoin(parts, '/');
    SplitFree("", '/');
    assert Join(parts, '/') + "/" == Join(parts, '/') + ['/'] + "";
  }

  /** A slash-free service's index file goes into its day's directory; any other
      service goes where the rest of its name leads. */
  lemma IndexDirForm(service: string, d: int)
    ensures TailRooted(service) ==> Rooted(IndexDir(service, d))
    ensures !TailRooted(service) ==> IndexDir(service, d) == Join(TailStack(service) + DayParts(d), '/')
  {
    DayDirComponents(d);
    LeadComponents(service, DayText(d) + "/");
    var rooted := TailRooted(service);
    ResolveConcat(TailParts(service), DayParts(d) + [""], [], rooted);
    ResolveDay(d, Resolve(TailParts(service), [], rooted), rooted);
  }

  lemma TailStackFree(service: string)
    ensures forall p | p in TailStack(service) :: '/' !in p
  {
    TailPartsFree(service);
    ResolveFree(TailParts(service), [], false);
  }

  lemma TailPartsFree(service: string)
    ensures forall p | p in TailParts(service) :: '/' !in p
  {
    var i := IndexOf(service, '/');
    if i != |service| {
      SplitPartsFree(service[i + 1..], '/');
    }
  }

  /** The days under whose prefix an index file is listed, read off the service
      name: without '/' it is the day of the chunk. With one, what follows the
      first '/' is a path put in front of the day: it hides the file when it is
      absolute, changes nothing when it cleans away ("a/.", "a/b/.."), and
      otherwise lists the file under the day that path itself spells, if any. */
  predicate RoutedTo(service: string, day: int, d: int) {
    if TailRooted(service) then false
    else if TailStack(service) == [] then d == day
    else |TailStack(service)| >= 3 && TailStack(service)[..3] == DayParts(d)
  }

  /** Key routing for every service, time and day. */
  lemma Routing(prefix: string, service: string, t: int, id: string, algo: Algo, d: int)
    requires IsId(id)
    ensures DayPrefix(prefix, d) <= IndexKey(prefix, ChunkKey(service, t, id, algo)) <==> RoutedTo(service, Day(t), d)
  {
    IndexKeyForm(prefix, service, t, id, algo);
    StemPlain(t, id);
    RoutingOf(prefix, service, Day(t), FileStem(t, id), d);
  }

  lemma RoutingOf(prefix: string, service: string, day: int, stem: string, d: int)
    requires '/' !in stem
    ensures DayPrefix(prefix, d) <= prefix + (IndexDir(service, day) + "/" + (Head(service) + "-" + stem + ".json"))
       <==> RoutedTo(service, day, d)
  {
    var file := Head(service) + "-" + stem + ".json";
    assert '/' !in file;
    var dir := IndexDir(service, day);
    var tail := dir + "/" + file;
    DayPrefixComponents(prefix, d, tail);
    IndexDirForm(service, day);
    if TailRooted(service) {
      RootedComponents(tail);
      DayPartsPlain(d);
      assert DayParts(d)[0] in DayParts(d);
    } else {
      TailStackFree(service);
      DayPartsPlain(day);
      FileComponents(TailStack(service) + DayParts(day), file);
      RoutedComponents(TailStack(service), day, d, file);
    }
  }

  lemma RootedComponents(path: string)
    requires Rooted(path)
    ensures Split(path, '/')[0] == ""
  {
    assert path == "" + ['/'] + path[1..];
    SplitCons("", '/', path[1..]);
  }

  lemma FileComponents(parts: seq<string>, file: string)
    requires parts != [] && forall p | p in parts :: '/' !in p
    requires '/' !in file
    ensures Split(Join(parts, '/') + "/" + file, '/') == parts + [file]
  {
    SplitConcat(Join(parts, '/'), '/', file);
    SplitJoin(parts, '/');
    SplitFree(file, '/');
  }

  lemma RoutedComponents(stack: seq<string>, day: int, d: int, file: string)
    ensures DayParts(d) < stack + DayParts(day) + [file]
       <==> if stack == [] then d == day else |stack| >= 3 && stack[..3] == DayParts(d)
  {
    var all := stack + DayParts(day) + [file];
    assert DayParts(d) < all <==> all[..3] == DayParts(d);
    if stack == [] {
      assert all[..3] == DayParts(day);
      if DayParts(day) == DayParts(d) { DayPartsInjective(day, d); }
    } else if |stack| == 1 {
      assert all[1] == DayParts(day)[0];
      assert all[..3][1] == all[1];
    } else if |stack| == 2 {
      assert all[2] == DayParts(day)[0];
      assert all[..3][2] == all[2];
    } else {
      assert all[..3] == stack[..3];
    }
  }

  predicate SlashFree(service: string) { '/' !in service }

  lemma RoutedToOwnDay(service: string, day: int, d: int)
    requires SlashFree(service)
    ensures RoutedTo(service, day, d) <==> d == day
  {
  }

  /** The common case: without '/', exactly the day of the chunk. */
  lemma RoutingSlashFree(prefix: string, service: string, t: int, id: string, algo: Algo, d: int)
    requires IsId(id) && SlashFree(service)
    ensures DayPrefix(prefix, d) <= IndexKey(prefix, ChunkKey(service, t, id, algo)) <==> d == Day(t)
  {
    Routing(prefix, service, t, id, algo, d);
    RoutedToOwnDay(service, Day(t), d);
  }

  // ---- distinctness ----

  lemma TakeIdJson(k: string, a: string, b: string, c: string, d: string, id: string)
    requires |id| == ID_LENGTH && k == a + (b + "/" + (c + "-" + (d + "-" + id) + ".json"))
    ensures |k| >= 41 && k[|k| - 41..|k| - 5] == id && k[|k| - 5..] == ".json"
  {
    assert k == (a + b + "/" + c + "-" + d + "-") + id + ".json";
  }

  /** The id can be read back from the end of an index key. */
  lemma IndexKeyId(prefix: string, service: string, t: int, id: string, algo: Algo)
    requires IsId(id)
    ensures var k := IndexKey(prefix, ChunkKey(service, t, id, algo));
            |k| >= 41 && k[|k| - 41..|k| - 5] == id && k[|k| - 5..] == ".json"
  {
    IndexKeyForm(prefix, service, t, id, algo);
    TakeIdJson(IndexKey(prefix, ChunkKey(service, t, id, algo)),
               prefix, IndexDir(service, Day(t)), Head(service), IntText(UnixSeconds(t)), id);
  }

  /** The id can be read back from the end of a chunk key. */
  lemma ChunkKeyId(prefix: string, service: string, t: int, id: string, algo: Algo)
    requires IsId(id)
    ensures var k := prefix + ChunkKey(service, t, id, algo);
            |k| >= 39 && k[|k| - 39..|k| - 3] == id && k[|k| - 3..] == FileExtension(algo)
  {
    TakeIdExt(prefix, service, DayText(Day(t)), IntText(UnixSeconds(t)), id, FileExtension(algo));
  }

  lemma TakeIdExt(a: string, b: string, c: string, d: string, id: string, ext: string)
    requires |id| == ID_LENGTH && |ext| == 3
    ensures var k := a + (b + "/" + c + "/" + (d + "-" + id) + ext);
            |k| >= 39 && k[|k| - 39..|k| - 3] == id && k[|k| - 3..] == ext
  {
    assert a + (b + "/" + c + "/" + (d + "-" + id) + ext) == (a + b + "/" + c + "/" + d + "-") + id + ext;
  }

  /** Distinct ids never share an index file, whatever the services and times. */
  lemma IndexKeysDistinct(prefix: string, s1: string, t1: int, id1: string, a1: Algo, s2: string, t2: int,
                          id2: string, a2: Algo)
    requires IsId(id1) && IsId(id2) && id1 != id2
    ensures IndexKey(prefix, ChunkKey(s1, t1, id1, a1)) != IndexKey(prefix, ChunkKey(s2, t2, id2, a2))
  {
    IndexKeyId(prefix, s1, t1, id1, a1);
    IndexKeyId(prefix, s2, t2, id2, a2);
  }

  /** Nor a chunk object. */
  lemma ChunkKeysDistinct(prefix: string, s1: string, t1: int, id1: string, a1: Algo, s2: string, t2: int,
                          id2: string, a2: Algo)
    requires IsId(id1) && IsId(id2) && id1 != id2
    ensures prefix + ChunkKey(s1, t1, id1, a1) != prefix + ChunkKey(s2, t2, id2, a2)
  {
    ChunkKeyId(prefix, s1, t1, id1, a1);
    ChunkKeyId(prefix, s2, t2, id2, a2);
  }

  /** A chunk object and an index file never share a key, whatever the two prefixes. */
  lemma ChunkIsNotIndex(prefix: string, s1: string, t1: int, id1: string, a1: Algo,
                        prefix': string, s2: string, t2: int, id2: string, a2: Algo)
    requires IsId(id1) && IsId(id2)
    ensures prefix + ChunkKey(s1, t1, id1, a1) != IndexKey(prefix', ChunkKey(s2, t2, id2, a2))
  {
    ChunkKeyId(prefix, s1, t1, id1, a1);
    IndexKeyId(prefix', s2, t2, id2, a2);
    LastLetters(prefix + ChunkKey(s1, t1, id1, a1), IndexKey(prefix', ChunkKey(s2, t2, id2, a2)), a1);
  }

  lemma LastLetters(k: string, k': string, a: Algo)
    requires |k| >= 3 && k[|k| - 3..] == FileExtension(a)
    requires |k'| >= 5 && k'[|k'| - 5..] == ".json"
    ensures k != k'
  {
    assert k[|k| - 1] == FileExtension(a)[2] by { assert k[|k| - 3..][2] == k[|k| - 1]; }
    assert k'[|k'| - 1] == 'n' by { assert k'[|k'| - 5..][4] == k'[|k'| - 1]; }
  }

  // ---- what an index key says ----

  lemma SlashFreeDir(service: string, d: int)
    requires SlashFree(service)
    ensures IndexDir(service, d) == DayText(d) && Head(service) == service
  {
    IndexDirForm(service, d);
    assert TailStack(service) + DayParts(d) == DayParts(d);
  }

  /** The index key of a slash-free service reads YYYY/MM/DD/service-seconds-id.json behind
      the index prefix, with the date and seconds of the chunk's time. */
  lemma IndexKeyReads(prefix: string, service: string, t: int, id: string, algo: Algo)
    returns (year: string, month: string, day: string, sec: string, date: Date)
    requires IsId(id) && SlashFree(service) && DateOf(Day(t)).year >= 0
    ensures IndexKey(prefix, ChunkKey(service, t, id, algo))
         == prefix + (year + "/" + month + "/" + day + "/" + (service + "-" + (sec + "-" + id) + ".json"))
    ensures Spells(year, month, day, date) && ValidDate(date)
    ensures DayNumber(date) * 86_400_000_000_000 <= t < (DayNumber(date) + 1) * 86_400_000_000_000
    ensures t >= 0 ==> Reads(sec, 1, Value(sec)) && Value(sec) * 1_000_000_000 <= t < (Value(sec) + 1) * 1_000_000_000
  {
    IndexKeyForm(prefix, service, t, id, algo);
    SlashFreeDir(service, Day(t));
    year, month, day := DayTextReads(Day(t));
    sec, date := IntText(UnixSeconds(t)), DateOf(Day(t));
    SecondsExact(t);
    if t >= 0 { ValueDecimal(UnixSeconds(t)); }
  }

  lemma SampleIndexKey(t: int, id: string)
    requires IsId(id) && t == 1_774_224_000_000_000_000
    ensures IndexKey("index/", ChunkKey("web", t, id, Gzip))
         == "index/" + ("2026/03/23" + "/" + ("web" + "-" + ("1774224000" + "-" + id) + ".json"))
  {
    IndexKeyForm("index/", "web", t, id, Gzip);
    SlashFreeDir("web", Day(t));
    SampleDate(t);
    SampleText(Day(t));
    SampleSeconds();
  }
}
