/** Object keys: chunkKey (internal/ingester/buffer.go), indexKey and dayPrefixes
    (internal/index/index.go), with filepath.Ext, Dir, Base and Clean written out. */
module Keys {
  import opened Seqs
  import opened Calendar
  import opened Domain

  const ID_LENGTH := 36

  /** What uuid.NewString promises: fixed length, no '/' and no '.'. */
  predicate IsId(id: string) {
    |id| == ID_LENGTH && '/' !in id && '.' !in id
  }

  function FileStem(t: int, id: string): string {
    IntText(UnixSeconds(t)) + "-" + id
  }

  function ChunkKey(service: string, t: int, id: string, algo: Algo): string {
    service + "/" + DayText(Day(t)) + "/" + FileStem(t, id) + FileExtension(algo)
  }

  // ---- path/filepath ----

  /** filepath.Ext: from the last '.' of the last element. */
  function Ext(path: string): (e: string)
    ensures |e| <= |path| && path[|path| - |e|..] == e
  {
    if path == [] then ""
    else
      var n := |path| - 1;
      if path[n] == '/' then ""
      else if path[n] == '.' then path[n..]
      else
        var e := Ext(path[..n]);
        if e == "" then "" else
          assert path[..n][n - |e|..] == e;
          assert path[|path| - |e| - 1..] == e + [path[n]];
          e + [path[n]]
  }

  /** Text after the last '/'. */
  function LastElement(path: string): string {
    Split(path, '/')[|Split(path, '/')| - 1]
  }

  /** filepath.Base */
  function Base(path: string): string
    decreases |path|
  {
    if path == "" then "."
    else if path[|path| - 1] == '/' then
      (if |path| == 1 then "/" else Base(path[..|path| - 1]))
    else LastElement(path)
  }

  /** Component stack of filepath.Clean. */
  function Resolve(parts: seq<string>, stack: seq<string>, rooted: bool): seq<string>
    decreases |parts|
  {
    if parts == [] then stack
    else Resolve(parts[1..], Push(stack, parts[0], rooted), rooted)
  }

  function Push(stack: seq<string>, part: string, rooted: bool): seq<string> {
    if part == "" || part == "." then stack
    else if part == ".." then
      (if stack != [] && stack[|stack| - 1] != ".." then stack[..|stack| - 1]
       else if rooted then stack
       else stack + [part])
    else stack + [part]
  }

  predicate Rooted(path: string) { path != "" && path[0] == '/' }

  function Clean(path: string): string {
    var stack := Resolve(Split(path, '/'), [], Rooted(path));
    if Rooted(path) then "/" + Join(stack, '/')
    else if stack == [] then "."
    else Join(stack, '/')
  }

  /** filepath.Dir: everything up to the last '/', cleaned. */
  function Dir(path: string): string {
    Clean(path[..|path| - SuffixLength(path)])
  }

  /** Length of the text after the last '/'. */
  function SuffixLength(path: string): (n: nat)
    ensures n <= |path|
  {
    if path == [] || path[|path| - 1] == '/' then 0
    else 1 + SuffixLength(path[..|path| - 1])
  }

  // ---- index keys ----

  function IndexKey(prefix: string, chunkKey: string): string {
    var i := IndexOf(chunkKey, '/');
    IndexFile(prefix, chunkKey[..i], if i < |chunkKey| then chunkKey[i + 1..] else chunkKey)
  }

  function IndexFile(prefix: string, service: string, rest: string): string {
    var base := rest[..|rest| - |Ext(rest)|];
    prefix + (Dir(base) + "/" + (service + "-" + Base(base) + ".json"))
  }

  function DayPrefix(prefix: string, d: int): string {
    prefix + DayText(d) + "/"
  }

  /** Number of days from day first to day last. */
  function DayCount(first: int, last: int): nat {
    if first <= last then last - first + 1 else 0
  }

  /** Index prefixes of every day of the range, in order. */
  function DayRange(prefix: string, first: int, last: int): seq<string> {
    seq(DayCount(first, last), i => DayPrefix(prefix, first + i))
  }

  method DayPrefixes(prefix: string, start: int, end: int) returns (prefixes: seq<string>)
    ensures prefixes == DayRange(prefix, Day(start), Day(end))
  {
    prefixes := [];
    var first, last := Day(start), Day(end);
    var d := first;
    while d <= last
      invariant first <= d
      invariant d <= last + 1 || d == first
      invariant |prefixes| == d - first
      invariant forall i | 0 <= i < d - first :: prefixes[i] == DayPrefix(prefix, first + i)
    {
      prefixes := prefixes + [DayPrefix(prefix, d)];
      d := d + 1;
    }
  }

  lemma DayPartsPlain(d: int)
    ensures forall p | p in DayParts(d) :: '/' !in p && '.' !in p && p != ""
  {
    var parts := DayParts(d);
    forall p | p in parts
      ensures '/' !in p && '.' !in p && p != ""
    {
      assert p == parts[0] || p == parts[1] || p == parts[2];
    }
  }

  lemma PathPrefix(prefix: string, path: string, day: string, parts: seq<string>, tail: string)
    requires parts != [] && forall p | p in parts :: '/' !in p
    requires Join(parts, '/') == path + day
    ensures prefix + path + day + "/" <= prefix + tail <==> parts < Split(tail, '/')
  {
    JoinPrefix(parts, '/', tail);
    assert prefix + path + day + "/" == prefix + (path + day + "/");
    PrefixCancel(prefix, path + day + "/", tail);
  }

  /** A key under a day prefix names that day in its leading path components. */
  lemma DayPrefixComponents(prefix: string, d: int, tail: string)
    ensures DayPrefix(prefix, d) <= prefix + tail <==> DayParts(d) < Split(tail, '/')
  {
    DayPartsPlain(d);
    assert prefix + "" == prefix && "" + DayText(d) == DayText(d);
    PathPrefix(prefix, "", DayText(d), DayParts(d), tail);
  }

  /** No key lies under two days' prefixes, so Query visits it at most once. */
  lemma DayPrefixUnique(prefix: string, d: int, e: int, key: string)
    requires DayPrefix(prefix, d) <= key && DayPrefix(prefix, e) <= key
    ensures d == e
  {
    assert prefix <= DayPrefix(prefix, d);
    var tail := key[|prefix|..];
    assert key == prefix + tail;
    DayPrefixComponents(prefix, d, tail);
    DayPrefixComponents(prefix, e, tail);
    assert DayParts(d) == Split(tail, '/')[..3] == DayParts(e);
    DayPartsInjective(d, e);
  }

  // ---- routing: which day prefix an index file lies under ----

  /** Text of a service before its first '/'. */
  function Head(service: string): string { service[..IndexOf(service, '/')] }

  /** Path components of a service after its first '/', if it has one. */
  function TailParts(service: string): seq<string> {
    var i := IndexOf(service, '/');
    if i == |service| then [] else Split(service[i + 1..], '/')
  }

  /** What those components clean to in front of a day directory. */
  function TailStack(service: string): seq<string> {
    Resolve(TailParts(service), [], false)
  }

  /** The service's second component is empty, so what follows its first '/' is
      an absolute path. */
  predicate TailRooted(service: string) {
    TailParts(service) != [] && TailParts(service)[0] == ""
  }

  lemma {:induction false} ExtOf(a: string, b: string)
    requires '/' !in b && '.' !in b
    ensures Ext(a + "." + b) == "." + b
  {
    if b == "" {
      ExtDot(a);
      assert a + "." + b == a + "." && "." + b == ".";
    } else {
      var b', c := b[..|b| - 1], b[|b| - 1];
      assert c in b;
      LastApart(a, b);
      ExtOf(a, b');
      ExtSnoc(a + "." + b', c);
    }
  }

  lemma LastApart(a: string, b: string)
    requires b != ""
    ensures var b', c := b[..|b| - 1], b[|b| - 1];
            a + "." + b == a + "." + b' + [c] && "." + b == "." + b' + [c]
  {
    InitLast(b);
  }

  lemma ExtDot(a: string)
    ensures Ext(a + ".") == "."
  {
    assert (a + ".")[|a|..] == ".";
  }

  lemma ExtSnoc(path: string, c: char)
    requires c != '/' && c != '.' && Ext(path) != ""
    ensures Ext(path + [c]) == Ext(path) + [c]
  {
    assert (path + [c])[..|path|] == path;
  }

  lemma {:induction false} SuffixLengthOf(a: string, b: string)
    requires '/' !in b
    ensures SuffixLength(a + "/" + b) == |b|
  {
    var s := a + "/" + b;
    if b == "" {
      assert s[|s| - 1] == '/';
    } else {
      assert s[..|s| - 1] == a + "/" + b[..|b| - 1];
      assert s[|s| - 1] == b[|b| - 1] && s[|s| - 1] in b;
      SuffixLengthOf(a, b[..|b| - 1]);
    }
  }

  lemma BaseOf(a: string, b: string)
    requires '/' !in b && b != ""
    ensures Base(a + "/" + b) == b
  {
    var s := a + "/" + b;
    assert s[|s| - 1] == b[|b| - 1] && s[|s| - 1] in b;
    SplitConcat(a, '/', b);
    SplitFree(b, '/');
    assert a + ['/'] + b == s;
  }

  lemma {:induction false} ResolveConcat(a: seq<string>, b: seq<string>, stack: seq<string>, rooted: bool)
    ensures Resolve(a + b, stack, rooted) == Resolve(b, Resolve(a, stack, rooted), rooted)
    decreases |a|
  {
    if a == [] {
      assert a + b == b;
    } else {
      assert (a + b)[1..] == a[1..] + b;
      ResolveConcat(a[1..], b, Push(stack, a[0], rooted), rooted);
    }
  }

  lemma {:induction false} ResolveFree(parts: seq<string>, stack: seq<string>, rooted: bool)
    requires forall p | p in parts :: '/' !in p
    requires forall p | p in stack :: '/' !in p
    ensures forall p | p in Resolve(parts, stack, rooted) :: '/' !in p
    decreases |parts|
  {
    if parts != [] {
      assert parts[0] in parts;
      ResolveFree(parts[1..], Push(stack, parts[0], rooted), rooted);
    }
  }

  // The rules of path cleaning, which leave it no freedom.

  /** Empty components and dots vanish; a name and the ".." behind it cancel. */
  lemma ComponentsVanish(a: seq<string>, gone: seq<string>, b: seq<string>, rooted: bool)
    requires gone == [""] || gone == ["."] || (|gone| == 2 && gone[0] !in {"", ".", ".."} && gone[1] == "..")
    ensures Resolve(a + (gone + b), [], rooted) == Resolve(a + b, [], rooted)
  {
    ResolveConcat(a, b, [], rooted);
    ResolveConcat(a, gone + b, [], rooted);
    VanishAt(gone, b, Resolve(a, [], rooted), rooted);
  }

  lemma VanishAt(gone: seq<string>, b: seq<string>, stack: seq<string>, rooted: bool)
    requires gone == [""] || gone == ["."] || (|gone| == 2 && gone[0] !in {"", ".", ".."} && gone[1] == "..")
    ensures Resolve(gone + b, stack, rooted) == Resolve(b, stack, rooted)
  {
    if |gone| == 1 {
      assert (gone + b)[1..] == b;
    } else {
      assert (gone + b)[1..] == [".."] + b && ([".."] + b)[1..] == b;
      assert Push(Push(stack, gone[0], rooted), "..", rooted) == stack;
    }
  }

  /** A name stays; ".." in front of everything vanishes at the root and stays elsewhere. */
  lemma ComponentsStay(a: seq<string>, name: string, b: seq<string>, n: nat)
    requires name !in {"", ".", ".."}
    ensures forall rooted :: Resolve(a + [name], [], rooted) == Resolve(a, [], rooted) + [name]
    ensures Resolve([".."] + b, [], true) == Resolve(b, [], true)
    ensures Resolve(seq(n, _ => ".."), [], false) == seq(n, _ => "..")
  {
    forall rooted
      ensures Resolve(a + [name], [], rooted) == Resolve(a, [], rooted) + [name]
    {
      ResolveConcat(a, [name], [], rooted);
      assert [name][1..] == [];
    }
    assert ([".."] + b)[1..] == b;
    Parents(n);
  }

  lemma {:induction false} Parents(n: nat)
    ensures Resolve(seq(n, _ => ".."), [], false) == seq(n, _ => "..")
  {
    if n > 0 {
      Parents(n - 1);
      var up := seq(n - 1, _ => "..");
      assert seq(n, _ => "..") == up + [".."];
      ResolveConcat(up, [".."], [], false);
      assert [".."][1..] == [];
    }
  }

  /** A day directory is pushed component by component. */
  lemma ResolveDay(d: int, stack: seq<string>, rooted: bool)
    ensures Resolve(DayParts(d) + [""], stack, rooted) == stack + DayParts(d)
  {
    DayPartsPlain(d);
    var p := DayParts(d);
    assert p[0] in p && p[1] in p && p[2] in p;
    assert '.' in "." && '.' in ".." by { assert "."[0] == '.' && ".."[0] == '.'; }
    var s1 := Push(stack, p[0], rooted);
    var s2 := Push(s1, p[1], rooted);
    var s3 := Push(s2, p[2], rooted);
    var q := p + [""];
    assert q[1..][1..][1..][1..] == [];
    calc {
      Resolve(q, stack, rooted);
      Resolve(q[1..], s1, rooted);
      Resolve(q[1..][1..], s2, rooted);
      { assert q[1..][1..][0] == p[2]; }
      Resolve(q[1..][1..][1..], s3, rooted);
      { assert q[1..][1..][1..][0] == ""; }
      Resolve(q[1..][1..][1..][1..], s3, rooted);
      s3;
    }
  }

  // ---- what the keys say ----

  lemma ConcatKey(service: string, year: string, month: string, day: string, sec: string, id: string, ext: string)
    ensures service + "/" + (year + "/" + month + "/" + day) + "/" + (sec + "-" + id) + ext
         == service + "/" + year + "/" + month + "/" + day + "/" + sec + "-" + id + ext
  {
    Assoc(service + "/", year + "/" + month + "/", day);
    Assoc(service + "/", year + "/" + month, "/");
    Assoc(service + "/", year + "/", month);
    Assoc(service + "/", year, "/");
    Assoc(service + "/" + year + "/" + month + "/" + day + "/", sec + "-", id);
    Assoc(service + "/" + year + "/" + month + "/" + day + "/", sec, "-");
  }

  /** A chunk key reads service/YYYY/MM/DD/seconds-id.ext, where YYYY-MM-DD is the UTC date
      of the time and seconds its whole seconds since 1970. */
  lemma ChunkKeyReads(service: string, t: int, id: string, algo: Algo)
    returns (year: string, month: string, day: string, sec: string, date: Date)
    requires DateOf(Day(t)).year >= 0
    ensures ChunkKey(service, t, id, algo)
         == service + "/" + year + "/" + month + "/" + day + "/" + sec + "-" + id
            + (match algo case Gzip => ".gz" case Snappy => ".sz")
    ensures Spells(year, month, day, date) && ValidDate(date)
    ensures DayNumber(date) * 86_400_000_000_000 <= t < (DayNumber(date) + 1) * 86_400_000_000_000
    ensures t >= 0 ==> Reads(sec, 1, Value(sec)) && Value(sec) * 1_000_000_000 <= t < (Value(sec) + 1) * 1_000_000_000
  {
    year, month, day := DayTextReads(Day(t));
    sec, date := IntText(UnixSeconds(t)), DateOf(Day(t));
    SecondsExact(t);
    if t >= 0 { ValueDecimal(UnixSeconds(t)); }
    ConcatKey(service, year, month, day, sec, id, FileExtension(algo));
  }

  /** A day prefix ends in the date of the day, YYYY/MM/DD/. */
  lemma DayPrefixReads(prefix: string, d: int) returns (year: string, month: string, day: string, date: Date)
    requires DateOf(d).year >= 0
    ensures DayPrefix(prefix, d) == prefix + year + "/" + month + "/" + day + "/"
    ensures Spells(year, month, day, date) && ValidDate(date) && DayNumber(date) == d
  {
    year, month, day := DayTextReads(d);
    date := DateOf(d);
    Assoc(prefix, year + "/" + month + "/", day);
    Assoc(prefix, year + "/" + month, "/");
    Assoc(prefix, year + "/", month);
    Assoc(prefix, year, "/");
  }

  // ---- one key in full: 23 March 2026, 00:00:00 UTC ----

  lemma SampleDate(t: int)
    requires t == 1_774_224_000_000_000_000
    ensures UnixSeconds(t) == 1_774_224_000 && DateOf(Day(t)) == Date(2026, 3, 23)
  {
    SampleNumber(Date(2026, 3, 23));
    DateRoundTrip(Day(t));
    DayNumberInjective(DateOf(Day(t)), Date(2026, 3, 23));
  }

  lemma SampleNumber(d: Date)
    requires d == Date(2026, 3, 23)
    ensures ValidDate(d) && DayNumber(d) == 20535
  {
    assert DaysBeforeMonth(2026, 2) == 31;
    assert DaysBeforeMonth(2026, 3) == 59;
  }

  lemma SampleText(n: int)
    requires DateOf(n) == Date(2026, 3, 23)
    ensures DayText(n) == "2026/03/23"
  {
    SampleDigits();
    JoinThree("2026", "03", "23");
    assert DayParts(n) == ["2026", "03", "23"];
  }

  lemma SampleDigits()
    ensures YearText(2026) == "2026" && TwoDigits(3) == "03" && TwoDigits(23) == "23"
  {
    assert Decimal(20) == "20" && Decimal(202) == "202" && Decimal(2026) == "2026";
    assert Decimal(3) == "3" && PadTo("3", 2) == "03" && Decimal(23) == "23";
  }

  lemma SampleSeconds()
    ensures IntText(1_774_224_000) == "1774224000"
  {
    assert Decimal(17) == "17" && Decimal(177) == "177" && Decimal(1774) == "1774" && Decimal(17742) == "17742";
    assert Decimal(177422) == "177422" && Decimal(1774224) == "1774224" && Decimal(17742240) == "17742240";
    assert Decimal(177422400) == "177422400";
  }

  lemma SampleKey(t: int, id: string)
    requires t == 1_774_224_000_000_000_000
    ensures ChunkKey("web", t, id, Gzip) == "web/2026/03/23/1774224000-" + id + ".gz"
  {
    SampleDate(t);
    SampleText(Day(t));
    SampleSeconds();
    SampleConcat("web", "2026/03/23", "1774224000", id);
  }

  lemma SampleConcat(service: string, day: string, sec: string, id: string)
    requires service == "web" && day == "2026/03/23" && sec == "1774224000"
    ensures service + "/" + day + "/" + (sec + "-" + id) + ".gz" == "web/2026/03/23/1774224000-" + id + ".gz"
  {
    Assoc(service + "/" + day + "/", sec + "-", id);
    assert service + "/" + day + "/" + (sec + "-") == "web/2026/03/23/1774224000-";
  }

  lemma SamplePrefix(t: int)
    requires t == 1_774_224_000_000_000_000
    ensures DayPrefix("index/", Day(t)) == "index/2026/03/23/"
  {
    SampleDate(t);
    SampleText(Day(t));
  }
}
