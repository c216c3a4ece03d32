/** Newline-delimited JSON at byte level: what bufio.Scanner with a 1 MiB buffer
    reads back from what json.Encoder wrote. */
module Lines {
  import opened Seqs
  import opened Domain

  newtype byte = x: int | 0 <= x < 256

  type bytes = seq<byte>

  const NL: byte := 10
  const CR: byte := 13

  /** The scanner's buffer: a line of this many bytes does not fit. */
  const LIMIT: nat := 1048576

  /** The foreign encoders: JSON for entries and index files, gzip and snappy.
      An encoder may refuse a value (a year JSON cannot carry, for instance). */
  datatype Codec = Codec(
    enc: LogEntry -> Option<bytes>,
    dec: bytes -> Option<LogEntry>,
    compress: (Algo, bytes) -> bytes,
    decompress: (Algo, bytes) -> Option<bytes>,
    encIndex: Chunk -> Option<bytes>,
    decIndex: bytes -> Option<Chunk>)

  /** An encoded entry is one line and decodes to itself. */
  ghost predicate LineCodec(c: Codec) {
    forall e | c.enc(e).Some? ::
      var l := c.enc(e).value;
      l != [] && NL !in l && l[|l| - 1] != CR && c.dec(l) == Some(e)
  }

  // ---- lines of a file ----

  /** Lines that end in a newline. */
  function Heads(file: bytes): seq<bytes> {
    Split(file, NL)[..|Split(file, NL)| - 1]
  }

  /** What follows the last newline. */
  function Tail(file: bytes): bytes {
    Split(file, NL)[|Split(file, NL)| - 1]
  }

  /** The tokens of bufio.ScanLines before their carriage return is dropped. */
  function LinesOf(file: bytes): seq<bytes> {
    Heads(file) + (if Tail(file) == [] then [] else [Tail(file)])
  }

  function DropCR(line: bytes): bytes {
    if line != [] && line[|line| - 1] == CR then line[..|line| - 1] else line
  }

  predicate TooLong(line: bytes) { |line| >= LIMIT }

  predicate AnyTooLong(lines: seq<bytes>) {
    exists i | 0 <= i < |lines| :: TooLong(lines[i])
  }

  /** Entries of the lines that decode; the others are skipped. */
  function DecodeAll(c: Codec, lines: seq<bytes>): seq<LogEntry> {
    if lines == [] then []
    else Opt(c.dec(DropCR(lines[0]))) + DecodeAll(c, lines[1..])
  }

  /** Outcome of scanning a whole file: an over-long line is an error. */
  function Scanned(c: Codec, file: bytes): Result<seq<LogEntry>> {
    if AnyTooLong(LinesOf(file)) then Err else Ok(DecodeAll(c, LinesOf(file)))
  }

  // ---- writing ----

  /** json.Encoder output for entries that all encode. */
  ghost predicate Encodable(c: Codec, es: seq<LogEntry>) {
    forall e | e in es :: c.enc(e).Some?
  }

  function Encoded(c: Codec, es: seq<LogEntry>): bytes
    requires Encodable(c, es)
  {
    if es == [] then [] else c.enc(es[0]).value + [NL] + Encoded(c, es[1..])
  }

  function EncodedLines(c: Codec, es: seq<LogEntry>): seq<bytes>
    requires Encodable(c, es)
  {
    seq(|es|, i requires 0 <= i < |es| => c.enc(es[i]).value)
  }

  // ---- lemmas ----

  /** One carriage return at the end of a line is dropped, and nothing else. */
  lemma CarriageReturn(c: Codec, line: bytes)
    ensures DecodeAll(c, [line + [13]]) == Opt(c.dec(line))
    ensures line != [] && line[|line| - 1] != 13 ==> DecodeAll(c, [line]) == Opt(c.dec(line))
  {
    DecodeOne(c, line);
    DecodeOne(c, line + [13]);
    assert (line + [13])[..|line|] == line;
  }

  lemma SplitAppend(file: bytes, x: bytes)
    requires NL !in x
    ensures Heads(file + x) == Heads(file) && Tail(file + x) == Tail(file) + x
  {
    SplitExtend(file, NL, x);
  }

  lemma NewlineEnds(file: bytes)
    ensures Heads(file + [NL]) == Heads(file) + [Tail(file)] && Tail(file + [NL]) == []
  {
    SplitConcat(file, NL, []);
    SplitFree<byte>([], NL);
    assert file + [NL] + [] == file + [NL];
    var parts := Split(file, NL);
    assert Split(file + [NL], NL) == parts + [[]];
    assert parts == parts[..|parts| - 1] + [parts[|parts| - 1]];
  }

  /** Writing a full line terminates whatever unfinished line precedes it. */
  lemma SplitLine(file: bytes, x: bytes)
    requires NL !in x
    ensures Heads(file + x + [NL]) == Heads(file) + [Tail(file) + x]
    ensures Tail(file + x + [NL]) == []
  {
    SplitAppend(file, x);
    NewlineEnds(file + x);
  }

  lemma {:induction false} DecodeConcat(c: Codec, a: seq<bytes>, b: seq<bytes>)
    ensures DecodeAll(c, a + b) == DecodeAll(c, a) + DecodeAll(c, b)
  {
    if a == [] {
      assert a + b == b;
    } else {
      assert (a + b)[1..] == a[1..] + b;
      DecodeConcat(c, a[1..], b);
    }
  }

  lemma DecodeOne(c: Codec, line: bytes)
    ensures DecodeAll(c, [line]) == Opt(c.dec(DropCR(line)))
  {
    assert [line][1..] == [];
  }

  /** Decoding the lines of encoded entries gives the entries back. */
  lemma {:induction false} DecodeEncoded(c: Codec, es: seq<LogEntry>)
    requires LineCodec(c) && Encodable(c, es)
    ensures DecodeAll(c, EncodedLines(c, es)) == es
  {
    if es != [] {
      var lines := EncodedLines(c, es);
      assert es[0] in es;
      assert lines[1..] == EncodedLines(c, es[1..]);
      DecodeEncoded(c, es[1..]);
    }
  }

  lemma HeadsCons(line: bytes, rest: bytes)
    requires NL !in line
    ensures Heads(line + [NL] + rest) == [line] + Heads(rest) && Tail(line + [NL] + rest) == Tail(rest)
  {
    SplitCons(line, NL, rest);
    InitConcat([line], Split(rest, NL));
  }

  lemma {:induction false} EncodedHeads(c: Codec, es: seq<LogEntry>)
    requires LineCodec(c) && Encodable(c, es)
    ensures Heads(Encoded(c, es)) == EncodedLines(c, es) && Tail(Encoded(c, es)) == []
  {
    if es == [] {
      SplitFree<byte>([], NL);
    } else {
      assert es[0] in es;
      var l := c.enc(es[0]).value;
      EncodedHeads(c, es[1..]);
      HeadsCons(l, Encoded(c, es[1..]));
      var lines := EncodedLines(c, es);
      assert lines == [l] + EncodedLines(c, es[1..]);
    }
  }

  /** The byte-level round trip, and exactly when it fails: reading back what was
      written gives the entries unless some line does not fit the scanner. */
  lemma ScanEncoded(c: Codec, es: seq<LogEntry>)
    requires LineCodec(c) && Encodable(c, es)
    ensures Scanned(c, Encoded(c, es))
         == if exists e | e in es :: |c.enc(e).value| >= 1048576 then Err else Ok(es)
  {
    EncodedHeads(c, es);
    DecodeEncoded(c, es);
    var lines := EncodedLines(c, es);
    assert LinesOf(Encoded(c, es)) == lines;
    if e :| e in es && TooLong(c.enc(e).value) {
      var i :| 0 <= i < |es| && es[i] == e;
      assert TooLong(lines[i]);
    }
    if AnyTooLong(lines) {
      var i :| 0 <= i < |lines| && TooLong(lines[i]);
      assert es[i] in es;
    }
  }

  /** bufio.Scanner over file, decoding each line: the loop of WAL.Recover and of
      both fetchAndFilter functions. */
  method Scan(c: Codec, file: bytes) returns (r: Result<seq<LogEntry>>)
    ensures r == Scanned(c, file)
  {
    var entries: seq<LogEntry> := [];
    ghost var seen, rest := [], Split(file, NL);
    var pos := 0;
    assert file[0..] == file;
    while pos < |file|
      invariant 0 <= pos <= |file|
      invariant rest == Split(file[pos..], NL)
      invariant Split(file, NL) == seen + rest
      invariant !AnyTooLong(seen)
      invariant entries == DecodeAll(c, seen)
    {
      var j := FindNewline(file, pos);
      var line := file[pos..j];
      LineStep(c, file, pos, j, seen);
      MoveOne(seen, rest);
      if |line| >= LIMIT {
        return Err;
      }
      entries := entries + Opt(c.dec(DropCR(line)));
      if j == |file| {
        return Ok(entries);
      }
      seen, rest, pos := seen + [line], rest[1..], j + 1;
    }
    assert file[|file|..] == [];
    Terminated(file, seen);
    ScanOk(c, file, seen);
    return Ok(entries);
  }

  lemma LineStep(c: Codec, file: bytes, pos: nat, j: nat, seen: seq<bytes>)
    requires pos <= j <= |file| && pos < |file|
    requires NL !in file[pos..j] && (j < |file| ==> file[j] == NL)
    requires Split(file, NL) == seen + Split(file[pos..], NL) && !AnyTooLong(seen)
    ensures Split(file[pos..], NL)[0] == file[pos..j]
    ensures j < |file| ==> Split(file[pos..], NL)[1..] == Split(file[j + 1..], NL)
    ensures TooLong(file[pos..j]) ==> Scanned(c, file) == Err
    ensures !TooLong(file[pos..j]) ==> !AnyTooLong(seen + [file[pos..j]])
    ensures DecodeAll(c, seen + [file[pos..j]]) == DecodeAll(c, seen) + Opt(c.dec(DropCR(file[pos..j])))
    ensures !TooLong(file[pos..j]) && j == |file| ==> Scanned(c, file) == Ok(DecodeAll(c, seen + [file[pos..j]]))
  {
    var line := file[pos..j];
    FirstLine(file, pos, j);
    TooLongSnoc(seen, line);
    DecodeSnoc(c, seen, line);
    assert Split(file, NL)[|seen|] == line;
    if TooLong(line) {
      LongLine(c, file, |seen|);
    } else if j == |file| {
      Unterminated(file, seen + [line]);
      ScanOk(c, file, seen + [line]);
    }
  }

  lemma TooLongSnoc(lines: seq<bytes>, line: bytes)
    ensures AnyTooLong(lines + [line]) <==> AnyTooLong(lines) || TooLong(line)
  {
    var all := lines + [line];
    assert all[|lines|] == line;
    assert forall i | 0 <= i < |lines| :: all[i] == lines[i];
  }

  lemma ScanOk(c: Codec, file: bytes, lines: seq<bytes>)
    requires LinesOf(file) == lines && !AnyTooLong(lines)
    ensures Scanned(c, file) == Ok(DecodeAll(c, lines))
  {
  }

  lemma DecodeSnoc(c: Codec, lines: seq<bytes>, line: bytes)
    ensures DecodeAll(c, lines + [line]) == DecodeAll(c, lines) + Opt(c.dec(DropCR(line)))
  {
    DecodeConcat(c, lines, [line]);
    DecodeOne(c, line);
  }

  lemma Unterminated(file: bytes, lines: seq<bytes>)
    requires Split(file, NL) == lines && lines[|lines| - 1] != []
    ensures LinesOf(file) == lines
  {
  }

  lemma Terminated(file: bytes, lines: seq<bytes>)
    requires Split(file, NL) == lines + Split([], NL)
    ensures LinesOf(file) == lines
  {
    SplitFree<byte>([], NL);
  }

  method FindNewline(file: bytes, pos: nat) returns (j: nat)
    requires pos <= |file|
    ensures pos <= j <= |file|
    ensures NL !in file[pos..j]
    ensures j < |file| ==> file[j] == NL
  {
    j := pos;
    while j < |file| && file[j] != NL
      invariant pos <= j <= |file|
      invariant NL !in file[pos..j]
    {
      j := j + 1;
    }
  }

  lemma FirstLine(file: bytes, pos: nat, j: nat)
    requires pos <= j <= |file| && pos < |file|
    requires NL !in file[pos..j]
    requires j < |file| ==> file[j] == NL
    ensures Split(file[pos..], NL) == [file[pos..j]] + (if j < |file| then Split(file[j + 1..], NL) else [])
  {
    if j < |file| {
      assert file[pos..] == file[pos..j] + [NL] + file[j + 1..];
      SplitCons(file[pos..j], NL, file[j + 1..]);
    } else {
      assert file[pos..] == file[pos..j];
      SplitFree(file[pos..], NL);
    }
  }

  lemma LongLine(c: Codec, file: bytes, i: nat)
    requires i < |Split(file, NL)| && TooLong(Split(file, NL)[i])
    ensures Scanned(c, file) == Err
  {
    InitLast(Split(file, NL));
    LongAmong(c, file, Heads(file), Tail(file), i);
  }

  lemma LongAmong(c: Codec, file: bytes, heads: seq<bytes>, tail: bytes, i: nat)
    requires heads == Heads(file) && tail == Tail(file)
    requires i <= |heads| && TooLong((heads + [tail])[i])
    ensures Scanned(c, file) == Err
  {
    var lines := LinesOf(file);
    assert i < |lines| && lines[i] == (heads + [tail])[i];
    assert AnyTooLong(lines);
  }
}
