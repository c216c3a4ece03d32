/** internal/ingester/wal.go: the write-ahead log as bytes on disk. */
module Wal {
  import opened Seqs
  import opened Domain
  import opened Lines

  /** How a write to the file goes wrong, if it does. A short write leaves a
      prefix of the line; a failed fsync leaves the whole line. */
  datatype WriteFault = NoFault | ShortWrite(k: nat) | SyncFailed

  datatype ResetFault = ResetOk | TruncateFailed | SeekFailed

  /** Recover seeks to the start before it reads, and to the end after. */
  datatype SeekFault = SeekOk | StartFailed | EndFailed

  /** broken: json.Encoder keeps the first write error and refuses every later
      Encode; only Reset and reopening replace the encoder. */
  datatype WalState = WalState(file: bytes, broken: bool, n: nat)

  /** Bytes that reach the file in a short write: fewer than the line has. */
  function ShortLength(k: nat, line: nat): (n: nat)
    requires line > 0
    ensures n < line
  {
    if k < line then k else line - 1
  }

  /** Bytes one Append puts into the file, whether the write error sticks, and
      whether Append reports success. */
  function AppendBytes(c: Codec, w: WalState, e: LogEntry, f: WriteFault): (bytes, bool, bool) {
    if w.broken || c.enc(e).None? then ([], w.broken, false)
    else
      var line := c.enc(e).value + [NL];
      match f
      case ShortWrite(k) => (line[..ShortLength(k, |line|)], true, false)
      case SyncFailed => (line, false, false)
      case NoFault => (line, false, true)
  }

  function AppendWal(c: Codec, w: WalState, e: LogEntry, f: WriteFault): (WalState, bool) {
    var (written, broken, ok) := AppendBytes(c, w, e, f);
    (WalState(w.file + written, broken, if ok then w.n + 1 else w.n), ok)
  }

  function ResetWal(w: WalState, f: ResetFault): (WalState, bool) {
    match f
    case TruncateFailed => (w, false)
    case SeekFailed => (w.(file := []), false)
    case ResetOk => (WalState([], false, 0), true)
  }

  /** One append, exactly: acknowledged when the encoder still works, the entry encodes and
      neither the write nor the sync fails; then the whole line is in the file. */
  lemma AppendExact(c: Codec, w: WalState, e: LogEntry, f: WriteFault)
    ensures var (w', ok) := AppendWal(c, w, e, f);
      && (ok <==> !w.broken && c.enc(e).Some? && f.NoFault?)
      && w'.n == w.n + (if ok then 1 else 0)
      && (w.broken || c.enc(e).None? ==> w'.file == w.file)
      && (!w.broken && c.enc(e).Some? ==>
            var whole := w.file + (c.enc(e).value + [10]);
            if f.ShortWrite? then w.file <= w'.file < whole else w'.file == whole)
      && (w'.broken <==> w.broken || (c.enc(e).Some? && f.ShortWrite?))
  {
  }

  // ---- a failed write, over a run of calls ----

  datatype Call = AppendCall(entry: LogEntry, write: WriteFault) | ResetCall(reset: ResetFault)

  /** The log after a sequence of calls, and what each one returned. */
  function Calls(c: Codec, w: WalState, calls: seq<Call>): (r: (WalState, seq<bool>))
    ensures |r.1| == |calls|
    decreases |calls|
  {
    if calls == [] then (w, [])
    else
      var (w1, ok) := match calls[0] case AppendCall(e, f) => AppendWal(c, w, e, f) case ResetCall(f) => ResetWal(w, f);
      var (w2, oks) := Calls(c, w1, calls[1..]);
      (w2, [ok] + oks)
  }

  /** Behind a failed write every append fails and writes nothing, however many follow, until
      a reset succeeds. */
  lemma {:induction false} BrokenUntilReset(c: Codec, w: WalState, calls: seq<Call>)
    requires w.broken && forall i | 0 <= i < |calls| :: calls[i] != ResetCall(ResetOk)
    ensures var (w', oks) := Calls(c, w, calls);
      && w'.broken && w'.n == w.n && |oks| == |calls| && (forall i | 0 <= i < |calls| :: !oks[i])
      && (w'.file == w.file || w'.file == [])
      && ((forall i | 0 <= i < |calls| :: calls[i].AppendCall?) ==> w'.file == w.file)
    decreases |calls|
  {
    if calls != [] {
      var call := calls[0];
      var w1 := match call case AppendCall(e, f) => AppendWal(c, w, e, f).0 case ResetCall(f) => ResetWal(w, f).0;
      assert w.file + [] == w.file;
      assert forall i | 0 <= i < |calls[1..]| :: calls[1..][i] == calls[i + 1];
      BrokenUntilReset(c, w1, calls[1..]);
    }
  }

  /** The failed write itself, then any such calls, then a reset: the log is empty and takes
      entries again. */
  lemma FailedWriteThenReset(c: Codec, w: WalState, e: LogEntry, k: nat, calls: seq<Call>)
    requires !w.broken && c.enc(e).Some? && forall i | 0 <= i < |calls| :: calls[i] != ResetCall(ResetOk)
    ensures var w1 := AppendWal(c, w, e, ShortWrite(k)).0;
      && w1.broken && forall i | 0 <= i < |calls| :: !Calls(c, w1, calls).1[i]
    ensures var w2 := Calls(c, AppendWal(c, w, e, ShortWrite(k)).0, calls).0;
      && ResetWal(w2, ResetOk) == (WalState([], false, 0), true)
      && AppendWal(c, ResetWal(w2, ResetOk).0, e, NoFault).1
  {
    BrokenUntilReset(c, AppendWal(c, w, e, ShortWrite(k)).0, calls);
  }

  /** Entries a start-up replays: none when the scan fails. */
  function Replay(c: Codec, file: bytes): seq<LogEntry> {
    match Scanned(c, file)
    case Err => []
    case Ok(es) => es
  }

  class Log {
    const codec: Codec
    var file: bytes
    var broken: bool
    var n: nat

    ghost function State(): WalState reads this { WalState(file, broken, n) }

    /** OpenWAL on the bytes a previous process left. */
    constructor (c: Codec, onDisk: bytes)
      ensures codec == c && State() == WalState(onDisk, false, 0)
    {
      codec, file, broken, n := c, onDisk, false, 0;
    }

    method Append(e: LogEntry, f: WriteFault) returns (ok: bool)
      modifies this
      ensures (State(), ok) == AppendWal(codec, old(State()), e, f)
    {
      assert file + [] == file;
      if broken {
        return false;
      }
      var encoded := codec.enc(e);
      if encoded.None? {
        return false;
      }
      var line := encoded.value + [NL];
      if f.ShortWrite? {
        file, broken := file + line[..ShortLength(f.k, |line|)], true;
        return false;
      }
      file := file + line;
      if f.SyncFailed? {
        return false;
      }
      n := n + 1;
      return true;
    }

    method Reset(f: ResetFault) returns (ok: bool)
      modifies this
      ensures (State(), ok) == ResetWal(old(State()), f)
    {
      if f.TruncateFailed? {
        return false;
      }
      file := [];
      if f.SeekFailed? {
        return false;
      }
      broken, n := false, 0;
      return true;
    }

    method Recover(f: SeekFault) returns (r: Result<seq<LogEntry>>)
      modifies this`n
      ensures r == if f.SeekOk? then Scanned(codec, file) else Err
      ensures n == if r.Ok? then |r.value| else old(n)
    {
      if f.StartFailed? {
        return Err;
      }
      r := Scan(codec, file);
      if r.Err? {
        return;
      }
      if f.EndFailed? {
        return Err;
      }
      n := |r.value|;
    }
  }

  // ---- what was written, and what is read back ----

  /** A line that reached the file whole: its entry, the unfinished bytes it was
      written behind, and whether Append reported success. */
  datatype Record = Record(entry: LogEntry, behind: bytes, acked: bool)

  ghost predicate Written(c: Codec, log: seq<Record>) {
    forall r | r in log :: c.enc(r.entry).Some?
  }

  function RecordLine(c: Codec, r: Record): bytes
    requires c.enc(r.entry).Some?
  {
    r.behind + c.enc(r.entry).value
  }

  function LogLines(c: Codec, log: seq<Record>): seq<bytes>
    requires Written(c, log)
  {
    seq(|log|, i requires 0 <= i < |log| => assert log[i] in log; RecordLine(c, log[i]))
  }

  /** What the line of a record is read back as: its entry when it began a line
      of its own, else whatever the glued line happens to decode to. */
  function Outcome(c: Codec, r: Record): seq<LogEntry>
    requires c.enc(r.entry).Some?
  {
    if r.behind == [] then [r.entry] else Opt(c.dec(RecordLine(c, r)))
  }

  function Outcomes(c: Codec, log: seq<Record>): seq<LogEntry>
    requires Written(c, log)
  {
    if log == [] then []
    else
      assert log[0] in log;
      Outcome(c, log[0]) + Outcomes(c, log[1..])
  }

  /** The file holds exactly the recorded lines, plus an unfinished tail. */
  ghost predicate Holds(c: Codec, file: bytes, log: seq<Record>) {
    Written(c, log) && Heads(file) == LogLines(c, log)
  }

  /** The log after an Append. */
  function Logged(c: Codec, w: WalState, log: seq<Record>, e: LogEntry, f: WriteFault): seq<Record> {
    var (written, _, ok) := AppendBytes(c, w, e, f);
    if written != [] && written[|written| - 1] == NL then log + [Record(e, Tail(w.file), ok)] else log
  }

  lemma EmptyHolds(c: Codec)
    ensures Holds(c, [], []) && Tail([]) == []
  {
    SplitFree<byte>([], NL);
  }

  /** Every Append, whatever goes wrong in it, keeps the file and the record of
      what was written in step; only a short write leaves an unfinished tail. */
  lemma AppendHolds(c: Codec, w: WalState, log: seq<Record>, e: LogEntry, f: WriteFault)
    requires LineCodec(c) && Holds(c, w.file, log)
    ensures var (w', ok) := AppendWal(c, w, e, f);
            var log' := Logged(c, w, log, e, f);
            Holds(c, w'.file, log') &&
            (ok ==> log' == log + [Record(e, Tail(w.file), true)]) &&
            (log' != log ==> Tail(w'.file) == []) &&
            (log' == log && !f.ShortWrite? ==> w'.file == w.file)
  {
    var (written, broken, ok) := AppendBytes(c, w, e, f);
    if written == [] {
      assert w.file + written == w.file;
    } else {
      var x := c.enc(e).value;
      if written == x + [NL] {
        SplitLine(w.file, x);
        assert w.file + written == w.file + x + [NL];
        LogLinesSnoc(c, log, Record(e, Tail(w.file), ok));
      } else {
        assert written <= x;
        SplitAppend(w.file, written);
        assert written[|written| - 1] in x;
      }
    }
  }

  lemma LogLinesSnoc(c: Codec, log: seq<Record>, r: Record)
    requires Written(c, log) && c.enc(r.entry).Some?
    ensures Written(c, log + [r]) && LogLines(c, log + [r]) == LogLines(c, log) + [RecordLine(c, r)]
  {
    assert forall i | 0 <= i < |log| :: (log + [r])[i] == log[i];
  }

  lemma {:induction false} DecodeLog(c: Codec, log: seq<Record>)
    requires LineCodec(c) && Written(c, log)
    ensures DecodeAll(c, LogLines(c, log)) == Outcomes(c, log)
  {
    if log != [] {
      assert log[0] in log;
      var lines := LogLines(c, log);
      assert lines[1..] == LogLines(c, log[1..]);
      DecodeLog(c, log[1..]);
      var x := c.enc(log[0].entry).value;
      assert lines[0] == log[0].behind + x;
      assert lines[0][|lines[0]| - 1] == x[|x| - 1];
      if log[0].behind == [] {
        assert lines[0] == x;
      }
    }
  }

  /** Reading back, exactly: an over-long line loses everything; otherwise each
      recorded line comes back in order as its outcome, then the unfinished tail
      if it happens to decode. */
  lemma ReplayExact(c: Codec, file: bytes, log: seq<Record>)
    requires LineCodec(c) && Holds(c, file, log)
    ensures Replay(c, file)
         == if AnyTooLong(LogLines(c, log)) || TooLong(Tail(file)) then []
            else Outcomes(c, log) + (if Tail(file) == [] then [] else Opt(c.dec(DropCR(Tail(file)))))
  {
    var lines, tail := LogLines(c, log), Tail(file);
    DecodeLog(c, log);
    if tail == [] {
      assert LinesOf(file) == lines;
    } else {
      assert LinesOf(file) == lines + [tail];
      TooLongSnoc(lines, tail);
      DecodeSnoc(c, lines, tail);
    }
  }

  // ---- consequences ----

  ghost predicate Untorn(log: seq<Record>) {
    forall r | r in log :: r.behind == []
  }

  function EntriesOf(log: seq<Record>): seq<LogEntry> {
    seq(|log|, i requires 0 <= i < |log| => log[i].entry)
  }

  /** Entries whose Append reported success. */
  function Acked(log: seq<Record>): seq<LogEntry> {
    if log == [] then []
    else (if log[0].acked then [log[0].entry] else []) + Acked(log[1..])
  }

  lemma {:induction false} UntornOutcomes(c: Codec, log: seq<Record>)
    requires Written(c, log) && Untorn(log)
    ensures Outcomes(c, log) == EntriesOf(log)
  {
    if log != [] {
      assert log[0] in log;
      UntornOutcomes(c, log[1..]);
      assert EntriesOf(log)[1..] == EntriesOf(log[1..]);
    }
  }

  lemma {:induction false} AckedSubsequence(log: seq<Record>)
    ensures Subsequence(Acked(log), EntriesOf(log))
  {
    if log != [] {
      AckedSubsequence(log[1..]);
      var all := EntriesOf(log);
      assert all[1..] == EntriesOf(log[1..]);
      if log[0].acked {
        assert Acked(log)[1..] == Acked(log[1..]);
      } else {
        assert Acked(log) == Acked(log[1..]);
      }
    }
  }

  lemma {:induction false} AckedSnoc(log: seq<Record>, r: Record)
    ensures Acked(log + [r]) == Acked(log) + (if r.acked then [r.entry] else [])
  {
    if log == [] {
      assert log + [r] == [r];
    } else {
      assert (log + [r])[1..] == log[1..] + [r] && (log + [r])[0] == log[0];
      AckedSnoc(log[1..], r);
    }
  }

  /** Without torn writes and over-long lines, every acknowledged entry comes
      back, in the order it was acknowledged. */
  lemma ReplayUntorn(c: Codec, file: bytes, log: seq<Record>)
    requires LineCodec(c) && Holds(c, file, log) && Untorn(log) && Tail(file) == []
    requires !AnyTooLong(LogLines(c, log))
    ensures Replay(c, file) == EntriesOf(log)
    ensures Subsequence(Acked(log), Replay(c, file))
  {
    ReplayExact(c, file, log);
    UntornOutcomes(c, log);
    AckedSubsequence(log);
  }

  /** JSON is not decodable behind the remains of another line. */
  ghost predicate GlueRejected(c: Codec, log: seq<Record>)
    requires Written(c, log)
  {
    forall r | r in log && r.behind != [] :: c.dec(RecordLine(c, r)) == None
  }

  /** Records that began a line of their own. */
  function Intact(log: seq<Record>): seq<Record> {
    if log == [] then []
    else (if log[0].behind == [] then [log[0]] else []) + Intact(log[1..])
  }

  /** With torn writes, the entries lost are exactly those written straight
      behind an unfinished line, acknowledged or not. */
  lemma {:induction false} TornOutcomes(c: Codec, log: seq<Record>)
    requires Written(c, log) && GlueRejected(c, log)
    ensures Outcomes(c, log) == EntriesOf(Intact(log))
  {
    if log != [] {
      assert log[0] in log;
      TornOutcomes(c, log[1..]);
      var rest := Intact(log[1..]);
      assert EntriesOf([log[0]] + rest) == [log[0].entry] + EntriesOf(rest);
    }
  }

  // ---- arbitrary damage, then good appends ----

  /** Whatever bytes a file holds, appending entries to it keeps the finished
      lines, glues the first entry onto the unfinished tail, and adds the others
      as they are. */
  lemma AppendAfterDamage(c: Codec, file: bytes, es: seq<LogEntry>)
    requires LineCodec(c) && Encodable(c, es) && es != []
    ensures es[0] in es
    ensures LinesOf(file + Encoded(c, es))
         == Heads(file) + ([Tail(file) + c.enc(es[0]).value] + EncodedLines(c, es[1..]))
  {
    assert es[0] in es;
    var x, rest := c.enc(es[0]).value, Encoded(c, es[1..]);
    EncodedHeads(c, es[1..]);
    Assoc(file, x + [NL], rest);
    Assoc(file, x, [NL]);
    SplitAppend(file, x);
    DamageLines(file + x, rest);
  }

  lemma DamageLines(front: bytes, rest: bytes)
    requires Tail(rest) == []
    ensures LinesOf(front + [NL] + rest) == Heads(front) + ([Tail(front)] + Heads(rest))
  {
    SplitConcat(front, NL, rest);
    var a, b := Split(front, NL), Split(rest, NL);
    InitConcat(a, b);
    assert Heads(front + [NL] + rest) == a + Heads(rest);
    LastFirst(a, Heads(rest));
  }

  lemma LastFirst<T>(a: seq<T>, b: seq<T>)
    requires a != []
    ensures a + b == a[..|a| - 1] + ([a[|a| - 1]] + b)
  {
  }

  /** Recovery after damage: every entry but the first appended one comes back
      in order behind what was readable before; the first comes back exactly as
      the glued line decodes. */
  lemma RecoverAfterDamage(c: Codec, file: bytes, es: seq<LogEntry>)
    requires LineCodec(c) && Encodable(c, es) && es != []
    requires !AnyTooLong(LinesOf(file + Encoded(c, es)))
    ensures es[0] in es
    ensures Scanned(c, file + Encoded(c, es))
         == Ok(DecodeAll(c, Heads(file)) + (Opt(c.dec(Tail(file) + c.enc(es[0]).value)) + es[1..]))
  {
    AppendAfterDamage(c, file, es);
    var x := c.enc(es[0]).value;
    var glued := Tail(file) + x;
    assert DropCR(glued) == glued by { assert glued[|glued| - 1] == x[|x| - 1]; }
    DecodeConcat(c, Heads(file), [glued] + EncodedLines(c, es[1..]));
    DecodeConcat(c, [glued], EncodedLines(c, es[1..]));
    DecodeOne(c, glued);
    DecodeEncoded(c, es[1..]);
  }
}
