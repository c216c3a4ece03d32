/** The record types of internal/domain and internal/index.
    A Go string is a sequence of chars, one char per byte, so |s| is len(s). */
module Domain {

  type Labels = map<string, string>

  datatype LogEntry = LogEntry(timestamp: int, service: string, level: string, message: string, labels: Labels)

  datatype Algo = Gzip | Snappy

  function FileExtension(a: Algo): string {
    match a
    case Gzip => ".gz"
    case Snappy => ".sz"
  }

  /** domain.Chunk; index.ChunkIndex holds the same fields. */
  datatype Chunk = Chunk(
    key: string,
    service: string,
    minTime: int,
    maxTime: int,
    entryCount: nat,
    sizeBytes: nat,
    compression: Algo,
    labelSets: seq<Labels>)

  function LowerChar(c: char): char {
    if 'A' <= c <= 'Z' then c + 32 as char else c
  }

  /** strings.ToLower on ASCII. */
  function ToLower(s: string): (r: string)
    ensures |r| == |s|
    ensures forall i | 0 <= i < |s| :: r[i] == LowerChar(s[i])
  {
    seq(|s|, i requires 0 <= i < |s| => LowerChar(s[i]))
  }

  /** strings.EqualFold on ASCII. */
  predicate EqualFold(a: string, b: string) {
    ToLower(a) == ToLower(b)
  }

  /** The same letter, in either case. */
  predicate SameLetter(c: char, d: char) {
    || c == d
    || ('A' <= c <= 'Z' && d as int == c as int + 32)
    || ('A' <= d <= 'Z' && c as int == d as int + 32)
  }

  /** Letter by letter, up to case. */
  lemma EqualFoldExact(a: string, b: string)
    ensures EqualFold(a, b) <==> |a| == |b| && forall i | 0 <= i < |a| :: SameLetter(a[i], b[i])
  {
    if EqualFold(a, b) {
      forall i | 0 <= i < |a|
        ensures SameLetter(a[i], b[i])
      {
        assert ToLower(a)[i] == ToLower(b)[i];
      }
    }
  }

  /** Go map lookup: a missing key reads as "". */
  function Lookup(m: Labels, k: string): string {
    if k in m then m[k] else ""
  }

  /** Every query label has the queried value in m, a missing key counting as "". */
  predicate HasLabels(m: Labels, query: Labels) {
    forall k | k in query :: Lookup(m, k) == query[k]
  }
}
