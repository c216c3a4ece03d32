/** Sequence facts shared by the byte-level and string-level models:
    splitting on a separator (strings.Split, bufio.ScanLines, path components),
    joining, flattening, filtering and duplicate-freedom. */
module Seqs {

  datatype Option<+T> = None | Some(value: T)

  datatype Result<+T> = Ok(value: T) | Err

  /** The contents of an optional value as a sequence of zero or one elements. */
  function Opt<T>(o: Option<T>): seq<T> {
    match o
    case None => []
    case Some(x) => [x]
  }

  /** Index of the first occurrence of c, or |s| when there is none. */
  function IndexOf<T(==)>(s: seq<T>, c: T): (i: nat)
    ensures i <= |s|
    ensures c !in s[..i]
    ensures i < |s| ==> s[i] == c
    ensures i < |s| <==> c in s
  {
    if s == [] then 0
    else if s[0] == c then 0
    else
      assert s == [s[0]] + s[1..];
      1 + IndexOf(s[1..], c)
  }

  lemma {:induction false} IndexOfConcat<T>(a: seq<T>, c: T, b: seq<T>)
    requires c !in a
    ensures IndexOf(a + [c] + b, c) == |a|
  {
    var s := a + [c] + b;
    assert s[|a|] == c;
    assert forall j | 0 <= j < |a| :: s[j] == a[j];
  }

  /** strings.Split with a one-element separator: always at least one part. */
  function Split<T(==)>(s: seq<T>, c: T): (parts: seq<seq<T>>)
    ensures |parts| >= 1
    decreases |s|
  {
    var i := IndexOf(s, c);
    if i == |s| then [s] else [s[..i]] + Split(s[i + 1..], c)
  }

  /** Inverse of Split. */
  function Join<T>(parts: seq<seq<T>>, c: T): seq<T>
  {
    if parts == [] then []
    else if |parts| == 1 then parts[0]
    else parts[0] + [c] + Join(parts[1..], c)
  }

  lemma {:induction false} SplitFree<T>(a: seq<T>, c: T)
    requires c !in a
    ensures Split(a, c) == [a]
  {
  }

  lemma {:induction false} SplitCons<T>(a: seq<T>, c: T, b: seq<T>)
    requires c !in a
    ensures Split(a + [c] + b, c) == [a] + Split(b, c)
  {
    var s := a + [c] + b;
    IndexOfConcat(a, c, b);
    assert s[..|a|] == a;
    assert s[|a| + 1..] == b;
  }

  /** Splitting after an arbitrary (separator-terminated) front part. */
  lemma {:induction false} SplitConcat<T>(a: seq<T>, c: T, b: seq<T>)
    ensures Split(a + [c] + b, c) == Split(a, c) + Split(b, c)
    decreases |a|
  {
    var i := IndexOf(a, c);
    if i == |a| {
      SplitCons(a, c, b);
    } else {
      var front, rest := a[..i], a[i + 1..];
      CutOpen(a, i, [c] + b);
      assert a + [c] + b == a + ([c] + b);
      assert front + [c] + (rest + ([c] + b)) == front + [c] + (rest + [c] + b);
      SplitCons(front, c, rest + [c] + b);
      SplitConcat(rest, c, b);
      ConsConcat(front, Split(rest, c), Split(b, c));
    }
  }

  lemma CutOpen<T>(a: seq<T>, i: nat, b: seq<T>)
    requires i < |a|
    ensures a == a[..i] + [a[i]] + a[i + 1..]
    ensures a + b == a[..i] + [a[i]] + (a[i + 1..] + b)
  {
  }

  lemma Assoc<T>(a: seq<T>, b: seq<T>, c: seq<T>)
    ensures a + (b + c) == a + b + c
  {
  }

  /** The first element of b moves to the end of a. */
  lemma MoveOne<T>(a: seq<T>, b: seq<T>)
    requires b != []
    ensures a + b == a + [b[0]] + b[1..]
  {
  }

  lemma ConsConcat<T>(x: T, p: seq<T>, q: seq<T>)
    ensures [x] + (p + q) == ([x] + p) + q
  {
  }

  lemma ConsRest<T>(s: seq<T>)
    requires s != []
    ensures [s[0]] + s[1..] == s
  {
  }

  lemma JoinCons<T>(p: seq<T>, parts: seq<seq<T>>, c: T)
    requires parts != []
    ensures Join([p] + parts, c) == p + [c] + Join(parts, c)
  {
    assert ([p] + parts)[1..] == parts;
  }

  /** parts with x appended to the last part. */
  function ExtendLast<T>(parts: seq<seq<T>>, x: seq<T>): seq<seq<T>>
    requires parts != []
  {
    parts[..|parts| - 1] + [parts[|parts| - 1] + x]
  }

  lemma ExtendLastCons<T>(p: seq<T>, parts: seq<seq<T>>, x: seq<T>)
    requires parts != []
    ensures ExtendLast([p] + parts, x) == [p] + ExtendLast(parts, x)
  {
    assert ([p] + parts)[..|parts|] == [p] + parts[..|parts| - 1];
  }

  /** Appending separator-free text extends the last part. */
  lemma {:induction false} SplitExtend<T>(a: seq<T>, c: T, x: seq<T>)
    requires c !in x
    ensures Split(a + x, c) == ExtendLast(Split(a, c), x)
    decreases |a|
  {
    var i := IndexOf(a, c);
    if i == |a| {
      SplitFree(a + x, c);
    } else {
      var rest := a[i + 1..];
      assert a + x == a[..i] + [c] + (rest + x);
      SplitCons(a[..i], c, rest + x);
      SplitExtend(rest, c, x);
      ExtendLastCons(a[..i], Split(rest, c), x);
    }
  }

  lemma {:induction false} SplitPartsFree<T>(s: seq<T>, c: T)
    ensures forall p | p in Split(s, c) :: c !in p
    decreases |s|
  {
    var i := IndexOf(s, c);
    if i != |s| {
      SplitPartsFree(s[i + 1..], c);
    }
  }

  lemma {:induction false} JoinSplit<T>(s: seq<T>, c: T)
    ensures Join(Split(s, c), c) == s
    decreases |s|
  {
    var i := IndexOf(s, c);
    if i != |s| {
      JoinSplit(s[i + 1..], c);
      JoinCons(s[..i], Split(s[i + 1..], c), c);
      CutOpen(s, i, []);
    }
  }

  lemma {:induction false} SplitJoin<T>(parts: seq<seq<T>>, c: T)
    requires parts != []
    requires forall p | p in parts :: c !in p
    ensures Split(Join(parts, c), c) == parts
  {
    if |parts| == 1 {
      SplitFree(parts[0], c);
    } else {
      SplitJoin(parts[1..], c);
      SplitCons(parts[0], c, Join(parts[1..], c));
      ConsRest(parts);
    }
  }

  /** A joined path followed by the separator is a prefix of s exactly when its
      components are the leading components of s and at least one more follows. */
  lemma {:induction false} JoinPrefix<T>(parts: seq<seq<T>>, c: T, s: seq<T>)
    requires parts != []
    requires forall p | p in parts :: c !in p
    ensures Join(parts, c) + [c] <= s <==> parts < Split(s, c)
    decreases |parts|
  {
    var joined := Join(parts, c) + [c];
    var i := IndexOf(s, c);
    if joined <= s {
      var rest := s[|joined|..];
      assert s == Join(parts, c) + [c] + rest;
      SplitConcat(Join(parts, c), c, rest);
      SplitJoin(parts, c);
    }
    if parts < Split(s, c) {
      var more := Split(s, c)[|parts|..];
      assert Split(s, c) == parts + more;
      JoinSplit(s, c);
      JoinConcat(parts, more, c);
    }
  }

  lemma PrefixCancel<T>(a: seq<T>, x: seq<T>, y: seq<T>)
    ensures a + x <= a + y <==> x <= y
  {
    if a + x <= a + y {
      assert (a + x)[|a|..] == x && (a + y)[|a|..] == y;
      assert (a + y)[..|a + x|] == a + x;
      assert y[..|x|] == x;
    }
    if x <= y {
      assert (a + y)[..|a + x|] == a + x;
    }
  }

  lemma {:induction false} JoinConcat<T>(a: seq<seq<T>>, b: seq<seq<T>>, c: T)
    requires a != [] && b != []
    ensures Join(a + b, c) == Join(a, c) + [c] + Join(b, c)
  {
    if |a| == 1 {
      assert (a + b)[1..] == b;
    } else {
      assert (a + b)[1..] == a[1..] + b;
      JoinConcat(a[1..], b, c);
    }
  }

  lemma InitConcat<T>(a: seq<T>, b: seq<T>)
    requires b != []
    ensures (a + b)[..|a + b| - 1] == a + b[..|b| - 1] && (a + b)[|a + b| - 1] == b[|b| - 1]
  {
  }

  lemma InitLast<T>(a: seq<T>)
    requires a != []
    ensures a == a[..|a| - 1] + [a[|a| - 1]]
  {
  }

  /** Concatenation of a sequence of sequences. */
  function Flatten<T>(ss: seq<seq<T>>): seq<T>
  {
    if ss == [] then [] else ss[0] + Flatten(ss[1..])
  }

  lemma {:induction false} FlattenConcat<T>(a: seq<seq<T>>, b: seq<seq<T>>)
    ensures Flatten(a + b) == Flatten(a) + Flatten(b)
  {
    if a == [] {
      assert a + b == b;
    } else {
      assert (a + b)[1..] == a[1..] + b;
      FlattenConcat(a[1..], b);
    }
  }

  lemma FlattenSnoc<T>(a: seq<seq<T>>, x: seq<T>)
    ensures Flatten(a + [x]) == Flatten(a) + x
  {
    FlattenConcat(a, [x]);
    assert Flatten([x]) == x;
  }

  function Total(ns: seq<nat>): nat {
    if ns == [] then 0 else ns[0] + Total(ns[1..])
  }

  /** A total is that of one number, and adds up over any split. */
  lemma {:induction false} TotalConcat(a: seq<nat>, b: seq<nat>)
    ensures Total(a + b) == Total(a) + Total(b)
    ensures |a| == 1 ==> Total(a) == a[0]
  {
    if a == [] {
      assert a + b == b;
    } else {
      assert (a + b)[0] == a[0] && (a + b)[1..] == a[1..] + b;
      TotalConcat(a[1..], b);
    }
  }

  /** How many of the first n positions have p. */
  function CountTrue(p: nat -> bool, n: nat): nat {
    if n == 0 then 0 else CountTrue(p, n - 1) + if p(n - 1) then 1 else 0
  }

  lemma {:induction false} CountTrueSet(p: nat -> bool, n: nat, s: set<nat>)
    requires forall k: nat :: k in s <==> k < n && p(k)
    ensures CountTrue(p, n) == |s|
  {
    if n == 0 {
      assert s == {};
    } else {
      var before := set k | k in s && k < n - 1;
      CountTrueSet(p, n - 1, before);
      OneMore(p, n - 1, before, s);
    }
  }

  /** Counting one more position. */
  lemma OneMore(p: nat -> bool, n: nat, before: set<nat>, now: set<nat>)
    requires forall k: nat :: k in before <==> k < n && p(k)
    requires forall k: nat :: k in now <==> k < n + 1 && p(k)
    ensures |now| == |before| + if p(n) then 1 else 0
  {
    assert now == if p(n) then before + {n} else before;
  }

  ghost predicate NoDup<T>(s: seq<T>) {
    forall i, j | 0 <= i < j < |s| :: s[i] != s[j]
  }

  /** a occurs in b in order, possibly with other elements between. */
  ghost predicate Subsequence<T>(a: seq<T>, b: seq<T>)
  {
    if a == [] then true
    else if b == [] then false
    else (a[0] == b[0] && Subsequence(a[1..], b[1..])) || Subsequence(a, b[1..])
  }

  lemma {:induction false} SubsequenceKeep<T>(a: seq<T>, b: seq<T>, x: T)
    requires Subsequence(a, b)
    ensures Subsequence(a + [x], b + [x])
    decreases |b|
  {
    if b == [] {
      assert a == [];
    } else {
      assert (b + [x])[1..] == b[1..] + [x];
      if a == [] {
        SubsequenceKeep(a, b[1..], x);
      } else if a[0] == b[0] && Subsequence(a[1..], b[1..]) {
        SubsequenceKeep(a[1..], b[1..], x);
        assert (a + [x])[1..] == a[1..] + [x];
      } else {
        SubsequenceKeep(a, b[1..], x);
      }
    }
  }

  lemma {:induction false} SubsequenceSkip<T>(a: seq<T>, b: seq<T>, x: T)
    requires Subsequence(a, b)
    ensures Subsequence(a, b + [x])
    decreases |b|
  {
    if a != [] {
      assert (b + [x])[1..] == b[1..] + [x];
      if a[0] == b[0] && Subsequence(a[1..], b[1..]) {
        SubsequenceSkip(a[1..], b[1..], x);
      } else {
        SubsequenceSkip(a, b[1..], x);
      }
    }
  }

  lemma {:induction false} SubsequenceElements<T>(a: seq<T>, b: seq<T>)
    requires Subsequence(a, b)
    ensures forall x | x in a :: x in b
    decreases |b|
  {
    if a != [] {
      if a[0] == b[0] && Subsequence(a[1..], b[1..]) {
        SubsequenceElements(a[1..], b[1..]);
        ConsRest(a);
      } else {
        SubsequenceElements(a, b[1..]);
      }
    }
  }

  /** A subsequence of the same length is the whole sequence. */
  lemma {:induction false} SubsequenceWhole<T>(a: seq<T>, b: seq<T>)
    requires Subsequence(a, b)
    ensures |a| <= |b| && (|a| == |b| ==> a == b)
    decreases |b|
  {
    if a != [] {
      if a[0] == b[0] && Subsequence(a[1..], b[1..]) {
        SubsequenceWhole(a[1..], b[1..]);
        assert a == [a[0]] + a[1..] && b == [b[0]] + b[1..];
      } else {
        SubsequenceWhole(a, b[1..]);
      }
    }
  }
}
