/** internal/query/parser.go: the label selector parser, paired with a printer. */
module Parser {
  import opened Seqs
  import opened Domain
  import opened LabelSets

  predicate IsSpace(c: char) { c == ' ' || 9 <= c as int <= 13 }

  predicate IsQuote(c: char) { c == '"' || c == '\'' }

  function TrimLeft(s: string, cut: char -> bool): string {
    if s != "" && cut(s[0]) then TrimLeft(s[1..], cut) else s
  }

  function TrimRight(s: string, cut: char -> bool): string {
    if s != "" && cut(s[|s| - 1]) then TrimRight(s[..|s| - 1], cut) else s
  }

  function Trim(s: string, cut: char -> bool): string { TrimRight(TrimLeft(s, cut), cut) }

  function TrimSpace(s: string): string { Trim(s, IsSpace) }

  function TrimPrefix(s: string, c: char): string { if s != "" && s[0] == c then s[1..] else s }

  function TrimSuffix(s: string, c: char): string { if s != "" && s[|s| - 1] == c then s[..|s| - 1] else s }

  /** Effect of one comma-separated part on the labels read so far. */
  function ParsePair(part: string, labels: Labels): Result<Labels> {
    ReadPair(TrimSpace(part), labels)
  }

  function ReadPair(pair: string, labels: Labels): Result<Labels> {
    if pair == "" then Ok(labels)
    else
      var i := IndexOf(pair, '=');
      if i == |pair| then Err else ReadSides(pair[..i], pair[i + 1..], labels)
  }

  function ReadSides(left: string, right: string, labels: Labels): Result<Labels> {
    var key := TrimSpace(left);
    if key == "" then Err else Ok(labels[key := Trim(TrimSpace(right), IsQuote)])
  }

  function ParsePairs(parts: seq<string>, labels: Labels): Result<Labels>
    decreases |parts|
  {
    if parts == [] then Ok(labels)
    else match ParsePair(parts[0], labels)
      case Err => Err
      case Ok(next) => ParsePairs(parts[1..], next)
  }

  /** The text between the braces. */
  function Inside(s: string): string { TrimSuffix(TrimPrefix(s, '{'), '}') }

  function Parse(text: string): Result<Labels> {
    var s := TrimSpace(text);
    if s == "" || s == "{}" then Ok(map[]) else ParsePairs(Split(Inside(s), ','), map[])
  }

  method ParseLabelSelector(text: string) returns (r: Result<Labels>)
    ensures r == Parse(text)
  {
    var s := TrimSpace(text);
    if s == "" || s == "{}" {
      return Ok(map[]);
    }
    var pairs := Split(Inside(s), ',');
    var labels: Labels := map[];
    for i := 0 to |pairs|
      invariant ParsePairs(pairs[i..], labels) == Parse(text)
    {
      assert pairs[i..][1..] == pairs[i + 1..];
      var pair := TrimSpace(pairs[i]);
      if pair == "" {
        continue;
      }
      var eq := IndexOf(pair, '=');
      if eq == |pair| {
        return Err;
      }
      var key := TrimSpace(pair[..eq]);
      var value := Trim(TrimSpace(pair[eq + 1..]), IsQuote);
      if key == "" {
        return Err;
      }
      labels := labels[key := value];
    }
    return Ok(labels);
  }

  // ---- trimming ----

  /** Nothing to cut at either end. */
  predicate Tight(s: string, cut: char -> bool) { s == "" || (!cut(s[0]) && !cut(s[|s| - 1])) }

  lemma {:induction false} TrimLeftFacts(s: string, cut: char -> bool)
    ensures var r := TrimLeft(s, cut);
            (r == "" || !cut(r[0])) && |r| <= |s| && s[|s| - |r|..] == r
  {
    if s != "" && cut(s[0]) {
      TrimLeftFacts(s[1..], cut);
      var r := TrimLeft(s, cut);
      assert s[1..][|s| - 1 - |r|..] == s[|s| - |r|..];
    }
  }

  lemma {:induction false} TrimRightFacts(s: string, cut: char -> bool)
    ensures TrimRight(s, cut) <= s && (TrimRight(s, cut) == "" || !cut(TrimRight(s, cut)[|TrimRight(s, cut)| - 1]))
  {
    if s != "" && cut(s[|s| - 1]) {
      TrimRightFacts(s[..|s| - 1], cut);
    }
  }

  lemma TrimFacts(s: string, cut: char -> bool)
    ensures Tight(Trim(s, cut), cut)
    ensures forall c | c !in s :: c !in Trim(s, cut)
  {
    TrimLeftFacts(s, cut);
    TrimRightFacts(TrimLeft(s, cut), cut);
    var l, r := TrimLeft(s, cut), Trim(s, cut);
    assert forall c | c in r :: c in l;
    assert forall c | c in l :: c in s;
    if r != "" {
      assert r[0] == l[0];
    }
  }

  lemma TrimTight(s: string, cut: char -> bool)
    requires Tight(s, cut)
    ensures Trim(s, cut) == s
  {
  }

  /** Trimming text that is tight but for one cut character at each end. */
  lemma TrimBoth(a: char, s: string, b: char, cut: char -> bool)
    requires cut(a) && cut(b) && Tight(s, cut)
    ensures Trim([a] + s + [b], cut) == s
  {
    var t := [a] + s + [b];
    assert t[1..] == s + [b];
    if s == "" {
      assert t[1..] == [b];
      assert [b][1..] == "";
      assert TrimLeft([b], cut) == "";
    } else {
      var u := s + [b];
      assert u[0] == s[0];
      assert TrimLeft(t, cut) == TrimLeft(u, cut) == u;
      assert u[|u| - 1] == b && u[..|u| - 1] == s;
      assert TrimRight(u, cut) == TrimRight(s, cut) == s;
    }
  }

  // ---- what the parser can return ----

  predicate ReadableKey(k: string) { k != "" && Tight(k, IsSpace) && ',' !in k && '=' !in k }

  predicate ReadableValue(v: string) { ',' !in v && Tight(v, IsQuote) }

  predicate Readable(m: Labels) {
    forall k | k in m :: ReadableKey(k) && ReadableValue(m[k])
  }

  lemma PairReadable(part: string, labels: Labels)
    requires ',' !in part && Readable(labels) && ParsePair(part, labels).Ok?
    ensures Readable(ParsePair(part, labels).value)
  {
    var pair := TrimSpace(part);
    TrimFacts(part, IsSpace);
    var i := IndexOf(pair, '=');
    if pair != "" && i < |pair| {
      assert ',' !in pair[..i] && '=' !in pair[..i] && ',' !in pair[i + 1..];
      TrimFacts(pair[..i], IsSpace);
      TrimFacts(pair[i + 1..], IsSpace);
      TrimFacts(TrimSpace(pair[i + 1..]), IsQuote);
    }
  }

  lemma {:induction false} PairsReadable(parts: seq<string>, labels: Labels)
    requires (forall p | p in parts :: ',' !in p) && Readable(labels) && ParsePairs(parts, labels).Ok?
    ensures Readable(ParsePairs(parts, labels).value)
    decreases |parts|
  {
    if parts != [] {
      assert parts[0] in parts;
      PairReadable(parts[0], labels);
      PairsReadable(parts[1..], ParsePair(parts[0], labels).value);
    }
  }

  /** Every selector that parses gives non-empty trimmed keys without ',' and '=', and
      values without ',' that neither begin nor end with a quote. */
  lemma ParseReadable(text: string)
    requires Parse(text).Ok?
    ensures Readable(Parse(text).value)
  {
    var s := TrimSpace(text);
    if s != "" && s != "{}" {
      SplitPartsFree(Inside(s), ',');
      PairsReadable(Split(Inside(s), ','), map[]);
    }
  }

  // ---- printing ----

  function PrintPair(k: string, v: string): string { k + "=\"" + v + "\"" }

  /** `k="v", k="v"` in the given order. */
  function PrintPairs(m: Labels, order: seq<string>): string
    requires forall k | k in order :: k in m
  {
    if order == [] then ""
    else
      assert order[0] in order;
      var first := PrintPair(order[0], m[order[0]]);
      if |order| == 1 then first else first + ", " + PrintPairs(m, order[1..])
  }

  function Print(m: Labels, order: seq<string>): string
    requires forall k | k in order :: k in m
  {
    "{" + PrintPairs(m, order) + "}"
  }

  lemma DropSpace(space: string, pair: string)
    requires (space == "" || space == " ") && Tight(pair, IsSpace) && pair != ""
    ensures TrimSpace(space + pair) == pair
  {
    if space == " " {
      var t := space + pair;
      assert t[0] == ' ' && t[1..] == pair;
      assert TrimLeft(t, IsSpace) == TrimLeft(pair, IsSpace) == pair;
    } else {
      assert space + pair == pair;
    }
  }

  lemma Unquote(v: string)
    requires Tight(v, IsQuote)
    ensures Trim(TrimSpace("\"" + v + "\""), IsQuote) == v
  {
    var quoted := "\"" + v + "\"";
    assert quoted[0] == '"' && quoted[|quoted| - 1] == '"';
    TrimTight(quoted, IsSpace);
    assert quoted == ['"'] + v + ['"'];
    TrimBoth('"', v, '"', IsQuote);
  }

  lemma PairForm(k: string, v: string)
    requires ReadableKey(k)
    ensures var pair, quoted := PrintPair(k, v), "\"" + v + "\"";
            Tight(pair, IsSpace) && IndexOf(pair, '=') == |k| < |pair| && pair[..|k|] == k && pair[|k| + 1..] == quoted
  {
    var pair, quoted := PrintPair(k, v), "\"" + v + "\"";
    assert pair[|pair| - 1] == '"' && pair[0] == k[0];
    assert pair == k + ['='] + quoted;
    IndexOfConcat(k, '=', quoted);
  }

  /** A printed pair, with or without the space before it, reads back as itself. */
  lemma PairRoundTrip(space: string, k: string, v: string, labels: Labels)
    requires (space == "" || space == " ") && ReadableKey(k) && ReadableValue(v)
    ensures ParsePair(space + PrintPair(k, v), labels) == Ok(labels[k := v])
  {
    PairForm(k, v);
    PrintedReads(PrintPair(k, v), k, "\"" + v + "\"", labels);
    SidesRoundTrip(k, v, labels);
    DropSpace(space, PrintPair(k, v));
  }

  lemma PrintedReads(pair: string, left: string, right: string, labels: Labels)
    requires IndexOf(pair, '=') == |left| < |pair| && pair[..|left|] == left && pair[|left| + 1..] == right
    ensures ReadPair(pair, labels) == ReadSides(left, right, labels)
  {
    ReadPairAt(pair, |left|, labels);
  }

  lemma ReadPairAt(pair: string, i: nat, labels: Labels)
    requires i == IndexOf(pair, '=') && i < |pair|
    ensures ReadPair(pair, labels) == ReadSides(pair[..i], pair[i + 1..], labels)
  {
  }

  lemma SidesRoundTrip(k: string, v: string, labels: Labels)
    requires ReadableKey(k) && ReadableValue(v)
    ensures ReadSides(k, "\"" + v + "\"", labels) == Ok(labels[k := v])
  {
    TrimTight(k, IsSpace);
    Unquote(v);
  }

  lemma PairCommaFree(space: string, k: string, v: string)
    requires (space == "" || space == " ") && ReadableKey(k) && ReadableValue(v)
    ensures ',' !in space + PrintPair(k, v)
  {
  }

  /** Labels set in this order on top of those given. */
  function SetAll(m: Labels, order: seq<string>, labels: Labels): Labels
    requires forall k | k in order :: k in m
    decreases |order|
  {
    if order == [] then labels
    else
      assert order[0] in order;
      SetAll(m, order[1..], labels[order[0] := m[order[0]]])
  }

  lemma {:induction false} PairsRoundTrip(space: string, m: Labels, order: seq<string>, labels: Labels)
    requires (space == "" || space == " ") && Readable(m) && order != [] && forall k | k in order :: k in m
    ensures ParsePairs(Split(space + PrintPairs(m, order), ','), labels) == Ok(SetAll(m, order, labels))
    decreases |order|
  {
    var k := order[0];
    assert k in order;
    var first := space + PrintPair(k, m[k]);
    var next := labels[k := m[k]];
    PairRoundTrip(space, k, m[k], labels);
    PairCommaFree(space, k, m[k]);
    if |order| == 1 {
      SplitFree(first, ',');
      ParseCons(first, [], labels, next);
      assert order[1..] == [];
    } else {
      var rest := " " + PrintPairs(m, order[1..]);
      PrintCons(space, m, order);
      SplitCons(first, ',', rest);
      ParseCons(first, Split(rest, ','), labels, next);
      PairsRoundTrip(" ", m, order[1..], next);
    }
  }

  lemma ParseCons(part: string, parts: seq<string>, labels: Labels, next: Labels)
    requires ParsePair(part, labels) == Ok(next)
    ensures ParsePairs([part] + parts, labels) == ParsePairs(parts, next)
  {
    assert ([part] + parts)[1..] == parts;
  }

  lemma PrintCons(space: string, m: Labels, order: seq<string>)
    requires |order| > 1 && forall k | k in order :: k in m
    ensures order[0] in order &&
            space + PrintPairs(m, order)
                == (space + PrintPair(order[0], m[order[0]])) + [','] + (" " + PrintPairs(m, order[1..]))
  {
    assert order[0] in order;
    var first, rest := PrintPair(order[0], m[order[0]]), PrintPairs(m, order[1..]);
    assert PrintPairs(m, order) == first + ", " + rest;
    CommaSpace(space, first, rest);
  }

  lemma CommaSpace(a: string, b: string, c: string)
    ensures a + (b + ", " + c) == (a + b) + [','] + (" " + c)
  {
    assert ", " == [','] + " ";
  }

  lemma {:induction false} SetAllKeys(m: Labels, order: seq<string>, labels: Labels)
    requires forall k | k in order :: k in m
    ensures forall k :: k in SetAll(m, order, labels) <==> k in order || k in labels
    ensures forall k | k in order :: SetAll(m, order, labels)[k] == m[k]
    ensures forall k | k in labels && k !in order :: SetAll(m, order, labels)[k] == labels[k]
    decreases |order|
  {
    if order != [] {
      assert order[0] in order;
      SetAllKeys(m, order[1..], labels[order[0] := m[order[0]]]);
      assert forall k :: k in order <==> k == order[0] || k in order[1..];
    }
  }

  /** Printing a label map in any order and parsing it gives the map back exactly when
      its keys are non-empty, trimmed and free of ',' and '=', and its values are free of
      ',' and do not begin or end with a quote. */
  lemma PrintParse(m: Labels, order: seq<string>)
    requires IsOrder(m, order)
    ensures Parse(Print(m, order)) == Ok(m) <==> Readable(m)
  {
    if Parse(Print(m, order)) == Ok(m) {
      ParseReadable(Print(m, order));
    }
    if Readable(m) {
      PrintParses(m, order);
    }
  }

  lemma PrintParses(m: Labels, order: seq<string>)
    requires IsOrder(m, order) && Readable(m)
    ensures Parse(Print(m, order)) == Ok(m)
  {
    var body := PrintPairs(m, order);
    Braces(body);
    if order == [] {
      assert Print(m, order) == "{}";
      assert m == map[];
    } else {
      PrintedNotEmpty(m, order);
      PairsRoundTrip("", m, order, map[]);
      assert "" + body == body;
      SetAllIs(m, order);
      assert Print(m, order) == "{" + body + "}";
    }
  }

  lemma SetAllIs(m: Labels, order: seq<string>)
    requires IsOrder(m, order)
    ensures SetAll(m, order, map[]) == m
  {
    SetAllKeys(m, order, map[]);
    var r := SetAll(m, order, map[]);
    assert r.Keys == m.Keys;
  }

  lemma Braces(body: string)
    ensures var text := "{" + body + "}";
            TrimSpace(text) == text && Inside(text) == body && (body != "" ==> text != "{}")
  {
    var text := "{" + body + "}";
    assert text[0] == '{' && text[|text| - 1] == '}';
    TrimTight(text, IsSpace);
    assert text[1..] == body + "}";
  }

  lemma PrintedNotEmpty(m: Labels, order: seq<string>)
    requires order != [] && forall k | k in order :: k in m
    ensures PrintPairs(m, order) != ""
  {
    assert order[0] in order;
  }

  // ---- which selectors are errors, and how forgiving the others are ----

  const WHITE: set<char> := {' ', '\t', '\n', '\r', 11 as char, 12 as char}

  predicate Blank(s: string) { forall c | c in s :: c in WHITE }

  /** Trimming takes a front and a back of cut characters off, and no less than it can. */
  lemma TrimForm(s: string, cut: char -> bool) returns (a: string, b: string)
    ensures s == a + Trim(s, cut) + b && (forall c | c in a + b :: cut(c)) && Tight(Trim(s, cut), cut)
  {
    TrimFacts(s, cut);
    var l := TrimLeft(s, cut);
    a := TrimLeftForm(s, cut);
    b := TrimRightForm(l, cut);
  }

  lemma {:induction false} TrimLeftForm(s: string, cut: char -> bool) returns (a: string)
    ensures s == a + TrimLeft(s, cut) && forall c | c in a :: cut(c)
  {
    a := "";
    if s != "" && cut(s[0]) {
      var rest := TrimLeftForm(s[1..], cut);
      a := [s[0]] + rest;
      assert s == [s[0]] + s[1..];
    }
  }

  lemma {:induction false} TrimRightForm(s: string, cut: char -> bool) returns (b: string)
    ensures s == TrimRight(s, cut) + b && forall c | c in b :: cut(c)
  {
    b := "";
    if s != "" && cut(s[|s| - 1]) {
      var rest := TrimRightForm(s[..|s| - 1], cut);
      b := rest + [s[|s| - 1]];
      InitLast(s);
    }
  }

  lemma BlankExact(s: string)
    ensures Blank(s) <==> forall c | c in s :: IsSpace(c)
    ensures TrimSpace(s) == "" <==> Blank(s)
  {
    var a, b := TrimForm(s, IsSpace);
    var t := TrimSpace(s);
    assert s == a + t + b;
    assert forall c | c in s :: c in a + b || c in t;
    if t != "" { assert t[0] in s; }
  }

  /** A part that is not blank and has no '=', or nothing but white space before the first. */
  predicate BadPart(part: string) {
    !Blank(part) && ('=' !in part || Blank(part[..IndexOf(part, '=')]))
  }

  lemma PartError(part: string, labels: Labels)
    ensures ParsePair(part, labels).Err? <==> BadPart(part)
  {
    var a, b := TrimForm(part, IsSpace);
    var pair := TrimSpace(part);
    BlankExact(part);
    assert '=' !in a + b;
    assert forall c | c in part :: c in a + b || c in pair;
    assert forall c | c in pair :: c in part;
    if pair != "" && '=' in pair {
      var j := IndexOf(pair, '=');
      FirstEquals(a, pair, j, b);
      assert part[..|a| + j] == a + pair[..j];
      BlankExact(pair[..j]);
      BlankExact(a);
      assert Blank(part[..|a| + j]) <==> Blank(pair[..j]);
    }
  }

  lemma FirstEquals(a: string, pair: string, j: nat, b: string)
    requires '=' !in a && j == IndexOf(pair, '=') && j < |pair|
    ensures IndexOf(a + pair + b, '=') == |a| + j
  {
    var front, back := a + pair[..j], pair[j + 1..] + b;
    IndexOfConcat(front, '=', back);
    assert a + pair + b == front + ['='] + back;
  }

  lemma {:induction false} PartsError(parts: seq<string>, labels: Labels)
    ensures ParsePairs(parts, labels).Err? <==> exists i | 0 <= i < |parts| :: BadPart(parts[i])
    decreases |parts|
  {
    if parts != [] {
      PartError(parts[0], labels);
      match ParsePair(parts[0], labels)
      case Err =>
      case Ok(next) =>
        PartsError(parts[1..], next);
        assert forall i | 0 <= i < |parts[1..]| :: parts[1..][i] == parts[i + 1];
        if i :| 0 <= i < |parts| && BadPart(parts[i]) {
          assert parts[1..][i - 1] == parts[i];
        }
    }
  }

  /** A selector is an error exactly when one of the parts between its commas is bad. */
  lemma ErrorExact(text: string)
    ensures var parts := Split(Inside(TrimSpace(text)), ',');
            Parse(text).Err? <==> exists i | 0 <= i < |parts| :: BadPart(parts[i])
  {
    var s := TrimSpace(text);
    if s == "" || s == "{}" {
      assert Inside(s) == "";
      SplitFree("", ',');
    } else {
      PartsError(Split(Inside(s), ','), map[]);
    }
  }

  lemma {:induction false} TrimLeftPad(a: string, s: string, cut: char -> bool)
    requires (forall c | c in a :: cut(c)) && (s == "" || !cut(s[0]))
    ensures TrimLeft(a + s, cut) == s
  {
    if a == "" {
      assert a + s == s;
    } else {
      assert (a + s)[0] == a[0] && (a + s)[1..] == a[1..] + s;
      TrimLeftPad(a[1..], s, cut);
    }
  }

  lemma {:induction false} TrimRightPad(s: string, b: string, cut: char -> bool)
    requires (forall c | c in b :: cut(c)) && (s == "" || !cut(s[|s| - 1]))
    ensures TrimRight(s + b, cut) == s
  {
    if b == "" {
      assert s + b == s;
    } else {
      var n := |b| - 1;
      assert (s + b)[|s + b| - 1] == b[n] && (s + b)[..|s + b| - 1] == s + b[..n];
      TrimRightPad(s, b[..n], cut);
    }
  }

  lemma TrimPad(a: string, s: string, b: string, cut: char -> bool)
    requires (forall c | c in a + b :: cut(c)) && Tight(s, cut)
    ensures Trim(a + s + b, cut) == s
  {
    assert forall c | c in a :: c in a + b;
    assert forall c | c in b :: c in a + b;
    if s == "" {
      assert a + s + b == (a + b) + "";
      TrimLeftPad(a + b, "", cut);
    } else {
      Assoc(a, s, b);
      TrimLeftPad(a, s + b, cut);
      TrimRightPad(s, b, cut);
    }
  }

  predicate Quotes(s: string) { forall c | c in s :: c == '"' || c == '\'' }

  /** White space around keys and values and quotes of either kind around values are dropped,
      as many as there are. */
  lemma OnePair(w1: string, k: string, w2: string, w3: string, q1: string, v: string, q2: string, w4: string)
    requires Blank(w1) && Blank(w2) && Blank(w3) && Blank(w4) && Quotes(q1) && Quotes(q2)
    requires ReadableKey(k) && ReadableValue(v) && (Tight(v, IsSpace) || (q1 != "" && q2 != ""))
    ensures Parse("{" + ((w1 + k + w2) + ['='] + (w3 + (q1 + v + q2) + w4)) + "}") == Ok(map[k := v])
  {
    var left, right := w1 + k + w2, w3 + (q1 + v + q2) + w4;
    Sides(w1, k, w2, w3, q1, v, q2, w4);
    OnePart(left, k, right, v);
    ParseOne(left + ['='] + right, map[k := v]);
  }

  lemma ParseOne(part: string, labels: Labels)
    requires ',' !in part && part != "" && ParsePair(part, map[]) == Ok(labels)
    ensures Parse("{" + part + "}") == Ok(labels)
  {
    Braces(part);
    SplitFree(part, ',');
    ParseCons(part, [], map[], labels);
    assert [part] + [] == [part];
  }

  lemma Sides(w1: string, k: string, w2: string, w3: string, q1: string, v: string, q2: string, w4: string)
    requires Blank(w1) && Blank(w2) && Blank(w3) && Blank(w4) && Quotes(q1) && Quotes(q2)
    requires ReadableKey(k) && ReadableValue(v) && (Tight(v, IsSpace) || (q1 != "" && q2 != ""))
    ensures var left, right := w1 + k + w2, w3 + (q1 + v + q2) + w4;
      && TrimSpace(left) == k && Trim(TrimSpace(right), IsQuote) == v
      && '=' !in left && ',' !in left && ',' !in right && !Blank(left)
  {
    TrimPad(w1, k, w2, IsSpace);
    QuotedTight(q1, v, q2);
    TrimPad(w3, q1 + v + q2, w4, IsSpace);
    TrimPad(q1, v, q2, IsQuote);
    BlankExact(w1 + k + w2);
  }

  lemma QuotedTight(q1: string, v: string, q2: string)
    requires Quotes(q1) && Quotes(q2) && (Tight(v, IsSpace) || (q1 != "" && q2 != ""))
    ensures Tight(q1 + v + q2, IsSpace)
  {
    var t := q1 + v + q2;
    if t != "" {
      assert t[0] == if q1 != "" then q1[0] else if v != "" then v[0] else q2[0];
      assert t[|t| - 1] == if q2 != "" then q2[|q2| - 1] else if v != "" then v[|v| - 1] else q1[|q1| - 1];
      assert q1 != "" ==> q1[0] in q1 && q1[|q1| - 1] in q1;
      assert q2 != "" ==> q2[0] in q2 && q2[|q2| - 1] in q2;
    }
  }

  lemma OnePart(left: string, k: string, right: string, v: string)
    requires k != "" && TrimSpace(left) == k && Trim(TrimSpace(right), IsQuote) == v && '=' !in left
    ensures ParsePair(left + ['='] + right, map[]) == Ok(map[k := v])
  {
    var left', right' := TrimmedPair(left, right);
    var pair := left' + ['='] + right';
    IndexOfConcat(left', '=', right');
    assert pair[..|left'|] == left' && pair[|left'| + 1..] == right';
    PrintedReads(pair, left', right', map[]);
  }

  /** Trimming a pair trims its sides, and leaves what trimming the sides leaves. */
  lemma TrimmedPair(left: string, right: string) returns (left': string, right': string)
    requires TrimSpace(left) != "" && '=' !in left
    ensures TrimSpace(left + ['='] + right) == left' + ['='] + right'
    ensures TrimSpace(left') == TrimSpace(left) && TrimSpace(right') == TrimSpace(right) && '=' !in left'
  {
    var a, a' := TrimForm(left, IsSpace);
    var b, b' := TrimForm(right, IsSpace);
    left', right' := ShiftBlank(a, TrimSpace(left), a', b, TrimSpace(right), b');
  }

  /** A blank right side goes with the white space behind it. */
  lemma ShiftBlank(a: string, k: string, a': string, b: string, r: string, b': string)
    returns (left: string, right: string)
    requires (forall c | c in a + a' :: IsSpace(c)) && (forall c | c in b + b' :: IsSpace(c))
    requires k != "" && Tight(k, IsSpace) && Tight(r, IsSpace) && '=' !in k
    ensures TrimSpace((a + k + a') + ['='] + (b + r + b')) == left + ['='] + right
    ensures TrimSpace(left) == k && TrimSpace(right) == r && '=' !in left
  {
    var front, tail := if r == "" then "" else b, if r == "" then b + b' else b';
    left, right := k + a', front + r;
    assert forall c | c in a :: c in a + a';
    assert forall c | c in a' :: c in a + a';
    assert forall c | c in front :: c in b + b';
    assert forall c | c in tail :: c in b + b';
    TrimOneEnd(k, a', front, r);
    PadPair(a, left, right, tail);
    Regrouped(a, k, a', b, r, b');
  }

  lemma Regrouped(a: string, k: string, a': string, b: string, r: string, b': string)
    ensures var front, tail := if r == "" then "" else b, if r == "" then b + b' else b';
            (a + k + a') + ['='] + (b + r + b') == a + ((k + a') + ['='] + (front + r)) + tail
  {
  }

  lemma TrimOneEnd(k: string, a: string, b: string, r: string)
    requires (forall c | c in a :: IsSpace(c)) && (forall c | c in b :: IsSpace(c)) && Tight(k, IsSpace)
            && Tight(r, IsSpace)
    ensures TrimSpace(k + a) == k && TrimSpace(b + r) == r
  {
    TrimPad("", k, a, IsSpace);
    assert "" + k + a == k + a;
    TrimPad(b, r, "", IsSpace);
    assert b + r + "" == b + r;
  }

  lemma PadPair(a: string, left: string, right: string, tail: string)
    requires (forall c | c in a :: IsSpace(c)) && forall c | c in tail :: IsSpace(c)
    requires left != "" && !IsSpace(left[0]) && (right == "" || !IsSpace(right[|right| - 1]))
    ensures TrimSpace(a + (left + ['='] + right) + tail) == left + ['='] + right
  {
    var pair := left + ['='] + right;
    assert pair[0] == left[0] && pair[|pair| - 1] == if right == "" then '=' else right[|right| - 1];
    TrimPad(a, pair, tail, IsSpace);
  }
}
