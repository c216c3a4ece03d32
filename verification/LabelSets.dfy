/** Label sets of a chunk: collectLabelSets (internal/ingester/buffer.go), MatchLabels
    (internal/index/index.go), and when pruning by them is safe. */
module LabelSets {
  import opened Seqs
  import opened Domain

  // ---- the dedup key ----

  /** One of the orders in which Go may range over the map. */
  ghost predicate IsOrder(m: Labels, order: seq<string>) {
    NoDup(order) && forall k :: k in order <==> k in m
  }

  /** The text collectLabelSets builds when it ranges in this order. */
  function Serial(m: Labels, order: seq<string>): string
    requires forall k | k in order :: k in m
  {
    if order == [] then ""
    else
      assert order[0] in order;
      order[0] + "=" + m[order[0]] + "," + Serial(m, order[1..])
  }

  /** Keys without '=' and values without ','. */
  predicate CleanLabels(m: Labels) {
    forall k | k in m :: '=' !in k && ',' !in m[k]
  }

  lemma CutAt(a: string, c: char, rest: string, b: string, rest': string)
    requires c !in a && c !in b
    requires a + [c] + rest == b + [c] + rest'
    ensures a == b && rest == rest'
  {
    IndexOfConcat(a, c, rest);
    IndexOfConcat(b, c, rest');
    assert (a + [c] + rest)[..|a|] == a && (b + [c] + rest')[..|b|] == b;
    assert (a + [c] + rest)[|a| + 1..] == rest && (b + [c] + rest')[|b| + 1..] == rest';
  }

  /** The text determines the order and the values, for any two ranges. */
  lemma {:induction false} SerialDecodable(m: Labels, o: seq<string>, m': Labels, o': seq<string>)
    requires CleanLabels(m) && CleanLabels(m')
    requires forall k | k in o :: k in m
    requires forall k | k in o' :: k in m'
    requires Serial(m, o) == Serial(m', o')
    ensures o == o' && forall k | k in o :: m[k] == m'[k]
  {
    if o == [] || o' == [] {
      assert o == [] && o' == [];
    } else {
      var k, k' := o[0], o'[0];
      assert k in o && k' in o';
      var rest, rest' := Serial(m, o[1..]), Serial(m', o'[1..]);
      assert Serial(m, o) == k + ['='] + (m[k] + [','] + rest);
      assert Serial(m', o') == k' + ['='] + (m'[k'] + [','] + rest');
      CutAt(k, '=', m[k] + [','] + rest, k', m'[k'] + [','] + rest');
      CutAt(m[k], ',', rest, m'[k'], rest');
      SerialDecodable(m, o[1..], m', o'[1..]);
      assert o == [k] + o[1..] && o' == [k] + o'[1..];
    }
  }

  /** Clean maps with the same text are the same map, whatever the two orders. */
  lemma SerialInjective(m: Labels, o: seq<string>, m': Labels, o': seq<string>)
    requires CleanLabels(m) && CleanLabels(m') && IsOrder(m, o) && IsOrder(m', o')
    requires Serial(m, o) == Serial(m', o')
    ensures m == m'
  {
    SerialDecodable(m, o, m', o');
    assert m.Keys == m'.Keys;
  }

  // ---- collectLabelSets ----

  ghost predicate Ordered(es: seq<LogEntry>, orders: seq<seq<string>>) {
    |orders| == |es| && forall i | 0 <= i < |es| :: IsOrder(es[i].labels, orders[i])
  }

  /** The map `seen` after the first n entries. */
  ghost function Seen(es: seq<LogEntry>, orders: seq<seq<string>>, n: nat): map<string, Labels>
    requires Ordered(es, orders) && n <= |es|
  {
    if n == 0 then map[]
    else
      var before := Seen(es, orders, n - 1);
      var m := es[n - 1].labels;
      assert IsOrder(m, orders[n - 1]);
      if m == map[] || Serial(m, orders[n - 1]) in before then before
      else before[Serial(m, orders[n - 1]) := m]
  }

  /** sets lists the values of seen in some order. */
  ghost predicate Lists(sets: seq<Labels>, seen: map<string, Labels>, keys: seq<string>) {
    && NoDup(keys) && (forall k :: k in keys <==> k in seen)
    && |sets| == |keys| && forall i | 0 <= i < |keys| :: keys[i] in seen && sets[i] == seen[keys[i]]
  }

  ghost predicate CollectedBy(es: seq<LogEntry>, sets: seq<Labels>, orders: seq<seq<string>>, keys: seq<string>) {
    Ordered(es, orders) && Lists(sets, Seen(es, orders, |es|), keys)
  }

  /** sets is a possible result of collectLabelSets(es). */
  ghost predicate Collected(es: seq<LogEntry>, sets: seq<Labels>) {
    exists orders, keys :: CollectedBy(es, sets, orders, keys)
  }

  /** Ranging over a map while building the dedup key. */
  method SerialOf(m: Labels) returns (text: string, ghost order: seq<string>)
    ensures IsOrder(m, order) && text == Serial(m, order)
  {
    text, order := "", [];
    var rest := m.Keys;
    while rest != {}
      invariant rest <= m.Keys && NoDup(order)
      invariant forall k :: k in order <==> k in m && k !in rest
      invariant text == Serial(m, order)
    {
      var k :| k in rest;
      SerialSnoc(m, order, k);
      text := text + (k + "=" + m[k] + ",");
      order := order + [k];
      rest := rest - {k};
    }
  }

  lemma {:induction false} SerialSnoc(m: Labels, o: seq<string>, k: string)
    requires k in m && forall j | j in o :: j in m
    ensures Serial(m, o + [k]) == Serial(m, o) + (k + "=" + m[k] + ",")
  {
    if o == [] {
      assert o + [k] == [k];
      assert Serial(m, [k]) == k + "=" + m[k] + "," + "";
    } else {
      assert o[0] in o;
      assert (o + [k])[1..] == o[1..] + [k];
      SerialSnoc(m, o[1..], k);
    }
  }

  method CollectLabelSets(es: seq<LogEntry>) returns (sets: seq<Labels>)
    ensures Collected(es, sets)
  {
    var seen: map<string, Labels> := map[];
    ghost var orders: seq<seq<string>> := [];
    for i := 0 to |es|
      invariant |orders| == i && Ordered(es[..i], orders)
      invariant seen == Seen(es[..i], orders, i)
    {
      var text, order := SerialOf(es[i].labels);
      SeenExtend(es[..i], orders, es[i], order, i);
      assert es[..i + 1] == es[..i] + [es[i]];
      orders := orders + [order];
      if es[i].labels != map[] && text !in seen {
        seen := seen[text := es[i].labels];
      }
    }
    assert es[..|es|] == es;
    ghost var keys: seq<string>;
    sets, keys := ValuesOf(seen);
    assert CollectedBy(es, sets, orders, keys);
  }

  lemma {:induction false} SeenExtend(es: seq<LogEntry>, orders: seq<seq<string>>, e: LogEntry, order: seq<string>,
                                      n: nat)
    requires Ordered(es, orders) && IsOrder(e.labels, order) && n <= |es|
    ensures Ordered(es + [e], orders + [order])
    ensures Seen(es + [e], orders + [order], n) == Seen(es, orders, n)
  {
    if n > 0 {
      SeenExtend(es, orders, e, order, n - 1);
    }
  }

  method ValuesOf(seen: map<string, Labels>) returns (sets: seq<Labels>, ghost keys: seq<string>)
    ensures Lists(sets, seen, keys)
  {
    sets, keys := [], [];
    var rest := seen.Keys;
    while rest != {}
      invariant rest <= seen.Keys && NoDup(keys) && |sets| == |keys|
      invariant forall k :: k in keys <==> k in seen && k !in rest
      invariant forall i | 0 <= i < |keys| :: keys[i] in seen && sets[i] == seen[keys[i]]
    {
      var k :| k in rest;
      sets, keys := sets + [seen[k]], keys + [k];
      rest := rest - {k};
    }
  }

  // ---- what the sets say about the entries ----

  /** Every seen map is some labelled entry's, and sits under one of its texts. */
  lemma {:induction false} SeenGenuine(es: seq<LogEntry>, orders: seq<seq<string>>, n: nat, text: string)
    requires Ordered(es, orders) && n <= |es| && text in Seen(es, orders, n)
    ensures exists i | 0 <= i < n :: es[i].labels == Seen(es, orders, n)[text] && es[i].labels != map[]
                                     && IsOrder(es[i].labels, orders[i]) && text == Serial(es[i].labels, orders[i])
  {
    var m := es[n - 1].labels;
    assert IsOrder(m, orders[n - 1]);
    if text in Seen(es, orders, n - 1) {
      SeenGenuine(es, orders, n - 1, text);
    } else {
      assert es[n - 1].labels == Seen(es, orders, n)[text];
    }
  }

  /** Every labelled entry's text is seen. */
  lemma {:induction false} SeenComplete(es: seq<LogEntry>, orders: seq<seq<string>>, n: nat, i: nat)
    requires Ordered(es, orders) && i < n <= |es| && es[i].labels != map[]
    ensures IsOrder(es[i].labels, orders[i]) && Serial(es[i].labels, orders[i]) in Seen(es, orders, n)
  {
    if i < n - 1 {
      SeenComplete(es, orders, n - 1, i);
    }
  }

  /** A collected set is the label map of some labelled entry. */
  lemma SetsGenuine(es: seq<LogEntry>, sets: seq<Labels>, j: nat)
    requires Collected(es, sets) && j < |sets|
    ensures exists i | 0 <= i < |es| :: es[i].labels == sets[j] && es[i].labels != map[]
  {
    var orders, keys :| CollectedBy(es, sets, orders, keys);
    SeenGenuine(es, orders, |es|, keys[j]);
    var i :| 0 <= i < |es| && es[i].labels == Seen(es, orders, |es|)[keys[j]] && es[i].labels != map[];
  }

  ghost predicate CleanEntries(es: seq<LogEntry>) {
    forall e | e in es :: CleanLabels(e.labels)
  }

  /** Every labelled entry's map is collected, whatever orders Go ranges in. */
  lemma SetsComplete(es: seq<LogEntry>, sets: seq<Labels>, i: nat)
    requires Collected(es, sets) && CleanEntries(es) && i < |es| && es[i].labels != map[]
    ensures es[i].labels in sets
  {
    var orders, keys :| CollectedBy(es, sets, orders, keys);
    SeenComplete(es, orders, |es|, i);
    var text := Serial(es[i].labels, orders[i]);
    SeenGenuine(es, orders, |es|, text);
    var k :| 0 <= k < |es| && es[k].labels == Seen(es, orders, |es|)[text] && es[k].labels != map[]
             && IsOrder(es[k].labels, orders[k]) && text == Serial(es[k].labels, orders[k]);
    assert es[i] in es && es[k] in es;
    SerialInjective(es[i].labels, orders[i], es[k].labels, orders[k]);
    var j :| 0 <= j < |keys| && keys[j] == text;
    assert sets[j] == es[i].labels;
  }

  // ---- MatchLabels ----

  /** MatchLabels, as its documentation states it. */
  predicate Match(sets: seq<Labels>, query: Labels) {
    query == map[] || exists i | 0 <= i < |sets| :: HasLabels(sets[i], query)
  }

  method MatchLabels(sets: seq<Labels>, query: Labels) returns (r: bool)
    ensures r <==> Match(sets, query)
  {
    if query == map[] {
      return true;
    }
    for i := 0 to |sets|
      invariant forall j | 0 <= j < i :: !HasLabels(sets[j], query)
    {
      var all := AllMatch(sets[i], query);
      if all {
        return true;
      }
    }
    return false;
  }

  method AllMatch(m: Labels, query: Labels) returns (all: bool)
    ensures all <==> HasLabels(m, query)
  {
    var rest := query.Keys;
    while rest != {}
      invariant rest <= query.Keys
      invariant forall k | k in query && k !in rest :: Lookup(m, k) == query[k]
    {
      var k :| k in rest;
      if Lookup(m, k) != query[k] {
        return false;
      }
      rest := rest - {k};
    }
    return true;
  }

  // ---- pruning ----

  ghost predicate LabelHit(es: seq<LogEntry>, query: Labels) {
    exists i | 0 <= i < |es| :: HasLabels(es[i].labels, query)
  }

  ghost predicate LabelledHit(es: seq<LogEntry>, query: Labels) {
    exists i | 0 <= i < |es| :: es[i].labels != map[] && HasLabels(es[i].labels, query)
  }

  /** With clean labels the index answers exactly for the labelled entries. */
  lemma MatchExact(es: seq<LogEntry>, sets: seq<Labels>, query: Labels)
    requires Collected(es, sets) && CleanEntries(es)
    ensures Match(sets, query) <==> query == map[] || LabelledHit(es, query)
  {
    if j :| 0 <= j < |sets| && HasLabels(sets[j], query) {
      SetsGenuine(es, sets, j);
    }
    if i :| 0 <= i < |es| && es[i].labels != map[] && HasLabels(es[i].labels, query) {
      SetsComplete(es, sets, i);
      var j :| 0 <= j < |sets| && sets[j] == es[i].labels;
    }
  }

  /** A query the label index may be asked: no labels, or some non-empty value. */
  predicate SafeQuery(query: Labels) {
    query == map[] || exists k | k in query :: query[k] != ""
  }

  lemma UnlabelledNeverHit(query: Labels)
    requires query != map[] && SafeQuery(query)
    ensures !HasLabels(map[], query)
  {
  }

  lemma SafeQueryKeepsHits(es: seq<LogEntry>, sets: seq<Labels>, query: Labels)
    requires Collected(es, sets) && CleanEntries(es) && SafeQuery(query) && LabelHit(es, query)
    ensures Match(sets, query)
  {
    MatchExact(es, sets, query);
    if query != map[] {
      UnlabelledNeverHit(query);
    }
  }

  /** No false negatives from label pruning, exactly for safe queries. */
  lemma LabelPruningSound(query: Labels)
    ensures SafeQuery(query) <==>
            forall es, sets | Collected(es, sets) && CleanEntries(es) && LabelHit(es, query) :: Match(sets, query)
  {
    if SafeQuery(query) {
      forall es, sets | Collected(es, sets) && CleanEntries(es) && LabelHit(es, query)
        ensures Match(sets, query)
      {
        SafeQueryKeepsHits(es, sets, query);
      }
    } else {
      var e := LogEntry(0, "", "", "", map[]);
      NothingCollected([e]);
      assert HasLabels([e][0].labels, query);
      assert LabelHit([e], query) && !Match([], query);
      assert CleanEntries([e]);
    }
  }

  /** An unlabelled entry is not recorded. */
  lemma NothingCollected(es: seq<LogEntry>)
    requires forall e | e in es :: e.labels == map[]
    ensures Collected(es, [])
  {
    var orders: seq<seq<string>> := seq(|es|, _ => []);
    assert Ordered(es, orders);
    NothingSeen(es, orders, |es|);
    assert CollectedBy(es, [], orders, []);
  }

  lemma {:induction false} NothingSeen(es: seq<LogEntry>, orders: seq<seq<string>>, n: nat)
    requires Ordered(es, orders) && n <= |es| && forall e | e in es :: e.labels == map[]
    ensures Seen(es, orders, n) == map[]
  {
    if n > 0 {
      NothingSeen(es, orders, n - 1);
    }
  }

  /** Two entries whose maps differ but share a text: only the first is collected. */
  lemma SharedText(e: LogEntry, o: seq<string>, e': LogEntry, o': seq<string>)
    requires IsOrder(e.labels, o) && IsOrder(e'.labels, o')
    requires e.labels != map[] && Serial(e.labels, o) == Serial(e'.labels, o')
    ensures Collected([e, e'], [e.labels])
  {
    var es, orders, text := [e, e'], [o, o'], Serial(e.labels, o);
    assert Ordered(es, orders);
    assert Seen(es, orders, 0) == map[];
    assert Seen(es, orders, 1) == map[text := e.labels];
    assert Seen(es, orders, 2) == map[text := e.labels];
    assert CollectedBy(es, [e.labels], orders, [text]);
  }

  /** Why keys must lack '=' and values ',': the map {a: "1", b: "2"} is lost behind
      {a: "1,b=2"}, and a query it satisfies prunes the chunk. */
  lemma CollisionLosesSet(e: LogEntry, e': LogEntry)
    requires e.labels == map["a" := "1,b=2"] && e'.labels == map["a" := "1", "b" := "2"]
    ensures Collected([e, e'], [e.labels])
    ensures SafeQuery(map["b" := "2"]) && LabelHit([e, e'], map["b" := "2"]) && !Match([e.labels], map["b" := "2"])
  {
    var m, m', o, o' := e.labels, e'.labels, ["a"], ["a", "b"];
    assert Serial(m, o) == "a" + "=" + "1,b=2" + "," + Serial(m, []);
    assert o'[1..] == ["b"];
    assert Serial(m', ["b"]) == "b" + "=" + "2" + "," + Serial(m', []);
    assert Serial(m', o') == "a" + "=" + "1" + "," + Serial(m', ["b"]);
    SharedText(e, o, e', o');
    var query: Labels := map["b" := "2"];
    assert HasLabels([e, e'][1].labels, query);
    assert "b" in query && query["b"] != "" && Lookup(m, "b") == "";
  }
}
