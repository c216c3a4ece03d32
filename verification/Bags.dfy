/** Sums of sequences over keys, up to order: what a query collects key by key against
    what a scan collects chunk by chunk. */
module Bags {
  import opened Seqs

  ghost function Bag<T>(ks: seq<string>, f: string -> seq<T>): multiset<T> {
    if ks == [] then multiset{} else multiset(f(ks[0])) + Bag(ks[1..], f)
  }

  lemma {:induction false} BagConcat<T>(a: seq<string>, b: seq<string>, f: string -> seq<T>)
    ensures Bag(a + b, f) == Bag(a, f) + Bag(b, f)
  {
    if a == [] {
      assert a + b == b;
    } else {
      assert (a + b)[1..] == a[1..] + b;
      BagConcat(a[1..], b, f);
    }
  }

  lemma BagRemove<T>(ks: seq<string>, i: nat, f: string -> seq<T>)
    requires i < |ks|
    ensures Bag(ks, f) == Bag(ks[..i] + ks[i + 1..], f) + multiset(f(ks[i]))
  {
    assert ks == ks[..i] + ks[i..] && ks[i..][1..] == ks[i + 1..];
    BagConcat(ks[..i], ks[i..], f);
    BagConcat(ks[..i], ks[i + 1..], f);
  }

  lemma {:induction false} BagNothing<T>(ks: seq<string>, f: string -> seq<T>)
    requires forall k | k in ks :: f(k) == []
    ensures Bag(ks, f) == multiset{}
  {
    if ks != [] {
      assert ks[0] in ks;
      BagNothing(ks[1..], f);
    }
  }

  lemma NoDupRemove(ks: seq<string>, i: nat)
    requires NoDup(ks) && i < |ks|
    ensures NoDup(ks[..i] + ks[i + 1..])
    ensures forall k :: k in ks[..i] + ks[i + 1..] <==> k in ks && k != ks[i]
  {
    var rest := ks[..i] + ks[i + 1..];
    forall k | k in ks && k != ks[i]
      ensures k in rest
    {
      var j :| 0 <= j < |ks| && ks[j] == k;
      assert if j < i then rest[j] == k else rest[j - 1] == k;
    }
    assert forall j | 0 <= j < |rest| :: rest[j] == ks[if j < i then j else j + 1];
  }

  /** A sum over some of the keys is part of the sum over all. */
  lemma {:induction false} BagSubset<T>(ks: seq<string>, all: seq<string>, f: string -> seq<T>)
    requires NoDup(ks) && NoDup(all) && forall k | k in ks :: k in all
    ensures Bag(ks, f) <= Bag(all, f)
    decreases |ks|
  {
    if ks != [] {
      var rest := ks[1..];
      assert ks[0] in ks;
      var i :| 0 <= i < |all| && all[i] == ks[0];
      BagRemove(all, i, f);
      NoDupRemove(all, i);
      forall k | k in rest
        ensures k in all[..i] + all[i + 1..]
      {
        assert k in ks && k != ks[0];
      }
      BagSubset(rest, all[..i] + all[i + 1..], f);
    }
  }

  /** A sum over keys, where every key that contributes is the key of one id, is the sum
      over the ids whose key is there. */
  lemma {:induction false} Transfer<T>(ks: seq<string>, ids: seq<string>, key: string -> string,
                                       f: string -> seq<T>, g: string -> seq<T>)
    requires NoDup(ks) && NoDup(ids)
    requires forall a, b | a in ids && b in ids && a != b :: key(a) != key(b)
    requires forall k | k in ks && f(k) != [] :: exists id :: id in ids && key(id) == k
    requires forall id | id in ids :: g(id) == if key(id) in ks then f(key(id)) else []
    ensures Bag(ks, f) == Bag(ids, g)
    decreases |ids|
  {
    if ids == [] {
      BagNothing(ks, f);
    } else {
      var id, rest := ids[0], ids[1..];
      assert id in ids;
      assert forall o | o in rest :: o in ids && o != id;
      if key(id) in ks {
        var i :| 0 <= i < |ks| && ks[i] == key(id);
        var ks' := ks[..i] + ks[i + 1..];
        BagRemove(ks, i, f);
        NoDupRemove(ks, i);
        forall k | k in ks' && f(k) != []
          ensures exists o :: o in rest && key(o) == k
        {
          var o :| o in ids && key(o) == k;
          assert o in rest;
        }
        Transfer(ks', rest, key, f, g);
      } else {
        forall k | k in ks && f(k) != []
          ensures exists o :: o in rest && key(o) == k
        {
          var o :| o in ids && key(o) == k;
          assert o in rest;
        }
        Transfer(ks, rest, key, f, g);
      }
    }
  }

  /** A sum that drops whole contributions is the full sum exactly when it drops none
      that matters. */
  lemma {:induction false} DropsNothing<T>(ids: seq<string>, g: string -> seq<T>, h: string -> seq<T>)
    requires forall id | id in ids :: g(id) == h(id) || g(id) == []
    ensures |Bag(ids, g)| <= |Bag(ids, h)|
    ensures Bag(ids, g) == Bag(ids, h) <==> forall id | id in ids :: g(id) == h(id)
  {
    if ids != [] {
      var id, rest := ids[0], ids[1..];
      assert id in ids;
      DropsNothing(rest, g, h);
      assert |Bag(ids, g)| == |g(id)| + |Bag(rest, g)|;
      assert |Bag(ids, h)| == |h(id)| + |Bag(rest, h)|;
      if Bag(ids, g) == Bag(ids, h) {
        assert |g(id)| == |h(id)| && |Bag(rest, g)| == |Bag(rest, h)|;
        assert g(id) == h(id);
        Cancel(multiset(g(id)), Bag(rest, g), Bag(rest, h));
        assert forall o | o in ids :: o == id || o in rest;
      }
    }
  }

  lemma Cancel<T>(a: multiset<T>, b: multiset<T>, c: multiset<T>)
    requires a + b == a + c
    ensures b == c
  {
    forall x: T
      ensures b[x] == c[x]
    {
      assert (a + b)[x] == (a + c)[x];
    }
  }
}
