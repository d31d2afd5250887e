/** Ordered lists of string-keyed entries. Both a Python `dict` (insertion ordered)
    and the Fetch Standard's header list are kept in this shape: an entry
    assignment replaces the value of an existing key where it stands and appends
    a new key at the end. */
module Assoc {
  import opened Wrappers

  /** No key occurs twice. */
  predicate UniqueKeys<V>(es: seq<(string, V)>) {
    forall i, j :: 0 <= i < j < |es| ==> es[i].0 != es[j].0
  }

  /** The keys in order. */
  function Keys<V>(es: seq<(string, V)>): (ks: seq<string>)
    ensures |ks| == |es|
    ensures forall i :: 0 <= i < |es| ==> ks[i] == es[i].0
  {
    if es == [] then [] else [es[0].0] + Keys(es[1..])
  }

  /** The keys of two lists laid end to end. */
  lemma {:induction false} KeysConcat<V>(a: seq<(string, V)>, b: seq<(string, V)>)
    ensures Keys(a + b) == Keys(a) + Keys(b)
  {
    if a != [] {
      assert (a + b)[1..] == a[1..] + b;
      KeysConcat(a[1..], b);
    }
  }

  /** The value of the first entry with key `k`. */
  function Lookup<V>(es: seq<(string, V)>, k: string): (r: Option<V>)
    ensures r.None? <==> forall i :: 0 <= i < |es| ==> es[i].0 != k
    ensures r.Some? ==> exists i :: 0 <= i < |es| && es[i] == (k, r.value)
  {
    if es == [] then None
    else if es[0].0 == k then Some(es[0].1)
    else
      var r := Lookup(es[1..], k);
      assert r.Some? ==> es[1..][0..] == es[1..];
      assert forall i :: 0 < i < |es| ==> es[i] == es[1..][i - 1];
      r
  }

  /** With unique keys, each key reads back the value stored beside it. */
  lemma LookupAllAt<V>(es: seq<(string, V)>)
    requires UniqueKeys(es)
    ensures forall i :: 0 <= i < |es| ==> Lookup(es, es[i].0) == Some(es[i].1)
  {
    forall i | 0 <= i < |es|
      ensures Lookup(es, es[i].0) == Some(es[i].1)
    {
      var r := Lookup(es, es[i].0);
      assert r.Some?;
      var j :| 0 <= j < |es| && es[j] == (es[i].0, r.value);
      assert j == i;
    }
  }

  /** Assignment `es[k] = v`: replaces the first entry with key `k`, or appends one. */
  function Put<V>(es: seq<(string, V)>, k: string, v: V): (r: seq<(string, V)>)
    ensures Lookup(es, k).None? ==> r == es + [(k, v)]
    ensures Lookup(es, k).Some? ==> |r| == |es| && Keys(r) == Keys(es)
  {
    if es == [] then [(k, v)]
    else if es[0].0 == k then [(k, v)] + es[1..]
    else [es[0]] + Put(es[1..], k, v)
  }

  /** Deletion of every entry with key `k`. */
  function Remove<V>(es: seq<(string, V)>, k: string): (r: seq<(string, V)>)
    ensures |r| <= |es|
    ensures forall i :: 0 <= i < |r| ==> r[i].0 != k
  {
    if es == [] then []
    else if es[0].0 == k then Remove(es[1..], k)
    else [es[0]] + Remove(es[1..], k)
  }

  /** After `es[k] = v`, key `k` holds `v` and every other key is unaffected. */
  lemma {:induction false} LookupPut<V>(es: seq<(string, V)>, k: string, v: V, k': string)
    ensures Lookup(Put(es, k, v), k') == if k' == k then Some(v) else Lookup(es, k')
  {
    if es != [] && es[0].0 != k {
      LookupPut(es[1..], k, v, k');
    }
  }

  /** Assignment keeps keys unique. */
  lemma {:induction false} PutUnique<V>(es: seq<(string, V)>, k: string, v: V)
    requires UniqueKeys(es)
    ensures UniqueKeys(Put(es, k, v))
  {
    var r := Put(es, k, v);
    if Lookup(es, k).Some? {
      var ks := Keys(r);
      assert forall i :: 0 <= i < |r| ==> r[i].0 == ks[i] == Keys(es)[i] == es[i].0;
    }
  }

  /** Deletion leaves every other key's value where it was. */
  lemma {:induction false} LookupRemove<V>(es: seq<(string, V)>, k: string, k': string)
    ensures Lookup(Remove(es, k), k') == if k' == k then None else Lookup(es, k')
  {
    if es != [] {
      LookupRemove(es[1..], k, k');
    }
  }

  /** Deletion keeps the remaining entries in their order and keys unique. */
  lemma {:induction false} RemoveUnique<V>(es: seq<(string, V)>, k: string)
    requires UniqueKeys(es)
    ensures UniqueKeys(Remove(es, k))
  {
    if es != [] {
      RemoveUnique(es[1..], k);
      var rest := Remove(es[1..], k);
      forall i | 0 <= i < |rest| ensures rest[i].0 != es[0].0 {
        LookupRemove(es[1..], k, rest[i].0);
        assert Lookup(rest, rest[i].0).Some?;
        assert forall j :: 0 < j < |es| ==> es[j].0 != es[0].0;
        assert Lookup(es[1..], es[0].0).None?;
      }
    }
  }

  /** Looking up in a list extended at its end finds the earlier entry first. */
  lemma {:induction false} LookupSnoc<V>(es: seq<(string, V)>, e: (string, V), k: string)
    ensures Lookup(es + [e], k) ==
      if Lookup(es, k).Some? then Lookup(es, k) else if e.0 == k then Some(e.1) else None
  {
    if es != [] {
      assert (es + [e])[1..] == es[1..] + [e];
      LookupSnoc(es[1..], e, k);
    }
  }
}
