/**
 Insertion-ordered association lists: the model of a JavaScript object used as a
 dictionary; JavaScript property keys are strings. Assigning to a key that is already present keeps its position;
 assigning to a new key appends it.
 */
module Assoc {
  import opened Wrappers
  import opened Seqs

  type Assoc<V> = seq<(string, V)>

  function Keys<V>(m: Assoc<V>): seq<string>
  {
    seq(|m|, i requires 0 <= i < |m| => m[i].0)
  }

  predicate UniqueKeys<V>(m: Assoc<V>)
  {
    forall i, j :: 0 <= i < j < |m| ==> m[i].0 != m[j].0
  }

  /** `m[k]`: the value stored under the first occurrence of `k`. */
  function Get<V>(m: Assoc<V>, k: string): (r: Option<V>)
    ensures r.Some? <==> k in Keys(m)
    ensures r.Some? ==> (k, r.value) in m
  {
    if |m| == 0 then None
    else if m[0].0 == k then
      assert Keys(m)[0] == k;
      Some(m[0].1)
    else
      assert Keys(m) == [m[0].0] + Keys(m[1..]);
      Get(m[1..], k)
  }

  /** `m[k] = v`. */
  function Put<V>(m: Assoc<V>, k: string, v: V): (r: Assoc<V>)
    ensures Keys(r) == Insert(Keys(m), k)
    ensures forall i :: 0 <= i < |r| ==> r[i] == (k, v) || r[i] in m
    ensures UniqueKeys(m) ==> UniqueKeys(r)
  {
    if |m| == 0 then [(k, v)]
    else if m[0].0 == k then
      var r := [(k, v)] + m[1..];
      assert Keys(m)[0] == k;
      assert Keys(r) == Keys(m);
      r
    else
      var tail := Put(m[1..], k, v);
      PutCons(m, k, v, tail);
      [m[0]] + tail
  }

  /** `Put` past a first entry with another key: the entry stays in front of the updated rest. */
  lemma PutCons<V>(m: Assoc<V>, k: string, v: V, tail: Assoc<V>)
    requires |m| > 0 && m[0].0 != k
    requires Keys(tail) == Insert(Keys(m[1..]), k)
    requires forall i :: 0 <= i < |tail| ==> tail[i] == (k, v) || tail[i] in m[1..]
    requires UniqueKeys(m[1..]) ==> UniqueKeys(tail)
    ensures Keys([m[0]] + tail) == Insert(Keys(m), k)
    ensures forall i :: 0 <= i < |[m[0]] + tail| ==> ([m[0]] + tail)[i] == (k, v) || ([m[0]] + tail)[i] in m
    ensures UniqueKeys(m) ==> UniqueKeys([m[0]] + tail)
  {
    var r := [m[0]] + tail;
    assert Keys(m) == [m[0].0] + Keys(m[1..]);
    assert Keys(r) == [m[0].0] + Keys(tail);
    assert forall j :: 0 <= j < |tail| ==> tail[j].0 == Keys(tail)[j];
    assert UniqueKeys(m) ==> m[0].0 !in Keys(m[1..]) && m[0].0 !in Keys(tail);
  }

  /** Reading back after `m[k] = v`: `k` now holds `v`, every other key is untouched. */
  lemma {:induction false} PutGet<V>(m: Assoc<V>, k: string, v: V, k': string)
    ensures Get(Put(m, k, v), k') == if k' == k then Some(v) else Get(m, k')
    decreases |m|
  {
    if |m| > 0 && m[0].0 != k {
      PutGet(m[1..], k, v, k');
    }
  }

  /** Writing `k` leaves every other key's value as it was. */
  lemma PutFrame<V>(m: Assoc<V>, k: string, v: V)
    ensures forall k' :: k' != k ==> Get(Put(m, k, v), k') == Get(m, k')
  {
    forall k' | k' != k
      ensures Get(Put(m, k, v), k') == Get(m, k')
    {
      PutGet(m, k, v, k');
    }
  }

  /** The first occurrence of `k`, at position `i`, is the one read. */
  lemma {:induction false} GetAt<V>(m: Assoc<V>, k: string, i: nat)
    requires i < |m| && m[i].0 == k && forall j :: 0 <= j < i ==> m[j].0 != k
    ensures Get(m, k) == Some(m[i].1)
    decreases i
  {
    if i > 0 {
      GetAt(m[1..], k, i - 1);
    }
  }

  /** Assigning to a key first present at position `i` replaces that entry in place. */
  lemma {:induction false} PutAt<V>(m: Assoc<V>, k: string, v: V, i: nat)
    requires i < |m| && m[i].0 == k && forall j :: 0 <= j < i ==> m[j].0 != k
    ensures Put(m, k, v) == m[..i] + [(k, v)] + m[i + 1..]
    decreases i
  {
    if i > 0 {
      var t := m[1..];
      PutAt(t, k, v, i - 1);
      PutSkip(m, k, v);
      ReplaceCons(m, i, (k, v), Put(t, k, v));
    }
  }

  lemma PutSkip<V>(m: Assoc<V>, k: string, v: V)
    requires |m| > 0 && m[0].0 != k
    ensures Put(m, k, v) == [m[0]] + Put(m[1..], k, v)
  {
  }

  /** Replacing position `i` of `m` is keeping `m[0]` and replacing position `i - 1` of the rest. */
  lemma ReplaceCons<T>(m: seq<T>, i: nat, x: T, tail: seq<T>)
    requires 0 < i < |m| && tail == m[1..][..i - 1] + [x] + m[1..][i..]
    ensures [m[0]] + tail == m[..i] + [x] + m[i + 1..]
  {
    assert m[1..][..i - 1] == m[1..i] && m[1..][i..] == m[i + 1..];
    assert m[..i] == [m[0]] + m[1..i];
  }

  /** Assigning to a key not yet present appends the entry at the end. */
  lemma {:induction false} PutFresh<V>(m: Assoc<V>, k: string, v: V)
    requires k !in Keys(m)
    ensures Put(m, k, v) == m + [(k, v)]
    decreases |m|
  {
    if |m| > 0 {
      assert Keys(m) == [m[0].0] + Keys(m[1..]);
      PutFresh(m[1..], k, v);
      assert m == [m[0]] + m[1..];
    }
  }

  /** A property every stored value has survives `m[k] = v` when `v` has it too. */
  lemma PutValues<V>(m: Assoc<V>, k: string, v: V, P: V -> bool)
    requires forall i :: 0 <= i < |m| ==> P(m[i].1)
    requires P(v)
    ensures forall i :: 0 <= i < |Put(m, k, v)| ==> P(Put(m, k, v)[i].1)
  {
    var r := Put(m, k, v);
    forall i | 0 <= i < |r|
      ensures P(r[i].1)
    {
      if r[i] != (k, v) {
        var j :| 0 <= j < |m| && m[j] == r[i];
      }
    }
  }

  /** A value read back was stored. */
  lemma GetValue<V>(m: Assoc<V>, k: string, P: V -> bool)
    requires forall i :: 0 <= i < |m| ==> P(m[i].1)
    ensures Get(m, k).Some? ==> P(Get(m, k).value)
  {
    if Get(m, k).Some? {
      var j :| 0 <= j < |m| && m[j] == (k, Get(m, k).value);
    }
  }
}
