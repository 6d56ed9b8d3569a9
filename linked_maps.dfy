/**
 * java.util.LinkedHashMap with String keys, as a sequence of entries in insertion order.
 * A put on a key that is already present replaces its value where it stands; a put on a
 * new key appends an entry.
 */
module LinkedMaps {
  import opened Java

  datatype Entry<V> = Entry(key: string, value: V)

  predicate UniqueKeys<V>(es: seq<Entry<V>>)
  {
    forall i, j | 0 <= i < j < |es| :: es[i].key != es[j].key
  }

  /** keySet(), in iteration order. */
  function Keys<V>(es: seq<Entry<V>>): (r: seq<string>)
    ensures |r| == |es|
    ensures forall i | 0 <= i < |es| :: r[i] == es[i].key
  {
    if |es| == 0 then [] else [es[0].key] + Keys(es[1..])
  }

  /** values(), in iteration order. */
  function Values<V>(es: seq<Entry<V>>): (r: seq<V>)
    ensures |r| == |es|
    ensures forall i | 0 <= i < |es| :: r[i] == es[i].value
  {
    if |es| == 0 then [] else [es[0].value] + Values(es[1..])
  }

  /** get(k): the value of the entry for k, or null (None) when there is none. */
  function Get<V>(es: seq<Entry<V>>, k: string): (r: Option<V>)
    ensures r.None? <==> (forall i | 0 <= i < |es| :: es[i].key != k)
    ensures r.Some? ==> exists i | 0 <= i < |es| :: es[i] == Entry(k, r.value)
  {
    if |es| == 0 then None
    else if es[0].key == k then Some(es[0].value)
    else
      var r := Get(es[1..], k);
      assert forall i | 0 <= i < |es[1..]| :: es[1..][i] == es[i + 1];
      r
  }

  /** get(k) finds a value exactly when k is among the keys (containsKey). */
  lemma GetKeys<V>(es: seq<Entry<V>>, k: string)
    ensures Get(es, k).Some? <==> k in Keys(es)
  {
    if Get(es, k).Some? {
      var i :| 0 <= i < |es| && es[i] == Entry(k, Get(es, k).value);
      assert Keys(es)[i] == k;
    }
  }

  /** put(k, v): the entries after the call. */
  function Put<V>(es: seq<Entry<V>>, k: string, v: V): seq<Entry<V>>
  {
    if |es| == 0 then [Entry(k, v)]
    else if es[0].key == k then [Entry(k, v)] + es[1..]
    else [es[0]] + Put(es[1..], k, v)
  }

  /** Every entry after put(k, v) was there before or is the new entry for k. */
  lemma {:induction false} PutEntries<V>(es: seq<Entry<V>>, k: string, v: V)
    ensures forall e | e in Put(es, k, v) :: e in es || e == Entry(k, v)
  {
    if |es| > 0 && es[0].key != k {
      PutEntries(es[1..], k, v);
      assert forall e | e in es[1..] :: e in es;
    } else if |es| > 0 {
      assert forall e | e in es[1..] :: e in es;
    }
  }

  /** After put(k, v) the key order is the old one, with k appended when it is new. */
  lemma {:induction false} PutKeys<V>(es: seq<Entry<V>>, k: string, v: V)
    ensures Keys(Put(es, k, v)) == (if k in Keys(es) then Keys(es) else Keys(es) + [k])
  {
    if |es| > 0 {
      var r := Put(es, k, v);
      if es[0].key == k {
        assert forall i | 0 <= i < |r| :: Keys(r)[i] == Keys(es)[i];
      } else {
        PutKeys(es[1..], k, v);
        assert Keys(r) == [es[0].key] + Keys(Put(es[1..], k, v));
        assert Keys(es) == [es[0].key] + Keys(es[1..]);
      }
    }
  }

  /** put keeps the keys unique. */
  lemma {:induction false} PutKeepsUnique<V>(es: seq<Entry<V>>, k: string, v: V)
    requires UniqueKeys(es)
    ensures UniqueKeys(Put(es, k, v))
  {
    PutKeys(es, k, v);
    var r := Put(es, k, v);
    var ks := Keys(r);
    assert forall i | 0 <= i < |r| :: r[i].key == ks[i];
    if k in Keys(es) {
      assert forall i | 0 <= i < |es| :: es[i].key == ks[i];
    } else {
      assert forall i | 0 <= i < |es| :: r[i].key == es[i].key;
      assert r[|es|].key == k;
    }
  }

  /** After put(k, v), get(k) is v and every other key keeps its value. */
  lemma {:induction false} PutGet<V>(es: seq<Entry<V>>, k: string, v: V, k2: string)
    ensures Get(Put(es, k, v), k2) == if k2 == k then Some(v) else Get(es, k2)
  {
    if |es| > 0 && es[0].key != k {
      PutGet(es[1..], k, v, k2);
      assert Put(es, k, v)[1..] == Put(es[1..], k, v);
    } else if |es| > 0 {
      assert Put(es, k, v)[1..] == es[1..];
    }
  }

  /** A put on a new key appends its entry. */
  lemma {:induction false} PutNew<V>(es: seq<Entry<V>>, k: string, v: V)
    requires k !in Keys(es)
    ensures Put(es, k, v) == es + [Entry(k, v)]
  {
    if |es| > 0 {
      assert Keys(es) == [es[0].key] + Keys(es[1..]);
      PutNew(es[1..], k, v);
      assert es == [es[0]] + es[1..];
    }
  }
}
