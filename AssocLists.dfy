/**
 * Insertion-ordered maps keyed by strings, as Kotlin's `mutableMapOf` (a LinkedHashMap) behaves:
 * a list of entries, iterated in the order keys were first inserted; `put` on a present key
 * replaces its value in place, on a new key appends an entry.
 */
module AssocLists {
  import opened Wrappers

  type AList<V> = seq<(string, V)>

  /** The keys, in iteration order. */
  function Keys<V>(al: AList<V>): (ks: seq<string>)
    ensures |ks| == |al|
    ensures forall i :: 0 <= i < |al| ==> ks[i] == al[i].0
  {
    if al == [] then [] else [al[0].0] + Keys(al[1..])
  }

  /** No key occurs twice: what a map guarantees. */
  predicate DistinctKeys<V>(al: AList<V>)
  {
    forall i, j :: 0 <= i < j < |al| ==> al[i].0 != al[j].0
  }

  /** `get`: the value of the first entry with key `k`, if any. */
  function Lookup<V>(al: AList<V>, k: string): Option<V>
  {
    if al == [] then None
    else if al[0].0 == k then Some(al[0].1)
    else Lookup(al[1..], k)
  }

  /** `get` finds a value exactly for the keys present, and the value is stored under that key. */
  lemma {:induction false} LookupKeys<V>(al: AList<V>, k: string)
    ensures Lookup(al, k).None? <==> k !in Keys(al)
    ensures Lookup(al, k).Some? ==> (k, Lookup(al, k).value) in al
  {
    if al != [] && al[0].0 != k {
      LookupKeys(al[1..], k);
      assert Keys(al) == [al[0].0] + Keys(al[1..]);
      if Lookup(al, k).Some? {
        assert (k, Lookup(al, k).value) in al[1..];
      }
    }
  }

  /** `get(k) ?: d`. */
  function GetOr<V>(al: AList<V>, k: string, d: V): V
  {
    match Lookup(al, k)
    case Some(v) => v
    case None => d
  }

  /** `put(k, v)`. */
  function Put<V>(al: AList<V>, k: string, v: V): (r: AList<V>)
    ensures Keys(r) == if k in Keys(al) then Keys(al) else Keys(al) + [k]
    ensures Lookup(r, k) == Some(v)
    ensures forall k' :: k' != k ==> Lookup(r, k') == Lookup(al, k')
  {
    if al == [] then [(k, v)]
    else
      ConsFacts(al[0], al[1..]);
      if al[0].0 == k then
        ConsFacts((k, v), al[1..]);
        [(k, v)] + al[1..]
      else
        var rest := Put(al[1..], k, v);
        ConsFacts(al[0], rest);
        assert [al[0].0] + Keys(al[1..]) + [k] == [al[0].0] + (Keys(al[1..]) + [k]);
        [al[0]] + rest
  }

  /** The keys and lookups of a list given by its first entry and the rest. */
  lemma ConsFacts<V>(entry: (string, V), rest: AList<V>)
    ensures Keys([entry] + rest) == [entry.0] + Keys(rest)
    ensures forall k :: k in Keys([entry] + rest) <==> k == entry.0 || k in Keys(rest)
    ensures forall k :: Lookup([entry] + rest, k) == if entry.0 == k then Some(entry.1) else Lookup(rest, k)
  {
    assert ([entry] + rest)[1..] == rest;
  }

  /** `put` keeps a map a map: no key is repeated afterwards. */
  lemma PutDistinct<V>(al: AList<V>, k: string, v: V)
    requires DistinctKeys(al)
    ensures DistinctKeys(Put(al, k, v))
  {
    var r := Put(al, k, v);
    forall i, j | 0 <= i < j < |r| ensures r[i].0 != r[j].0 {
      assert Keys(r)[i] == r[i].0 && Keys(r)[j] == r[j].0;
      if k !in Keys(al) && j == |al| {
        assert Keys(al)[i] == al[i].0;
      } else {
        assert Keys(al)[i] == al[i].0 && Keys(al)[j] == al[j].0;
      }
    }
  }

  /** Every entry after `put` is the new one or an entry that was there before. */
  lemma {:induction false} PutEntries<V>(al: AList<V>, k: string, v: V, i: nat)
    requires i < |Put(al, k, v)|
    ensures Put(al, k, v)[i] == (k, v) || Put(al, k, v)[i] in al
  {
    if al != [] && al[0].0 != k && i > 0 {
      PutEntries(al[1..], k, v, i - 1);
    }
  }

  /** In a list without repeated keys, every entry is what `get` returns for its key. */
  lemma {:induction false} LookupEntry<V>(al: AList<V>, i: nat)
    requires DistinctKeys(al) && i < |al|
    ensures Lookup(al, al[i].0) == Some(al[i].1)
  {
    if i > 0 {
      assert DistinctKeys(al[1..]);
      LookupEntry(al[1..], i - 1);
    }
  }

  /** `put` of a new key appends one entry. */
  lemma {:induction false} PutNew<V>(al: AList<V>, k: string, v: V)
    requires k !in Keys(al)
    ensures Put(al, k, v) == al + [(k, v)]
    decreases |al|
  {
    if al != [] {
      assert Keys(al) == [al[0].0] + Keys(al[1..]);
      PutNew(al[1..], k, v);
      assert Put(al, k, v) == [al[0]] + Put(al[1..], k, v);
      assert al + [(k, v)] == [al[0]] + (al[1..] + [(k, v)]) by {
        assert al == [al[0]] + al[1..];
      }
    }
  }

  /** `put` of a key present at index i, and nowhere before, replaces that entry where it stands. */
  lemma {:induction false} PutAt<V>(al: AList<V>, i: nat, v: V)
    requires i < |al| && forall j :: 0 <= j < i ==> al[j].0 != al[i].0
    ensures Put(al, al[i].0, v) == al[i := (al[i].0, v)]
    decreases i
  {
    var k := al[i].0;
    if i == 0 {
      assert Put(al, k, v) == [(k, v)] + al[1..];
      UpdateCons(al, 0, (k, v));
    } else {
      var rest := al[1..];
      assert rest[i - 1] == al[i] && forall j :: 0 <= j < i - 1 ==> rest[j] == al[j + 1];
      PutAt(rest, i - 1, v);
      assert Put(al, k, v) == [al[0]] + Put(rest, k, v);
      UpdateCons(al, i, (k, v));
    }
  }

  /** Updating a non-empty sequence updates its head or its tail. */
  lemma UpdateCons<T>(a: seq<T>, i: nat, x: T)
    requires i < |a|
    ensures i == 0 ==> a[i := x] == [x] + a[1..]
    ensures i > 0 ==> a[i := x] == [a[0]] + a[1..][i - 1 := x]
  {
    var updated := a[i := x];
    if i == 0 {
      assert updated == [x] + a[1..];
    } else {
      var joined := [a[0]] + a[1..][i - 1 := x];
      assert forall j :: 0 <= j < |a| ==> updated[j] == joined[j];
    }
  }

  /**
   * Sequence concatenation is associative. Calling this lemma, rather than asserting the
   * equation in place, keeps the step out of large proof contexts where it is expensive.
   */
  lemma ConcatAssoc<T>(a: seq<T>, b: seq<T>, c: seq<T>)
    ensures (a + b) + c == a + (b + c)
  {
  }
}
