/**
 * JavaScript objects (and Python dicts) as ordered sequences of key/value
 * pairs. Iteration order is sequence order; assigning an existing key
 * replaces its value in place, assigning a new key appends it.
 */
module Objects {
  import opened Wrappers

  type Entries<V> = seq<(string, V)>

  function Keys<V>(e: Entries<V>): (ks: seq<string>)
    ensures |ks| == |e|
    ensures forall i :: 0 <= i < |e| ==> ks[i] == e[i].0
  {
    seq(|e|, i requires 0 <= i < |e| => e[i].0)
  }

  /** No key occurs twice: true of every object the source builds. */
  ghost predicate DistinctKeys<V>(e: Entries<V>) {
    forall i, j :: 0 <= i < j < |e| ==> e[i].0 != e[j].0
  }

  /** Position of the first pair with key `k`, or `|e|` when there is none. */
  function KeyIndex<V>(e: Entries<V>, k: string): (i: nat)
    ensures i <= |e|
    ensures i < |e| ==> e[i].0 == k
    ensures forall j :: 0 <= j < i ==> e[j].0 != k
  {
    if |e| == 0 then 0
    else if e[0].0 == k then 0
    else 1 + KeyIndex(e[1..], k)
  }

  /** `obj[k]`: the value stored under `k`, or None when `k` is absent. */
  function Lookup<V>(e: Entries<V>, k: string): (r: Option<V>)
    ensures r.Some? <==> k in Keys(e)
    ensures r.Some? ==> (k, r.value) in e
  {
    var i := KeyIndex(e, k);
    if i < |e| then Some(e[i].1) else None
  }

  /** `obj[k] = v`. */
  function Put<V>(e: Entries<V>, k: string, v: V): (r: Entries<V>)
    ensures Lookup(r, k) == Some(v)
    ensures forall k' :: k' != k ==> Lookup(r, k') == Lookup(e, k')
    ensures Keys(r) == if k in Keys(e) then Keys(e) else Keys(e) + [k]
  {
    var i := KeyIndex(e, k);
    if i < |e| then
      var r := e[i := (k, v)];
      assert Keys(r) == Keys(e);
      assert KeyIndex(r, k) == i by { KeyIndexAfterUpdate(e, i, k, v); }
      forall k' | k' != k ensures Lookup(r, k') == Lookup(e, k') {
        KeyIndexOther(e, i, k, v, k');
      }
      r
    else
      var r := e + [(k, v)];
      assert Keys(r) == Keys(e) + [k];
      assert KeyIndex(r, k) == |e| by { KeyIndexAfterAppend(e, k, v, k); }
      forall k' | k' != k ensures Lookup(r, k') == Lookup(e, k') {
        KeyIndexAfterAppend(e, k, v, k');
      }
      r
  }

  lemma {:induction false} KeyIndexAfterUpdate<V>(e: Entries<V>, i: nat, k: string, v: V)
    requires i == KeyIndex(e, k) && i < |e|
    ensures KeyIndex(e[i := (k, v)], k) == i
  {
    if i > 0 {
      assert e[i := (k, v)][1..] == e[1..][i - 1 := (k, v)];
      KeyIndexAfterUpdate(e[1..], i - 1, k, v);
    }
  }

  lemma {:induction false} KeyIndexOther<V>(e: Entries<V>, i: nat, k: string, v: V, k': string)
    requires i < |e| && e[i].0 == k && k' != k
    ensures KeyIndex(e[i := (k, v)], k') == KeyIndex(e, k')
  {
    if e[0].0 != k' && i > 0 {
      assert e[i := (k, v)][1..] == e[1..][i - 1 := (k, v)];
      KeyIndexOther(e[1..], i - 1, k, v, k');
    }
  }

  lemma {:induction false} KeyIndexAfterAppend<V>(e: Entries<V>, k: string, v: V, k': string)
    requires k !in Keys(e)
    ensures k' == k ==> KeyIndex(e + [(k, v)], k') == |e|
    ensures k' != k ==> KeyIndex(e + [(k, v)], k') == KeyIndex(e, k') || (KeyIndex(e, k') == |e| && KeyIndex(e + [(k, v)], k') == |e| + 1)
  {
    if |e| > 0 {
      assert (e + [(k, v)])[1..] == e[1..] + [(k, v)];
      assert k !in Keys(e[1..]) by {
        forall j | 0 <= j < |e[1..]| ensures e[1..][j].0 != k { assert e[1..][j] == e[j + 1]; }
      }
      if e[0].0 != k' { KeyIndexAfterAppend(e[1..], k, v, k'); }
    }
  }

  /** Under distinct keys, the pair at position `i` is the one `Lookup` finds. */
  lemma {:induction false} LookupAt<V>(e: Entries<V>, i: nat)
    requires DistinctKeys(e) && i < |e|
    ensures KeyIndex(e, e[i].0) == i
    ensures Lookup(e, e[i].0) == Some(e[i].1)
  {
  }

  /** Assigning a key the object does not have appends it. */
  lemma PutNew<V>(e: Entries<V>, k: string, v: V)
    requires k !in Keys(e)
    ensures Put(e, k, v) == e + [(k, v)]
  {
  }

  /** Looking up in an object extended by a new key. */
  lemma LookupSnoc<V>(e: Entries<V>, p: (string, V), k: string)
    requires p.0 !in Keys(e)
    ensures Lookup(e + [p], k) == if k == p.0 then Some(p.1) else Lookup(e, k)
  {
    PutNew(e, p.0, p.1);
  }

  /** The last pair of an object with distinct keys holds a key the others lack. */
  lemma LastKeyFresh<V>(e: Entries<V>)
    requires DistinctKeys(e) && |e| > 0
    ensures e[|e| - 1].0 !in Keys(e[..|e| - 1])
    ensures DistinctKeys(e[..|e| - 1])
    ensures e == e[..|e| - 1] + [e[|e| - 1]]
  {
    var pre := e[..|e| - 1];
    forall j | 0 <= j < |pre| ensures pre[j].0 != e[|e| - 1].0 { assert pre[j] == e[j]; }
  }

  /** `Object.fromEntries(pairs)`: the pairs are assigned one after another. */
  function FromEntries<V>(pairs: seq<(string, V)>): Entries<V> {
    if |pairs| == 0 then []
    else Put(FromEntries(pairs[..|pairs| - 1]), pairs[|pairs| - 1].0, pairs[|pairs| - 1].1)
  }

  /** Assigning a key keeps the keys distinct. */
  lemma PutDistinct<V>(e: Entries<V>, k: string, v: V)
    requires DistinctKeys(e)
    ensures DistinctKeys(Put(e, k, v))
  {
    if KeyIndex(e, k) == |e| {
      PutNew(e, k, v);
      var r := e + [(k, v)];
      forall i, j | 0 <= i < j < |r| ensures r[i].0 != r[j].0 {
        if j == |e| { assert r[i].0 == Keys(e)[i]; }
      }
    }
  }

  /** `Object.fromEntries` never repeats a key. */
  lemma {:induction false} FromEntriesDistinct<V>(pairs: seq<(string, V)>)
    ensures DistinctKeys(FromEntries(pairs))
  {
    if |pairs| > 0 {
      FromEntriesDistinct(pairs[..|pairs| - 1]);
      PutDistinct(FromEntries(pairs[..|pairs| - 1]), pairs[|pairs| - 1].0, pairs[|pairs| - 1].1);
    }
  }

  /** The value of the last pair whose key is `k`. */
  function LastValue<V>(pairs: seq<(string, V)>, k: string): Option<V> {
    if |pairs| == 0 then None
    else if pairs[|pairs| - 1].0 == k then Some(pairs[|pairs| - 1].1)
    else LastValue(pairs[..|pairs| - 1], k)
  }

  /** A key that repeats in `pairs` ends up with the value of its LAST occurrence. */
  lemma {:induction false} FromEntriesLastWins<V>(pairs: seq<(string, V)>, k: string)
    ensures Lookup(FromEntries(pairs), k) == LastValue(pairs, k)
  {
    if |pairs| > 0 && pairs[|pairs| - 1].0 != k {
      FromEntriesLastWins(pairs[..|pairs| - 1], k);
    }
  }

  /** Position of the last pair with key `k`, or -1 when there is none. */
  function LastIndex<V>(pairs: seq<(string, V)>, k: string): (i: int)
    ensures -1 <= i < |pairs|
    ensures i >= 0 ==> pairs[i].0 == k
    ensures forall j :: i < j < |pairs| ==> pairs[j].0 != k
  {
    if |pairs| == 0 then -1
    else if pairs[|pairs| - 1].0 == k then |pairs| - 1
    else LastIndex(pairs[..|pairs| - 1], k)
  }

  /** `LastValue` reads the pair at `LastIndex`. */
  lemma {:induction false} LastValueAt<V>(pairs: seq<(string, V)>, k: string)
    ensures LastValue(pairs, k) == if LastIndex(pairs, k) >= 0 then Some(pairs[LastIndex(pairs, k)].1) else None
  {
    if |pairs| > 0 && pairs[|pairs| - 1].0 != k {
      LastValueAt(pairs[..|pairs| - 1], k);
    }
  }

  /** With distinct keys, the last pair with a key is the only one, so it is the one `Lookup` finds. */
  lemma {:induction false} LastValueDistinct<V>(e: Entries<V>, k: string)
    requires DistinctKeys(e)
    ensures LastValue(e, k) == Lookup(e, k)
  {
    if |e| > 0 {
      var pre := e[..|e| - 1];
      LastKeyFresh(e);
      LastValueDistinct(pre, k);
      LookupSnoc(pre, e[|e| - 1], k);
    }
  }

  /** Every pair of `Put(e, k, v)` is a pair of `e` or the new one. */
  lemma PutMembers<V>(e: Entries<V>, k: string, v: V)
    ensures forall p :: p in Put(e, k, v) ==> p in e || p == (k, v)
  {
    var r := Put(e, k, v);
    forall p | p in r ensures p in e || p == (k, v) {
      var j :| 0 <= j < |r| && r[j] == p;
      if KeyIndex(e, k) < |e| {
        assert r == e[KeyIndex(e, k) := (k, v)];
        if j != KeyIndex(e, k) { assert e[j] == p; }
      } else {
        assert r == e + [(k, v)];
        if j < |e| { assert e[j] == p; }
      }
    }
  }

  /** One more pair: `Object.fromEntries` assigns it after the ones before. */
  lemma FromEntriesSnoc<V>(pairs: seq<(string, V)>, i: nat)
    requires i < |pairs|
    ensures FromEntries(pairs[..i + 1]) == Put(FromEntries(pairs[..i]), pairs[i].0, pairs[i].1)
  {
    assert pairs[..i + 1][..i] == pairs[..i];
  }
}
