/**
 * PHP arrays with string keys: ordered lists of (key, value) pairs.
 * `$a[$k] = $v` overwrites in place or appends, `$a[$k] ?? null` finds the
 * entry, and `array_merge($a, $b)` lets `$b` win while keeping `$a`'s order.
 */
module Assoc {
  import opened Wrappers

  type Assoc<V> = seq<(string, V)>

  function Keys<V>(a: Assoc<V>): (ks: seq<string>)
    ensures |ks| == |a|
  {
    if a == [] then [] else [a[0].0] + Keys(a[1..])
  }

  lemma {:induction false} KeysAt<V>(a: Assoc<V>, i: nat)
    requires i < |a|
    ensures Keys(a)[i] == a[i].0
    decreases i
  {
    if i > 0 { KeysAt(a[1..], i - 1); }
  }

  /** A PHP array never repeats a key. */
  predicate DistinctKeys<V>(a: Assoc<V>) {
    forall i, j :: 0 <= i < j < |a| ==> a[i].0 != a[j].0
  }

  /** `$a[$k] ?? null`. */
  function Get<V>(a: Assoc<V>, k: string): (r: Option<V>)
    ensures r.Some? <==> k in Keys(a)
  {
    if a == [] then None else if a[0].0 == k then Some(a[0].1) else Get(a[1..], k)
  }

  /** `$a[$k] = $v`: overwrite the entry in place, or append a new one. */
  function Put<V>(a: Assoc<V>, k: string, v: V): Assoc<V> {
    if a == [] then [(k, v)]
    else if a[0].0 == k then [(k, v)] + a[1..]
    else [a[0]] + Put(a[1..], k, v)
  }

  /** `array_merge($a, $b)` for string keys. */
  function Merge<V>(a: Assoc<V>, b: Assoc<V>): Assoc<V>
    decreases |b|
  {
    if b == [] then a else Merge(Put(a, b[0].0, b[0].1), b[1..])
  }

  // ---------------------------------------------------------------------
  // Lemmas

  lemma {:induction false} PutGet<V>(a: Assoc<V>, k: string, v: V, k': string)
    ensures Get(Put(a, k, v), k') == if k' == k then Some(v) else Get(a, k')
    decreases |a|
  {
    if a != [] && a[0].0 != k {
      PutGet(a[1..], k, v, k');
      assert Put(a, k, v)[1..] == Put(a[1..], k, v);
    } else if a != [] {
      assert Put(a, k, v)[1..] == a[1..];
    }
  }

  lemma {:induction false} PutKeys<V>(a: Assoc<V>, k: string, v: V)
    ensures k in Keys(a) ==> Keys(Put(a, k, v)) == Keys(a)
    ensures k !in Keys(a) ==> Keys(Put(a, k, v)) == Keys(a) + [k]
    decreases |a|
  {
    if a != [] {
      if a[0].0 == k {
        assert Put(a, k, v)[1..] == a[1..];
      } else {
        PutKeys(a[1..], k, v);
        assert Put(a, k, v)[1..] == Put(a[1..], k, v);
        assert k in Keys(a) <==> k in Keys(a[1..]);
      }
    }
  }

  lemma {:induction false} DistinctKeysTail<V>(a: Assoc<V>)
    requires a != [] && DistinctKeys(a)
    ensures DistinctKeys(a[1..]) && a[0].0 !in Keys(a[1..])
  {
    forall j | 0 <= j < |a[1..]| ensures Keys(a[1..])[j] != a[0].0 {
      KeysAt(a[1..], j);
    }
  }

  lemma {:induction false} PutDistinct<V>(a: Assoc<V>, k: string, v: V)
    requires DistinctKeys(a)
    ensures DistinctKeys(Put(a, k, v))
    decreases |a|
  {
    if a != [] {
      DistinctKeysTail(a);
      var p := Put(a, k, v);
      if a[0].0 == k {
        assert p[1..] == a[1..];
      } else {
        PutDistinct(a[1..], k, v);
        PutKeys(a[1..], k, v);
        assert p[1..] == Put(a[1..], k, v);
        forall j | 0 <= j < |p[1..]| ensures p[1..][j].0 != a[0].0 {
          KeysAt(p[1..], j);
        }
      }
      forall i, j | 0 <= i < j < |p| ensures p[i].0 != p[j].0 {
        if i > 0 { assert p[i] == p[1..][i - 1] && p[j] == p[1..][j - 1]; }
        else { assert p[j] == p[1..][j - 1]; }
      }
    }
  }

  /** What `array_merge($a, $b)` holds at a key: `$b`'s value where `$b` has one, else `$a`'s. */
  lemma {:induction false} MergeGet<V>(a: Assoc<V>, b: Assoc<V>, k: string)
    requires DistinctKeys(b)
    ensures Get(Merge(a, b), k) == if k in Keys(b) then Get(b, k) else Get(a, k)
    decreases |b|
  {
    if b != [] {
      DistinctKeysTail(b);
      MergeGet(Put(a, b[0].0, b[0].1), b[1..], k);
      PutGet(a, b[0].0, b[0].1, k);
    }
  }

  /** `array_merge` keeps the first array's keys in place and appends the new ones of the second. */
  lemma {:induction false} MergeKeysPrefix<V>(a: Assoc<V>, b: Assoc<V>)
    ensures |Keys(Merge(a, b))| >= |Keys(a)| && Keys(Merge(a, b))[..|a|] == Keys(a)
    ensures forall k :: k in Keys(Merge(a, b)) <==> k in Keys(a) || k in Keys(b)
    decreases |b|
  {
    if b != [] {
      var a' := Put(a, b[0].0, b[0].1);
      PutKeys(a, b[0].0, b[0].1);
      MergeKeysPrefix(a', b[1..]);
      assert Keys(a')[..|a|] == Keys(a);
      assert Keys(Merge(a, b))[..|a|] == Keys(Merge(a', b[1..]))[..|a'|][..|a|];
      forall k ensures k in Keys(b) <==> k == b[0].0 || k in Keys(b[1..]) {
      }
    }
  }
}
