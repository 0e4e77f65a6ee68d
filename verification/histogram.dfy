/** Counters kept in Python dictionaries (`d[k] = d.get(k, 0) + 1`,
    `defaultdict(int)`, `Counter`): an association list from key to count
    whose keys appear in the order they were first counted. */
module Histogram {

  type Hist<K> = seq<(K, nat)>

  /** The count stored for `k`, or 0 when `k` was never counted. */
  function Count<K(==)>(h: Hist<K>, k: K): nat {
    if |h| == 0 then 0
    else if h[0].0 == k then h[0].1
    else Count(h[1..], k)
  }

  /** The sum of all counts (`sum(d.values())`). */
  function Total<K>(h: Hist<K>): nat {
    if |h| == 0 then 0 else h[0].1 + Total(h[1..])
  }

  predicate HasKey<K(==)>(h: Hist<K>, k: K) {
    exists i :: 0 <= i < |h| && h[i].0 == k
  }

  /** No key occurs twice, as in any Python dictionary. */
  predicate DistinctKeys<K(==)>(h: Hist<K>) {
    forall i, j :: 0 <= i < j < |h| ==> h[i].0 != h[j].0
  }

  /** `d[k] += n` on a counter that starts missing keys at 0. */
  function Add<K(==,!new)>(h: Hist<K>, k: K, n: nat): (r: Hist<K>)
    ensures Total(r) == Total(h) + n
    ensures Count(r, k) == Count(h, k) + n
    ensures forall k' :: k' != k ==> Count(r, k') == Count(h, k')
    ensures forall k' :: HasKey(r, k') <==> HasKey(h, k') || k' == k
    ensures DistinctKeys(h) ==> DistinctKeys(r)
    ensures !HasKey(h, k) ==> r == h + [(k, n)]
  {
    if |h| == 0 then [(k, n)]
    else if h[0].0 == k then [(k, h[0].1 + n)] + h[1..]
    else
      var rest := Add(h[1..], k, n);
      var r := [h[0]] + rest;
      assert r[1..] == rest;
      HasKeyCons(h);
      HasKeyCons(r);
      DistinctCons(h);
      DistinctCons(r);
      r
  }

  /** `d[k] = d.get(k, 0) + 1`. */
  function Bump<K(==,!new)>(h: Hist<K>, k: K): (r: Hist<K>)
    ensures Total(r) == Total(h) + 1
    ensures Count(r, k) == Count(h, k) + 1
    ensures forall k' :: k' != k ==> Count(r, k') == Count(h, k')
    ensures forall k' :: HasKey(r, k') <==> HasKey(h, k') || k' == k
    ensures DistinctKeys(h) ==> DistinctKeys(r)
  {
    Add(h, k, 1)
  }

  /** The counter a loop builds by counting `ks` in order, one `Bump` per element. */
  function FromSeq<K(==,!new)>(ks: seq<K>): Hist<K>
    decreases |ks|
  {
    if |ks| == 0 then [] else Bump(FromSeq(ks[..|ks| - 1]), ks[|ks| - 1])
  }

  /** Counting `ks` in order counts each element once: the counts are the
      multiplicities, the keys are the distinct elements. */
  lemma {:induction false} FromSeqCounts<K(!new)>(ks: seq<K>)
    ensures Total(FromSeq(ks)) == |ks|
    ensures DistinctKeys(FromSeq(ks))
    ensures forall k :: Count(FromSeq(ks), k) == multiset(ks)[k]
    ensures forall k :: HasKey(FromSeq(ks), k) <==> k in ks
    decreases |ks|
  {
    if |ks| > 0 {
      var init := ks[..|ks| - 1];
      assert ks == init + [ks[|ks| - 1]];
      FromSeqCounts(init);
    }
  }

  /** A counter has `k` iff its first key is `k` or its tail has `k`. */
  lemma HasKeyCons<K>(h: Hist<K>)
    requires |h| > 0
    ensures forall k :: HasKey(h, k) <==> h[0].0 == k || HasKey(h[1..], k)
  {
    forall k ensures HasKey(h, k) <==> h[0].0 == k || HasKey(h[1..], k) {
      if HasKey(h[1..], k) {
        var i :| 0 <= i < |h[1..]| && h[1..][i].0 == k;
        assert h[i + 1].0 == k;
      }
    }
  }

  /** Distinct keys, stated one entry at a time. */
  lemma DistinctCons<K>(h: Hist<K>)
    requires |h| > 0
    ensures DistinctKeys(h) <==> !HasKey(h[1..], h[0].0) && DistinctKeys(h[1..])
  {
    if !HasKey(h[1..], h[0].0) && DistinctKeys(h[1..]) {
      forall i, j | 0 <= i < j < |h| ensures h[i].0 != h[j].0 {
        if i == 0 {
          assert h[1..][j - 1].0 == h[j].0;
        } else {
          assert h[1..][i - 1].0 == h[i].0 && h[1..][j - 1].0 == h[j].0;
        }
      }
    }
  }

  /** A key that was never counted reads as 0. */
  lemma {:induction false} CountAbsent<K>(h: Hist<K>, k: K)
    requires !HasKey(h, k)
    ensures Count(h, k) == 0
  {
    if |h| > 0 {
      HasKeyCons(h);
      CountAbsent(h[1..], k);
    }
  }

  /** In a counter with distinct keys, the count of a key is its entry. */
  lemma {:induction false} CountAt<K>(h: Hist<K>, i: nat)
    requires DistinctKeys(h)
    requires i < |h|
    ensures Count(h, h[i].0) == h[i].1
  {
    if i > 0 {
      assert h[0].0 != h[i].0;
      assert h[1..][i - 1] == h[i];
      CountAt(h[1..], i - 1);
    }
  }

  lemma TotalAppend<K>(a: Hist<K>, b: Hist<K>)
    ensures Total(a + b) == Total(a) + Total(b)
  {
    if |a| == 0 {
      assert a + b == b;
    } else {
      assert (a + b)[1..] == a[1..] + b;
      TotalAppend(a[1..], b);
    }
  }

  /** Counting every element of `ks`, in order, on top of `h`. */
  function BumpAll<K(==,!new)>(h: Hist<K>, ks: seq<K>): Hist<K>
    decreases |ks|
  {
    if |ks| == 0 then h else Bump(BumpAll(h, ks[..|ks| - 1]), ks[|ks| - 1])
  }

  /** Each element of `ks` adds one to its own count. */
  lemma {:induction false} BumpAllCounts<K(!new)>(h: Hist<K>, ks: seq<K>)
    ensures Total(BumpAll(h, ks)) == Total(h) + |ks|
    ensures forall k :: Count(BumpAll(h, ks), k) == Count(h, k) + multiset(ks)[k]
    decreases |ks|
  {
    if |ks| > 0 {
      var init := ks[..|ks| - 1];
      assert ks == init + [ks[|ks| - 1]];
      BumpAllCounts(h, init);
    }
  }
}
