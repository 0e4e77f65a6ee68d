/** Association lists: the model of a Python `dict`, whose keys are kept in
    insertion order. Lookups find the first entry with the key. */
module Assoc {

  datatype Option<+T> = None | Some(value: T)

  /** `d.get(k)`: the value stored under `k`, `None` when absent. */
  function Find<V>(d: seq<(string, V)>, k: string): (r: Option<V>)
    ensures r.Some? <==> Contains(d, k)
    ensures r.Some? ==> exists i :: 0 <= i < |d| && d[i] == (k, r.value)
  {
    if |d| == 0 then None
    else if d[0].0 == k then Some(d[0].1)
    else
      var r := Find(d[1..], k);
      ContainsTail(d, k);
      r
  }

  /** `k in d`. */
  predicate Contains<V>(d: seq<(string, V)>, k: string) {
    exists i :: 0 <= i < |d| && d[i].0 == k
  }

  /** A key that is not first is in the rest, and the converse. */
  lemma ContainsTail<V>(d: seq<(string, V)>, k: string)
    requires |d| > 0 && d[0].0 != k
    ensures Contains(d, k) <==> Contains(d[1..], k)
  {
    if Contains(d, k) {
      var i :| 0 <= i < |d| && d[i].0 == k;
      assert d[1..][i - 1].0 == k;
    }
    if Contains(d[1..], k) {
      var i :| 0 <= i < |d[1..]| && d[1..][i].0 == k;
      assert d[i + 1].0 == k;
    }
  }

  /** No key occurs twice, as in any Python dict. */
  predicate UniqueKeys<V>(d: seq<(string, V)>) {
    forall i, j :: 0 <= i < j < |d| ==> d[i].0 != d[j].0
  }

  /** The keys of `d`, in order. */
  function Keys<V>(d: seq<(string, V)>): (r: seq<string>)
    ensures |r| == |d|
    ensures forall i :: 0 <= i < |d| ==> r[i] == d[i].0
  {
    seq(|d|, i requires 0 <= i < |d| => d[i].0)
  }

  lemma KeysAppend<V>(d: seq<(string, V)>, k: string, v: V)
    ensures Keys(d + [(k, v)]) == Keys(d) + [k]
  {
  }

  /** `d[k] = v`: an existing key keeps its position, a new key goes last. */
  function Put<V>(d: seq<(string, V)>, k: string, v: V): (r: seq<(string, V)>)
    ensures Find(r, k) == Some(v)
    ensures forall k' :: k' != k ==> Find(r, k') == Find(d, k')
    ensures Contains(d, k) ==> Keys(r) == Keys(d)
    ensures !Contains(d, k) ==> r == d + [(k, v)]
  {
    if |d| == 0 then [(k, v)]
    else if d[0].0 == k then
      PutHere(d, k, v);
      [(k, v)] + d[1..]
    else
      var rest := Put(d[1..], k, v);
      PutBehind(d, k, v, rest);
      [d[0]] + rest
  }

  /** `d[k] = v` adds no key but `k`. */
  lemma PutContains<V>(d: seq<(string, V)>, k: string, v: V)
    ensures forall k' :: Contains(Put(d, k, v), k') ==> Contains(d, k') || k' == k
  {
    forall k' | Contains(Put(d, k, v), k') && k' != k ensures Contains(d, k') {
      assert Find(Put(d, k, v), k') == Find(d, k');
    }
  }

  /** Overwriting the first key. */
  lemma PutHere<V>(d: seq<(string, V)>, k: string, v: V)
    requires |d| > 0 && d[0].0 == k
    ensures var r := [(k, v)] + d[1..];
      && Find(r, k) == Some(v)
      && (forall k' :: k' != k ==> Find(r, k') == Find(d, k'))
      && Keys(r) == Keys(d)
  {
    var r := [(k, v)] + d[1..];
    assert r[1..] == d[1..];
  }

  /** Putting behind a first key that differs. */
  lemma PutBehind<V>(d: seq<(string, V)>, k: string, v: V, rest: seq<(string, V)>)
    requires |d| > 0 && d[0].0 != k
    requires Find(rest, k) == Some(v)
    requires forall k' :: k' != k ==> Find(rest, k') == Find(d[1..], k')
    requires Contains(d[1..], k) ==> Keys(rest) == Keys(d[1..])
    requires !Contains(d[1..], k) ==> rest == d[1..] + [(k, v)]
    ensures var r := [d[0]] + rest;
      && Find(r, k) == Some(v)
      && (forall k' :: k' != k ==> Find(r, k') == Find(d, k'))
      && (Contains(d, k) ==> Keys(r) == Keys(d))
      && (!Contains(d, k) ==> r == d + [(k, v)])
  {
    ContainsTail(d, k);
    FindCons(d, rest);
    if Contains(d, k) {
      KeysBehind(d, rest);
    } else {
      AppendCons(d, (k, v));
    }
  }

  /** A lookup behind the same first entry goes on in the rest. */
  lemma FindCons<V>(d: seq<(string, V)>, rest: seq<(string, V)>)
    requires |d| > 0
    ensures forall k' :: k' != d[0].0 ==> Find([d[0]] + rest, k') == Find(rest, k')
    ensures forall k' :: k' != d[0].0 ==> Find(d, k') == Find(d[1..], k')
  {
    assert ([d[0]] + rest)[1..] == rest;
  }

  lemma AppendCons<V>(d: seq<(string, V)>, x: (string, V))
    requires |d| > 0
    ensures d + [x] == [d[0]] + (d[1..] + [x])
  {
  }

  /** The same first entry in front of lists with the same keys. */
  lemma KeysBehind<V>(d: seq<(string, V)>, rest: seq<(string, V)>)
    requires |d| > 0 && Keys(rest) == Keys(d[1..])
    ensures Keys([d[0]] + rest) == Keys(d)
  {
    KeysCons(d[0], rest);
    KeysCons(d[0], d[1..]);
    assert d == [d[0]] + d[1..];
  }

  lemma KeysCons<V>(x: (string, V), d: seq<(string, V)>)
    ensures Keys([x] + d) == [x.0] + Keys(d)
  {
  }
}
