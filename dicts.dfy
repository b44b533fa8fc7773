/** Python's `dict` with string keys: iteration follows the order in which
    keys were first inserted, and assigning to an existing key replaces its
    value in place. */
module Dicts {
  import opened Wrappers

  type Dict<V> = seq<(string, V)>

  function Lookup<V>(d: Dict<V>, k: string): Option<V>
  {
    if d == [] then None
    else if d[0].0 == k then Some(d[0].1)
    else Lookup(d[1..], k)
  }

  /** The keys, in iteration order. */
  function Keys<V>(d: Dict<V>): (ks: seq<string>)
    ensures |ks| == |d|
  {
    if d == [] then [] else [d[0].0] + Keys(d[1..])
  }

  /** `d[k] = v`: an existing key keeps its place, a new key goes last. */
  function Put<V>(d: Dict<V>, k: string, v: V): (r: Dict<V>)
    ensures |r| == |d| + (if Lookup(d, k).Some? then 0 else 1)
  {
    if d == [] then [(k, v)]
    else if d[0].0 == k then [(k, v)] + d[1..]
    else [d[0]] + Put(d[1..], k, v)
  }

  /** Writing a key changes the lookup of that key only. */
  lemma {:induction false} PutLookup<V>(d: Dict<V>, k: string, v: V, k': string)
    ensures Lookup(Put(d, k, v), k') == if k' == k then Some(v) else Lookup(d, k')
  {
    if d != [] && d[0].0 != k {
      PutLookup(d[1..], k, v, k');
    }
  }

  /** A key is present exactly when it is among the keys. */
  lemma {:induction false} LookupKeys<V>(d: Dict<V>, k: string)
    ensures Lookup(d, k).Some? <==> k in Keys(d)
  {
    if d != [] {
      LookupKeys(d[1..], k);
    }
  }

  /** Writing a new key appends it to the iteration order; writing an
      existing key leaves the order alone. */
  lemma {:induction false} PutKeys<V>(d: Dict<V>, k: string, v: V)
    ensures Keys(Put(d, k, v)) == Keys(d) + (if k in Keys(d) then [] else [k])
  {
    if d != [] && d[0].0 != k {
      PutKeys(d[1..], k, v);
    }
  }

  /** The dictionary after assigning the pairs of `kvs` in order. */
  function PutAll<V>(d: Dict<V>, kvs: seq<(string, V)>): Dict<V>
  {
    if kvs == [] then d
    else Put(PutAll(d, kvs[..|kvs| - 1]), kvs[|kvs| - 1].0, kvs[|kvs| - 1].1)
  }

  /** One more pair: its put comes after those of the pairs before it. */
  lemma PutAllStep<V>(d: Dict<V>, kvs: seq<(string, V)>, i: nat)
    requires i < |kvs|
    ensures PutAll(d, kvs[..i + 1]) == Put(PutAll(d, kvs[..i]), kvs[i].0, kvs[i].1)
  {
    assert kvs[..i + 1][..i] == kvs[..i];
  }

  /** Starting empty, a key is present exactly when some pair assigns it. */
  lemma {:induction false} PutAllKeys<V>(kvs: seq<(string, V)>, k: string)
    ensures Lookup(PutAll([], kvs), k).Some? <==> exists i :: 0 <= i < |kvs| && kvs[i].0 == k
  {
    if kvs != [] {
      var front := kvs[..|kvs| - 1];
      PutAllKeys(front, k);
      PutLookup(PutAll([], front), kvs[|kvs| - 1].0, kvs[|kvs| - 1].1, k);
      if exists i :: 0 <= i < |kvs| && kvs[i].0 == k {
        var i :| 0 <= i < |kvs| && kvs[i].0 == k;
        if i < |kvs| - 1 {
          assert front[i].0 == k;
        }
      }
    }
  }

  /** The last assignment to a key wins. */
  lemma {:induction false} PutAllLastWins<V>(d: Dict<V>, kvs: seq<(string, V)>, i: nat)
    requires i < |kvs|
    requires forall j :: i < j < |kvs| ==> kvs[j].0 != kvs[i].0
    ensures Lookup(PutAll(d, kvs), kvs[i].0) == Some(kvs[i].1)
  {
    var front := kvs[..|kvs| - 1];
    PutLookup(PutAll(d, front), kvs[|kvs| - 1].0, kvs[|kvs| - 1].1, kvs[i].0);
    if i < |kvs| - 1 {
      assert front[i] == kvs[i];
      PutAllLastWins(d, front, i);
    }
  }
}
