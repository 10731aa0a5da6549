/** Python dictionaries as ordered association lists.  A Python `dict`
    remembers insertion order, and assigning to an existing key keeps that
    key's position; `Put` does exactly that. */
module Dicts {
  import opened Basics

  type Dict<V> = seq<(string, V)>

  function Keys<V>(d: Dict<V>): (ks: seq<string>)
    ensures |ks| == |d|
    ensures forall i {:trigger ks[i]} :: 0 <= i < |d| ==> ks[i] == d[i].0
  {
    if d == [] then [] else [d[0].0] + Keys(d[1..])
  }

  lemma KeysConcat<V>(a: Dict<V>, b: Dict<V>)
    ensures Keys(a + b) == Keys(a) + Keys(b)
  {
    var l, r := Keys(a + b), Keys(a) + Keys(b);
    assert |l| == |r|;
    forall i | 0 <= i < |l| ensures l[i] == r[i] {
      if i < |a| {
        assert (a + b)[i] == a[i];
      } else {
        assert (a + b)[i] == b[i - |a|];
      }
    }
  }

  predicate HasKey<V>(d: Dict<V>, k: string)
  {
    k in Keys(d)
  }

  /** `d.get(k)`: the value bound to `k`, or None. */
  function Get<V>(d: Dict<V>, k: string): (r: Option<V>)
    ensures r.None? <==> !HasKey(d, k)
  {
    if d == [] then None
    else if d[0].0 == k then Some(d[0].1)
    else
      assert Keys(d) == [d[0].0] + Keys(d[1..]);
      Get(d[1..], k)
  }

  /** `d.get(k, default)`. */
  function GetOr<V>(d: Dict<V>, k: string, default: V): V
  {
    match Get(d, k)
    case Some(v) => v
    case None => default
  }

  /** `d[k] = v`: replaces the binding of `k` in place, or appends it. */
  function Put<V>(d: Dict<V>, k: string, v: V): (r: Dict<V>)
    ensures Get(r, k) == Some(v)
    ensures Keys(r) == if HasKey(d, k) then Keys(d) else Keys(d) + [k]
  {
    if d == [] then [(k, v)]
    else if d[0].0 == k then
      var r := [(k, v)] + d[1..];
      assert r[1..] == d[1..];
      assert Keys(r) == [k] + Keys(d[1..]);
      r
    else
      var rest := Put(d[1..], k, v);
      var r := [d[0]] + rest;
      assert r[1..] == rest;
      assert Keys(d) == [d[0].0] + Keys(d[1..]);
      assert Keys(r) == [d[0].0] + Keys(rest);
      assert HasKey(d, k) == HasKey(d[1..], k);
      assert [d[0].0] + (Keys(d[1..]) + [k]) == ([d[0].0] + Keys(d[1..])) + [k];
      r
  }

  /** Assigning to `k` leaves every other key's value as it was. */
  lemma {:induction false} PutOther<V>(d: Dict<V>, k: string, v: V, other: string)
    requires other != k
    ensures Get(Put(d, k, v), other) == Get(d, other)
  {
    if d != [] && d[0].0 != k {
      PutOther(d[1..], k, v, other);
      assert Put(d, k, v)[1..] == Put(d[1..], k, v);
    } else if d != [] {
      assert Put(d, k, v)[1..] == d[1..];
    }
  }

  /** Building a dict by assigning the pairs one after another, as
      `{k: v for k, v in pairs}` does. */
  function FromPairs<V>(pairs: seq<(string, V)>): Dict<V>
  {
    PutAll([], pairs)
  }

  function PutAll<V>(d: Dict<V>, pairs: seq<(string, V)>): Dict<V>
    decreases |pairs|
  {
    if pairs == [] then d else PutAll(Put(d, pairs[0].0, pairs[0].1), pairs[1..])
  }

  /** Assigning fresh keys one after another only appends them, so a dict
      whose keys are already distinct is rebuilt unchanged. */
  lemma {:induction false} PutAllDistinct<V>(d: Dict<V>, pairs: seq<(string, V)>)
    requires Distinct(Keys(d + pairs))
    ensures PutAll(d, pairs) == d + pairs
    decreases |pairs|
  {
    if pairs != [] {
      var p := pairs[0];
      NextKeyFresh(d, pairs);
      PutAppend(d, p.0, p.1);
      ShiftFirst(d, pairs);
      PutAllDistinct(d + [p], pairs[1..]);
    }
  }

  lemma ShiftFirst<T>(a: seq<T>, b: seq<T>)
    requires b != []
    ensures (a + [b[0]]) + b[1..] == a + b
  {
    assert b == [b[0]] + b[1..];
  }

  /** With distinct keys overall, the first pair's key is not yet in `d`. */
  lemma NextKeyFresh<V>(d: Dict<V>, pairs: seq<(string, V)>)
    requires pairs != [] && Distinct(Keys(d + pairs))
    ensures !HasKey(d, pairs[0].0)
  {
    var ks := Keys(d + pairs);
    forall i | 0 <= i < |d| ensures Keys(d)[i] != pairs[0].0 {
      assert (d + pairs)[i] == d[i];
      assert (d + pairs)[|d|] == pairs[0];
      assert ks[i] != ks[|d|];
    }
  }

  lemma {:induction false} PutAppend<V>(d: Dict<V>, k: string, v: V)
    requires !HasKey(d, k)
    ensures Put(d, k, v) == d + [(k, v)]
  {
    if d != [] {
      HasKeyCons(d, k);
      PutAppend(d[1..], k, v);
      ConsAppend(d, (k, v));
    }
  }

  /** A key is in a non-empty dict when it is the first key or in the rest. */
  lemma HasKeyCons<V>(d: Dict<V>, k: string)
    requires d != []
    ensures HasKey(d, k) <==> d[0].0 == k || HasKey(d[1..], k)
  {
    assert Keys(d) == [d[0].0] + Keys(d[1..]);
  }

  lemma ConsAppend<T>(d: seq<T>, x: T)
    requires d != []
    ensures [d[0]] + (d[1..] + [x]) == d + [x]
  {
  }

  lemma FromPairsDistinct<V>(pairs: seq<(string, V)>)
    requires Distinct(Keys(pairs))
    ensures FromPairs(pairs) == pairs
  {
    var empty: Dict<V> := [];
    assert empty + pairs == pairs;
    PutAllDistinct(empty, pairs);
  }
  /** `{k2: v for k2, v in d.items() if k2 != k}`. */
  function RemoveKey<V>(d: Dict<V>, k: string): (r: Dict<V>)
    ensures !HasKey(r, k)
    ensures |r| <= |d|
  {
    if d == [] then []
    else
      var rest := RemoveKey(d[1..], k);
      if d[0].0 == k then rest
      else
        var r := [d[0]] + rest;
        assert r[1..] == rest;
        assert Keys(r) == [d[0].0] + Keys(rest);
        r
  }

  /** Removing `k` leaves the value of every other key as it was. */
  lemma {:induction false} RemoveKeyOther<V>(d: Dict<V>, k: string, other: string)
    requires other != k
    ensures Get(RemoveKey(d, k), other) == Get(d, other)
  {
    if d != [] {
      RemoveKeyOther(d[1..], k, other);
      if d[0].0 != k {
        assert RemoveKey(d, k)[1..] == RemoveKey(d[1..], k);
      }
    }
  }
}
