/** JavaScript's `undefined`/`null` versus a present value. */
module Optional {
  datatype Option<+T> = None | Some(value: T)
}

/**
 * The own properties of a JavaScript object (or of an array used with
 * string keys), in insertion order.  This is the order in which
 * `Object.values`, `Object.keys` and `forEach` visit them: assigning to a key
 * that is already present updates it in place, assigning to a new key appends
 * it, and `delete` removes it.
 */
module JsObject {
  import opened Optional

  /** Property names: every object in this system is keyed by strings. */
  type Key = string

  datatype Prop<V> = Prop(key: Key, val: V)

  /** No key occurs twice: every real object satisfies this. */
  predicate Distinct<V>(o: seq<Prop<V>>)
  {
    forall i, j :: 0 <= i < j < |o| ==> o[i].key != o[j].key
  }

  /** `o[k]`: the value stored under `k`, or None when `k` is absent. */
  function Get<V>(o: seq<Prop<V>>, k: Key): (r: Option<V>)
    ensures r.None? <==> forall i :: 0 <= i < |o| ==> o[i].key != k
    ensures r.Some? ==> exists i :: 0 <= i < |o| && o[i] == Prop(k, r.value)
  {
    if o == [] then None
    else if o[0].key == k then Some(o[0].val)
    else
      var r := Get(o[1..], k);
      assert r.Some? ==> exists i :: 0 <= i < |o| && o[i] == Prop(k, r.value) by {
        if r.Some? {
          var i :| 0 <= i < |o[1..]| && o[1..][i] == Prop(k, r.value);
          assert o[i + 1] == Prop(k, r.value);
        }
      }
      r
  }

  /** In an object with distinct keys, the entry at any position is what Get finds. */
  lemma {:induction false} GetAt<V>(o: seq<Prop<V>>, i: nat)
    requires Distinct(o) && i < |o|
    ensures Get(o, o[i].key) == Some(o[i].val)
  {
    if i > 0 {
      assert o[1..][i - 1] == o[i];
      GetAt(o[1..], i - 1);
    }
  }

  /** The object's values in property order (`Object.values`). */
  function Values<V>(o: seq<Prop<V>>): (r: seq<V>)
    ensures |r| == |o|
    ensures forall i :: 0 <= i < |o| ==> r[i] == o[i].val
  {
    seq(|o|, i requires 0 <= i < |o| => o[i].val)
  }

  /** `o[k] = v`: updates `k` in place when present, appends it otherwise. */
  function Put<V>(o: seq<Prop<V>>, k: Key, v: V): (r: seq<Prop<V>>)
    ensures Get(r, k) == Some(v)
    ensures forall j :: j != k ==> Get(r, j) == Get(o, j)
    ensures |r| == if Get(o, k).Some? then |o| else |o| + 1
    ensures forall i :: 0 <= i < |o| ==> r[i].key == o[i].key
  {
    if o == [] then [Prop(k, v)]
    else if o[0].key == k then [Prop(k, v)] + o[1..]
    else
      var rest := Put(o[1..], k, v);
      var r := [o[0]] + rest;
      assert r[1..] == rest;
      assert forall i :: 0 < i < |o| ==> r[i] == rest[i - 1] && o[i] == o[1..][i - 1];
      r
  }

  /** Prepending a property whose key is absent keeps the keys distinct. */
  lemma DistinctCons<V>(x: Prop<V>, rest: seq<Prop<V>>)
    requires Distinct(rest) && Get(rest, x.key).None?
    ensures Distinct([x] + rest)
  {
    var r := [x] + rest;
    forall i, j | 0 <= i < j < |r| ensures r[i].key != r[j].key {
      assert r[j] == rest[j - 1];
      if i > 0 { assert r[i] == rest[i - 1]; }
    }
  }

  /** Assigning a property keeps the keys distinct. */
  lemma {:induction false} PutDistinct<V>(o: seq<Prop<V>>, k: Key, v: V)
    requires Distinct(o)
    ensures Distinct(Put(o, k, v))
  {
    if o == [] {
    } else if o[0].key == k {
      DistinctCons(Prop(k, v), o[1..]);
    } else {
      assert Distinct(o[1..]);
      PutDistinct(o[1..], k, v);
      var rest := Put(o[1..], k, v);
      assert Put(o, k, v) == [o[0]] + rest;
      assert Get(o[1..], o[0].key).None?;
      DistinctCons(o[0], rest);
    }
  }

  /** `delete o[k]`: removes `k` and keeps every other property in order. */
  function Delete<V>(o: seq<Prop<V>>, k: Key): (r: seq<Prop<V>>)
    ensures Get(r, k).None?
    ensures forall j :: j != k ==> Get(r, j) == Get(o, j)
  {
    if o == [] then []
    else if o[0].key == k then Delete(o[1..], k)
    else [o[0]] + Delete(o[1..], k)
  }

  /** Deleting keeps the keys distinct and removes exactly one property when `k` was present. */
  lemma {:induction false} DeleteDistinct<V>(o: seq<Prop<V>>, k: Key)
    requires Distinct(o)
    ensures Distinct(Delete(o, k))
    ensures |Delete(o, k)| == if Get(o, k).Some? then |o| - 1 else |o|
  {
    if o != [] {
      assert Distinct(o[1..]);
      DeleteDistinct(o[1..], k);
      if o[0].key == k {
        assert Get(o[1..], k).None?;
      } else {
        assert Get(o[1..], o[0].key).None?;
        DistinctCons(o[0], Delete(o[1..], k));
      }
    }
  }

  /** Writing the same value twice is the same as writing it once. */
  lemma {:induction false} PutTwice<V>(o: seq<Prop<V>>, k: Key, v: V)
    ensures Put(Put(o, k, v), k, v) == Put(o, k, v)
  {
    if o != [] && o[0].key != k {
      PutTwice(o[1..], k, v);
      assert Put(o, k, v)[1..] == Put(o[1..], k, v);
    }
  }

  /** A property list is empty exactly when it has no key. */
  lemma EmptyIffNoKey<V>(o: seq<Prop<V>>)
    ensures o == [] <==> forall k :: Get(o, k).None?
  {
    if o != [] {
      assert Get(o, o[0].key).Some?;
    }
  }
}
