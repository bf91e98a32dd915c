/**
 * Lists of records keyed by a string id, as the quiz document keeps its
 * participants (keyed by `participantId`) and each category's votes
 * (keyed by `voterId`). Both handlers look the key up with `find`, replace
 * the value of the record found, or else append a new record.
 */
module Keyed {
  import opened Wrappers

  datatype Record<V> = Record(key: string, value: V)

  function Keys<V>(s: seq<Record<V>>): (ks: seq<string>)
    ensures |ks| == |s| && forall i :: 0 <= i < |s| ==> ks[i] == s[i].key
  {
    seq(|s|, i requires 0 <= i < |s| => s[i].key)
  }

  /** At most one record per key. */
  ghost predicate UniqueKeys<V>(s: seq<Record<V>>) {
    forall i, j :: 0 <= i < j < |s| ==> s[i].key != s[j].key
  }

  /** The records whose key is not `k`, in their order. */
  function Without<V>(s: seq<Record<V>>, k: string): seq<Record<V>> {
    if s == [] then []
    else (if s[0].key == k then [] else [s[0]]) + Without(s[1..], k)
  }

  /** The value of the first record with key `k`. */
  function Lookup<V>(s: seq<Record<V>>, k: string): Option<V> {
    if s == [] then None
    else if s[0].key == k then Some(s[0].value)
    else Lookup(s[1..], k)
  }

  /** Replaces the value of the first record with key `k`, or appends a new record. */
  function Upsert<V>(s: seq<Record<V>>, k: string, v: V): (r: seq<Record<V>>)
    ensures |s| <= |r| <= |s| + 1
    ensures Record(k, v) in r
    ensures forall x :: x in r ==> x == Record(k, v) || x in s
  {
    if s == [] then [Record(k, v)]
    else if s[0].key == k then [Record(k, v)] + s[1..]
    else [s[0]] + Upsert(s[1..], k, v)
  }

  /** `Array.prototype.find` by key, as an index: the first match, or -1. */
  method Find<V>(s: seq<Record<V>>, k: string) returns (i: int)
    ensures -1 <= i < |s|
    ensures 0 <= i ==> s[i].key == k
    ensures forall j :: 0 <= j < |s| && (i < 0 || j < i) ==> s[j].key != k
  {
    i := 0;
    while i < |s|
      invariant 0 <= i <= |s|
      invariant forall j :: 0 <= j < i ==> s[j].key != k
    {
      if s[i].key == k {
        return;
      }
      i := i + 1;
    }
    i := -1;
  }

  /** When the first record with key `k` sits at `i`, the upsert overwrites exactly that slot. */
  lemma {:induction false} UpsertAt<V>(s: seq<Record<V>>, k: string, v: V, i: nat)
    requires i < |s| && s[i].key == k
    requires forall j :: 0 <= j < i ==> s[j].key != k
    ensures Upsert(s, k, v) == s[i := Record(k, v)]
  {
    if i > 0 {
      UpsertAt(s[1..], k, v, i - 1);
      assert s[i := Record(k, v)] == [s[0]] + s[1..][i - 1 := Record(k, v)];
    }
  }

  /** When no record has key `k`, the upsert appends one at the end. */
  lemma {:induction false} UpsertAbsent<V>(s: seq<Record<V>>, k: string, v: V)
    requires forall j :: 0 <= j < |s| ==> s[j].key != k
    ensures Upsert(s, k, v) == s + [Record(k, v)]
  {
    if s != [] {
      UpsertAbsent(s[1..], k, v);
      assert s + [Record(k, v)] == [s[0]] + (s[1..] + [Record(k, v)]);
    }
  }

  /** The key order is kept; a new key goes at the end. */
  lemma {:induction false} UpsertKeys<V>(s: seq<Record<V>>, k: string, v: V)
    ensures Keys(Upsert(s, k, v)) == if k in Keys(s) then Keys(s) else Keys(s) + [k]
    ensures |Upsert(s, k, v)| == if k in Keys(s) then |s| else |s| + 1
  {
    var r := Upsert(s, k, v);
    if s == [] {
      assert Keys(r) == [k];
    } else if s[0].key == k {
      assert r == [Record(k, v)] + s[1..];
      assert Keys(r) == Keys(s);
      assert Keys(s)[0] == k;
    } else {
      UpsertKeys(s[1..], k, v);
      assert r == [s[0]] + Upsert(s[1..], k, v);
      KeysCons(s[0], s[1..]);
      KeysCons(s[0], Upsert(s[1..], k, v));
    }
  }

  /** The keys of a record followed by a list. */
  lemma KeysCons<V>(x: Record<V>, s: seq<Record<V>>)
    ensures Keys([x] + s) == [x.key] + Keys(s)
  {
  }

  /** Records with other keys are untouched and keep their order. */
  lemma {:induction false} UpsertKeepsOthers<V>(s: seq<Record<V>>, k: string, v: V)
    ensures Without(Upsert(s, k, v), k) == Without(s, k)
  {
    if s == [] {
      assert Without([Record(k, v)], k) == [] + Without([], k);
    } else if s[0].key == k {
      var r := [Record(k, v)] + s[1..];
      assert r[1..] == s[1..];
    } else {
      UpsertKeepsOthers(s[1..], k, v);
      var r := [s[0]] + Upsert(s[1..], k, v);
      assert r[1..] == Upsert(s[1..], k, v);
    }
  }

  /** After the upsert, looking `k` up gives the new value; every other key looks up as before. */
  lemma {:induction false} UpsertLookup<V>(s: seq<Record<V>>, k: string, v: V, other: string)
    ensures Lookup(Upsert(s, k, v), k) == Some(v)
    ensures other != k ==> Lookup(Upsert(s, k, v), other) == Lookup(s, other)
  {
    if s != [] && s[0].key != k {
      UpsertLookup(s[1..], k, v, other);
      assert Upsert(s, k, v)[1..] == Upsert(s[1..], k, v);
    } else if s != [] {
      assert Upsert(s, k, v)[1..] == s[1..];
    }
  }

  /** With at most one record per key before, there is exactly one record with key `k` after, holding `v`. */
  lemma UpsertUnique<V>(s: seq<Record<V>>, k: string, v: V)
    requires UniqueKeys(s)
    ensures UniqueKeys(Upsert(s, k, v))
    ensures exists i :: 0 <= i < |Upsert(s, k, v)| && Upsert(s, k, v)[i] == Record(k, v)
    ensures forall i :: 0 <= i < |Upsert(s, k, v)| && Upsert(s, k, v)[i].key == k ==> Upsert(s, k, v)[i].value == v
  {
    var r := Upsert(s, k, v);
    if k in Keys(s) {
      var i :| 0 <= i < |s| && Keys(s)[i] == k;
      UpsertAt(s, k, v, i);
      assert r[i] == Record(k, v);
    } else {
      UpsertAbsent(s, k, v);
      assert r[|s|] == Record(k, v);
    }
  }

  /** Upserting twice under one key leaves only the second value. */
  lemma {:induction false} UpsertTwice<V>(s: seq<Record<V>>, k: string, v1: V, v2: V)
    ensures Upsert(Upsert(s, k, v1), k, v2) == Upsert(s, k, v2)
  {
    if s != [] && s[0].key != k {
      UpsertTwice(s[1..], k, v1, v2);
      var r := Upsert(s, k, v1);
      assert r[0] == s[0] && r[1..] == Upsert(s[1..], k, v1);
    }
  }
}
