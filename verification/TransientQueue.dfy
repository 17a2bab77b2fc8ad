/**
  The transient store behind the error queue: marshalled errors under big-endian keys.
  A prefix iteration gives back the queued errors themselves, in the order their ids
  were handed out.
 */
module TransientQueue {
  import opened Machine
  import opened SudoErrorCodec
  import opened Chain

  // ---------------------------------------------------------------- keys

  /** The low `k` bytes of `n`, most significant first. */
  function BigEndian(n: nat, k: nat): (r: seq<Byte>)
    ensures |r| == k
  {
    if k == 0 then [] else BigEndian(n / 256, k - 1) + [n % 256]
  }

  const PREFIX: seq<Byte> := [0x00]

  /** GetErrorsForSudoCallStoreKey. */
  function StoreKey(id: nat): (r: seq<Byte>) {
    PREFIX + BigEndian(id, 8)
  }

  /** The order of store iterators: bytes.Compare(a, b) < 0. */
  predicate Before(a: seq<Byte>, b: seq<Byte>) {
    if b == [] then false
    else if a == [] then true
    else if a[0] != b[0] then a[0] < b[0]
    else Before(a[1..], b[1..])
  }

  lemma {:induction false} BeforeAppend(a: seq<Byte>, b: seq<Byte>, x: Byte, y: Byte)
    requires |a| == |b|
    ensures Before(a + [x], b + [y]) <==> Before(a, b) || (a == b && x < y)
  {
    if a != [] {
      BeforeAppend(a[1..], b[1..], x, y);
      assert (a + [x])[1..] == a[1..] + [x] && (b + [y])[1..] == b[1..] + [y];
      assert a == b <==> a[0] == b[0] && a[1..] == b[1..];
    }
  }

  function Pow256(k: nat): (r: nat) {
    if k == 0 then 1 else 256 * Pow256(k - 1)
  }

  /** Equal-length big-endian numbers compare as the numbers do. */
  lemma {:induction false} BigEndianOrder(m: nat, n: nat, k: nat)
    requires m < Pow256(k) && n < Pow256(k)
    ensures Before(BigEndian(m, k), BigEndian(n, k)) <==> m < n
    ensures BigEndian(m, k) == BigEndian(n, k) <==> m == n
  {
    if k > 0 {
      var a, b := BigEndian(m / 256, k - 1), BigEndian(n / 256, k - 1);
      BigEndianOrder(m / 256, n / 256, k - 1);
      BeforeAppend(a, b, m % 256, n % 256);
      var u, v := BigEndian(m, k), BigEndian(n, k);
      assert u == a + [m % 256] && v == b + [n % 256];
      if u == v {
        assert a == u[..k - 1] && b == v[..k - 1];
        assert u[k - 1] == m % 256 && v[k - 1] == n % 256;
      }
    }
  }

  /** Delivery order: for all uint64 ids the keys are distinct and sort as the ids. */
  lemma KeyOrderIsIdOrder(m: nat, n: nat)
    requires m < TWO64 && n < TWO64
    ensures Before(StoreKey(m), StoreKey(n)) <==> m < n
    ensures StoreKey(m) == StoreKey(n) <==> m == n
  {
    assert Pow256(4) == TWO32;
    assert Pow256(8) == 256 * 256 * 256 * 256 * Pow256(4) == TWO64;
    BigEndianOrder(m, n, 8);
    assert StoreKey(m)[1..] == BigEndian(m, 8) && StoreKey(n)[1..] == BigEndian(n, 8);
  }

  // ---------------------------------------------------------------- the store

  /** Errors and ids that fit the source's types. */
  ghost predicate Storable(q: map<nat, SudoError>) {
    forall id :: id in q ==> id < TWO64 && IsInt32(q[id].errorCode) && |Encode(q[id])| < TWO63
  }

  /** `keys` is what a prefix iterator walks: every key once, in byte order. */
  ghost predicate Iterates(keys: seq<seq<Byte>>, store: map<seq<Byte>, seq<Byte>>) {
    && (forall k :: k in keys <==> k in store)
    && (forall i, j :: 0 <= i < j < |keys| ==> Before(keys[i], keys[j]))
  }

  class TransientStore {
    var store: map<seq<Byte>, seq<Byte>>

    constructor ()
      ensures Holds(map[])
    {
      store := map[];
    }

    /** The store holds exactly the marshalled queue. */
    ghost predicate Holds(q: map<nat, SudoError>)
      reads this
    {
      && Storable(q)
      && (forall id :: id in q ==> StoreKey(id) in store && store[StoreKey(id)] == Encode(q[id]))
      && (forall k :: k in store ==> exists id :: id in q && StoreKey(id) == k)
    }

    /** SetSudoErrorCallback. */
    method SetSudoErrorCallback(id: nat, err: SudoError, ghost q: map<nat, SudoError>)
      requires Holds(q)
      requires id < TWO64 && IsInt32(err.errorCode) && |Encode(err)| < TWO63
      modifies this
      ensures Holds(q[id := err])
    {
      hide Encode, StoreKey;
      var bytes := Marshal(err);
      store := store[StoreKey(id) := bytes];
      forall j | j in q && j != id
        ensures StoreKey(j) != StoreKey(id)
      {
        KeyOrderIsIdOrder(j, id);
      }
      forall k | k in store
        ensures exists j :: j in q[id := err] && StoreKey(j) == k
      {
        if k == StoreKey(id) {
          assert id in q[id := err];
        } else {
          var j :| j in q && StoreKey(j) == k;
          assert j in q[id := err];
        }
      }
    }

    /**
      GetAllSudoErrorCallbacks and IterateSudoErrorCallbacks: the queued errors themselves,
      in the id order in which the error EndBlocker delivers them.
     */
    method GetAllSudoErrorCallbacks(keys: seq<seq<Byte>>, ghost q: map<nat, SudoError>)
      returns (errs: seq<SudoError>)
      requires Holds(q) && Iterates(keys, store)
      ensures var ids := Increasing(q.Keys);
              |errs| == |ids| && forall i :: 0 <= i < |ids| ==> errs[i] == q[ids[i]]
    {
      hide Encode, StoreKey, Parse, Before, Increasing;
      errs := [];
      ghost var ids: seq<nat> := [];
      var i := 0;
      while i < |keys|
        invariant 0 <= i <= |keys| && |errs| == |ids| == i
        invariant forall j :: 0 <= j < i ==> ids[j] in q && StoreKey(ids[j]) == keys[j] && errs[j] == q[ids[j]]
      {
        assert keys[i] in keys;
        ghost var id :| id in q && StoreKey(id) == keys[i];
        RoundTrip(q[id]);
        var parsed := Unmarshal(EMPTY, store[keys[i]]);
        errs := errs + [parsed.m];
        ids := ids + [id];
        i := i + 1;
      }
      KeysInIdOrder(keys, ids, q.Keys);
    }
  }

  /** The ids behind the ordered keys of a store are the queued ids in increasing order. */
  lemma KeysInIdOrder(keys: seq<seq<Byte>>, ids: seq<nat>, queued: set<nat>)
    requires |keys| == |ids| && forall id :: id in queued ==> id < TWO64 && StoreKey(id) in keys
    requires forall i, j :: 0 <= i < j < |keys| ==> Before(keys[i], keys[j])
    requires forall j :: 0 <= j < |ids| ==> ids[j] in queued && StoreKey(ids[j]) == keys[j]
    ensures ids == Increasing(queued)
  {
    hide StoreKey, Before, Increasing;
    forall j, k | 0 <= j < k < |ids|
      ensures ids[j] < ids[k]
    {
      assert Before(keys[j], keys[k]);
      KeyOrderIsIdOrder(ids[j], ids[k]);
    }
    forall id | id in queued
      ensures id in ids
    {
      var j :| 0 <= j < |keys| && keys[j] == StoreKey(id);
      KeyOrderIsIdOrder(ids[j], id);
    }
    SameOrder(ids, Increasing(queued));
  }

  /** Two increasing lists with the same members are the same list. */
  lemma {:induction false} SameOrder(a: seq<nat>, b: seq<nat>)
    requires forall i, j :: 0 <= i < j < |a| ==> a[i] < a[j]
    requires forall i, j :: 0 <= i < j < |b| ==> b[i] < b[j]
    requires forall x :: x in a <==> x in b
    ensures a == b
    decreases |a|
  {
    assert b != [] ==> b[0] in b;
    if a != [] {
      var la := a[|a| - 1];
      assert la in b;
      var lb := b[|b| - 1];
      assert lb in a;
      assert la == lb;
      var ia, ib := a[..|a| - 1], b[..|b| - 1];
      assert forall x :: x in a <==> x in ia || x == la;
      assert forall x :: x in b <==> x in ib || x == lb;
      assert la !in ia && lb !in ib;
      SameOrder(ia, ib);
      assert a == ia + [la] && b == ib + [lb];
    }
  }
}
