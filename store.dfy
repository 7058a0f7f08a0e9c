/** The document store: one map from id to record per collection. Ids are
    drawn from one counter, so every stored id is below `nextId` and a
    query lists its matches in the order they were created. */
module Store {
  import opened Common
  import opened Models

  class Db {
    var users: map<Id, User>
    var medications: map<Id, Medication>
    var reminders: map<Id, Reminder>
    var prescriptions: map<Id, Prescription>
    var inventory: map<Id, InventoryItem>
    var nextId: Id

    ghost predicate Valid()
      reads this
    {
      Below(users, nextId) && Below(medications, nextId) && Below(reminders, nextId) &&
      Below(prescriptions, nextId) && Below(inventory, nextId)
    }

    constructor ()
      ensures Valid()
      ensures users == map[] && medications == map[] && reminders == map[]
      ensures prescriptions == map[] && inventory == map[] && nextId == 0
    {
      users, medications, reminders := map[], map[], map[];
      prescriptions, inventory := map[], map[];
      nextId := 0;
    }

    /** A fresh id, used by no collection. */
    method Allocate() returns (id: Id)
      requires Valid()
      modifies this`nextId
      ensures Valid()
      ensures id == old(nextId) && nextId == id + 1
      ensures id !in users && id !in medications && id !in reminders
      ensures id !in prescriptions && id !in inventory
    {
      id := nextId;
      nextId := nextId + 1;
    }
  }

  /** Every key of `m` is below `n`. */
  ghost predicate Below<T>(m: map<Id, T>, n: nat) {
    forall id :: id in m ==> id < n
  }

  /** The ids below `n` whose records satisfy `P`, in increasing order: what
      a `find` with that filter returns. */
  function IdsWhere<T>(m: map<Id, T>, n: nat, P: T -> bool): (ids: seq<Id>)
    ensures forall k :: 0 <= k < |ids| ==> ids[k] < n && ids[k] in m && P(m[ids[k]])
    ensures forall id :: id < n && id in m && P(m[id]) ==> id in ids
    ensures forall j, k :: 0 <= j < k < |ids| ==> ids[j] < ids[k]
    ensures |ids| <= n
  {
    if n == 0 then []
    else
      var rest := IdsWhere(m, n - 1, P);
      if n - 1 in m && P(m[n - 1]) then rest + [n - 1] else rest
  }

  /** The records stored under `ids`. */
  function Select<T>(m: map<Id, T>, ids: seq<Id>): (rs: seq<T>)
    requires forall k :: 0 <= k < |ids| ==> ids[k] in m
    ensures |rs| == |ids|
    ensures forall k :: 0 <= k < |ids| ==> rs[k] == m[ids[k]]
  {
    seq(|ids|, k requires 0 <= k < |ids| => m[ids[k]])
  }

  /** The records a filtered `find` returns: every stored record that passes
      the filter, and nothing else. */
  lemma SelectWhere<T>(m: map<Id, T>, n: nat, P: T -> bool)
    requires Below(m, n)
    ensures var rs := Select(m, IdsWhere(m, n, P));
      && (forall id :: id in m && P(m[id]) ==> m[id] in rs)
      && (forall x :: x in rs ==> P(x) && exists id :: id in m && m[id] == x)
  {
    var ids := IdsWhere(m, n, P);
    var rs := Select(m, ids);
    forall id | id in m && P(m[id])
      ensures m[id] in rs
    {
      var k :| 0 <= k < |ids| && ids[k] == id;
      assert rs[k] == m[id];
    }
    forall x | x in rs
      ensures P(x) && exists id :: id in m && m[id] == x
    {
      var k :| 0 <= k < |rs| && rs[k] == x;
      assert m[ids[k]] == x;
    }
  }

  /** The ids of the stored records below `n` that pass `P`. */
  ghost function Matching<T>(m: map<Id, T>, n: nat, P: T -> bool): (s: set<Id>)
    ensures forall id :: id in s <==> id in m && id < n && P(m[id])
  {
    set id | id in m && id < n && P(m[id])
  }

  /** A `find` lists each passing id below `n` exactly once. */
  lemma {:induction false} IdsWhereCount<T>(m: map<Id, T>, n: nat, P: T -> bool)
    ensures |IdsWhere(m, n, P)| == |Matching(m, n, P)|
  {
    if n > 0 {
      IdsWhereCount(m, n - 1, P);
      MatchingStep(m, n, P);
    }
  }

  lemma MatchingStep<T>(m: map<Id, T>, n: nat, P: T -> bool)
    requires n > 0
    ensures |Matching(m, n, P)| == |Matching(m, n - 1, P)| + if n - 1 in m && P(m[n - 1]) then 1 else 0
  {
    var below := Matching(m, n - 1, P);
    if n - 1 in m && P(m[n - 1]) {
      assert n - 1 !in below;
      assert Matching(m, n, P) == below + {n - 1};
    } else {
      assert Matching(m, n, P) == below;
    }
  }

  /** A filtered `find` over the ids below `n`: every passing record is
      listed, and the list has one entry per passing record. */
  lemma SelectBelow<T>(m: map<Id, T>, n: nat, P: T -> bool)
    ensures var rs := Select(m, IdsWhere(m, n, P));
      && (forall id :: id in Matching(m, n, P) ==> m[id] in rs)
      && |rs| == |Matching(m, n, P)|
  {
    var ids := IdsWhere(m, n, P);
    var rs := Select(m, ids);
    forall id | id in Matching(m, n, P)
      ensures m[id] in rs
    {
      var k :| 0 <= k < |ids| && ids[k] == id;
      assert rs[k] == m[id];
    }
    IdsWhereCount(m, n, P);
  }

  /** An unfiltered `find`: every stored record, once each, in id order. */
  function All<T>(m: map<Id, T>, n: nat): (rs: seq<T>)
    requires Below(m, n)
    ensures forall id :: id in m ==> m[id] in rs
    ensures forall x :: x in rs ==> exists id :: id in m && m[id] == x
    ensures |rs| == |m|
  {
    var any := (x: T) => true;
    SelectWhere(m, n, any);
    IdsWhereCount(m, n, any);
    assert Matching(m, n, any) == m.Keys;
    Select(m, IdsWhere(m, n, any))
  }

  /** Two filters that agree on every record select the same ids. */
  lemma {:induction false} IdsWhereAgree<T>(m: map<Id, T>, n: nat, P: T -> bool, Q: T -> bool)
    requires forall id :: id in m ==> P(m[id]) == Q(m[id])
    ensures IdsWhere(m, n, P) == IdsWhere(m, n, Q)
  {
    if n > 0 {
      IdsWhereAgree(m, n - 1, P, Q);
      var c := n - 1 in m && P(m[n - 1]);
      assert c == (n - 1 in m && Q(m[n - 1]));
    }
  }

  /** Two stores that agree below `n` select the same ids below `n`. */
  lemma {:induction false} IdsWhereFrame<T>(m: map<Id, T>, m': map<Id, T>, n: nat, P: T -> bool)
    requires forall id :: id < n ==> (id in m <==> id in m') && (id in m ==> m[id] == m'[id])
    ensures IdsWhere(m, n, P) == IdsWhere(m', n, P)
  {
    if n > 0 {
      IdsWhereFrame(m, m', n - 1, P);
    }
  }

  /** How many of the elements of `xs` satisfy `P`. */
  function CountWhere<T>(xs: seq<T>, P: T -> bool): (c: nat)
    ensures c <= |xs|
  {
    if xs == [] then 0 else (if P(xs[0]) then 1 else 0) + CountWhere(xs[1..], P)
  }

  /** How many of the ids in `keys` lie below `n`. */
  function CountBelow(keys: set<Id>, n: nat): (c: nat)
    ensures c <= n
  {
    if n == 0 then 0 else CountBelow(keys, n - 1) + (if n - 1 in keys then 1 else 0)
  }

  lemma {:induction false} CountBelowAgree(keys: set<Id>, keys': set<Id>, n: nat)
    requires forall id :: id < n ==> (id in keys <==> id in keys')
    ensures CountBelow(keys, n) == CountBelow(keys', n)
  {
    if n > 0 {
      CountBelowAgree(keys, keys', n - 1);
    }
  }

  /** When every id lies below `n`, counting the ids below `n` counts them
      all: for a collection's keys, what `countDocuments()` returns. */
  lemma {:induction false} CountBelowSize(keys: set<Id>, n: nat)
    requires forall id :: id in keys ==> id < n
    ensures CountBelow(keys, n) == |keys|
  {
    if n == 0 {
      assert keys == {};
    } else {
      var rest := keys - {n - 1};
      CountBelowSize(rest, n - 1);
      CountBelowAgree(keys, rest, n - 1);
      if n - 1 in keys {
        assert |rest| == |keys| - 1;
      } else {
        assert rest == keys;
      }
    }
  }

  /** `after` is `before` with the records `rs` inserted under the
      consecutive fresh ids start, start + 1, ...: an `insertMany`. */
  ghost predicate Appended<T>(before: map<Id, T>, after: map<Id, T>, start: Id, rs: seq<T>) {
    && (forall id :: id in after <==> id in before || start <= id < start + |rs|)
    && (forall id :: id in before ==> id in after && after[id] == before[id])
    && (forall k :: 0 <= k < |rs| ==> start + k in after && after[start + k] == rs[k])
  }
}
