/** The runtime's dictionary: a dense vector of entries in insertion order and an
    open-addressing index of slots that points into it (runtime/vibert.c).

    A slot holds 0 when empty and one more than an entry's position otherwise.
    The capacity is a power of two, so `h & (cap - 1)` is `h % cap` here. */
module Dict {
  import opened Wrappers
  import Counting

  // ------------------------------------------------- the dictionary as a list

  /** Where `k` stands in `es`, or `|es|` when it is absent. */
  function IndexOf<K, V>(eq: (K, K) -> bool, es: seq<(K, V)>, k: K): (r: nat)
    ensures r <= |es|
    ensures forall i :: 0 <= i < r ==> !eq(es[i].0, k)
    ensures r < |es| ==> eq(es[r].0, k)
  {
    if es == [] then 0 else if eq(es[0].0, k) then 0 else 1 + IndexOf(eq, es[1..], k)
  }

  function Inserted<K, V>(eq: (K, K) -> bool, es: seq<(K, V)>, k: K, v: V): seq<(K, V)> {
    var i := IndexOf(eq, es, k);
    if i < |es| then es[i := (k, v)] else es + [(k, v)]
  }

  function Removed<K, V>(eq: (K, K) -> bool, es: seq<(K, V)>, k: K): seq<(K, V)> {
    var i := IndexOf(eq, es, k);
    if i < |es| then es[..i] + es[i + 1..] else es
  }

  /** The entry `es` holds for `k`. */
  function Found<K, V>(eq: (K, K) -> bool, es: seq<(K, V)>, k: K): Option<(K, V)> {
    var i := IndexOf(eq, es, k);
    if i < |es| then Some(es[i]) else None
  }

  ghost predicate Equivalence<K(!new)>(eq: (K, K) -> bool) {
    && (forall x :: eq(x, x))
    && (forall x, y :: eq(x, y) ==> eq(y, x))
    && (forall x, y, z :: eq(x, y) && eq(y, z) ==> eq(x, z))
  }

  ghost predicate Respects<K(!new)>(hash: K -> nat, eq: (K, K) -> bool) {
    forall x, y :: eq(x, y) ==> hash(x) == hash(y)
  }

  ghost predicate Unique<K, V>(eq: (K, K) -> bool, es: seq<(K, V)>) {
    forall i, j :: 0 <= i < j < |es| ==> !eq(es[i].0, es[j].0)
  }

  lemma Reflexive<K(!new)>(eq: (K, K) -> bool, x: K)
    requires Equivalence(eq)
    ensures eq(x, x)
  {}

  lemma Symmetric<K(!new)>(eq: (K, K) -> bool, x: K, y: K)
    requires Equivalence(eq)
    ensures eq(x, y) == eq(y, x)
  {}

  lemma Transitive<K(!new)>(eq: (K, K) -> bool, x: K, y: K, z: K)
    requires Equivalence(eq)
    ensures eq(x, y) && eq(y, z) ==> eq(x, z)
  {}

  lemma InsertedUnique<K(!new), V>(eq: (K, K) -> bool, es: seq<(K, V)>, k: K, v: V)
    requires Equivalence(eq) && Unique(eq, es)
    ensures Unique(eq, Inserted(eq, es, k, v))
  {
    hide Equivalence;
    var i, es' := IndexOf(eq, es, k), Inserted(eq, es, k, v);
    forall a, b | 0 <= a < b < |es'| ensures !eq(es'[a].0, es'[b].0) {
      if i < |es| {
        Symmetric(eq, es[i].0, k);
        Transitive(eq, es[i].0, k, es[b].0);
        Transitive(eq, es[a].0, k, es[i].0);
      }
    }
  }

  lemma RemovedUnique<K, V>(eq: (K, K) -> bool, es: seq<(K, V)>, k: K)
    requires Unique(eq, es)
    ensures Unique(eq, Removed(eq, es, k))
  {
    var i, es' := IndexOf(eq, es, k), Removed(eq, es, k);
    if i < |es| {
      assert forall a :: 0 <= a < |es'| ==> es'[a] == es[if a < i then a else a + 1];
    }
  }

  // ----------------------------------------------------------- whole histories

  datatype Op<K, V> = Insert(key: K, value: V) | Remove(key: K)

  /** The dictionary after a history of operations, starting empty. */
  function After<K, V>(eq: (K, K) -> bool, ops: seq<Op<K, V>>): seq<(K, V)> {
    if ops == [] then []
    else Step(eq, After(eq, ops[..|ops| - 1]), ops[|ops| - 1])
  }

  function Step<K, V>(eq: (K, K) -> bool, es: seq<(K, V)>, op: Op<K, V>): seq<(K, V)> {
    match op
    case Insert(k, v) => Inserted(eq, es, k, v)
    case Remove(k) => Removed(eq, es, k)
  }

  /** The entry the last operation on `k` left, looking at the history alone. */
  function LastWrite<K, V>(eq: (K, K) -> bool, ops: seq<Op<K, V>>, k: K): Option<(K, V)> {
    if ops == [] then None
    else
      var op := ops[|ops| - 1];
      if eq(op.key, k) then (if op.Insert? then Some((op.key, op.value)) else None)
      else LastWrite(eq, ops[..|ops| - 1], k)
  }

  /** Since which operation `k` has been present without a break. */
  function Birth<K, V>(eq: (K, K) -> bool, ops: seq<Op<K, V>>, k: K): nat {
    if ops == [] then 0
    else
      var before, op := ops[..|ops| - 1], ops[|ops| - 1];
      if eq(op.key, k) && op.Insert? && LastWrite(eq, before, k).None? then |before|
      else Birth(eq, before, k)
  }

  /** In a list without duplicates an index is found by any equal key. */
  lemma IndexIs<K(!new), V>(eq: (K, K) -> bool, es: seq<(K, V)>, k: K, i: nat)
    requires Equivalence(eq) && Unique(eq, es) && i < |es| && eq(es[i].0, k)
    ensures IndexOf(eq, es, k) == i
  {
    hide Equivalence;
    var r := IndexOf(eq, es, k);
    assert r <= i;
    Symmetric(eq, es[i].0, k);
    Transitive(eq, es[r].0, k, es[i].0);
  }

  lemma IndexIsAbsent<K, V>(eq: (K, K) -> bool, es: seq<(K, V)>, k: K)
    requires forall i :: 0 <= i < |es| ==> !eq(es[i].0, k)
    ensures IndexOf(eq, es, k) == |es|
  {}

  lemma SameIndex<K(!new), V>(eq: (K, K) -> bool, es: seq<(K, V)>, x: K, y: K)
    requires Equivalence(eq) && eq(x, y)
    ensures IndexOf(eq, es, x) == IndexOf(eq, es, y)
  {
    hide Equivalence, IndexOf;
    Symmetric(eq, x, y);
    forall a | 0 <= a < |es| ensures eq(es[a].0, x) == eq(es[a].0, y) {
      Transitive(eq, es[a].0, x, y);
      Transitive(eq, es[a].0, y, x);
    }
  }

  lemma Apart<K(!new)>(eq: (K, K) -> bool, x: K, y: K, z: K)
    requires Equivalence(eq) && !eq(x, y) && eq(z, x)
    ensures !eq(z, y)
  {
    hide Equivalence;
    Symmetric(eq, z, x);
    Transitive(eq, x, z, y);
  }

  /** An insertion is found under its key, in the place that key had if any. */
  lemma InsertFinds<K(!new), V>(eq: (K, K) -> bool, es: seq<(K, V)>, k: K, v: V, x: K)
    requires Equivalence(eq) && Unique(eq, es) && eq(k, x)
    ensures var es', i := Inserted(eq, es, k, v), IndexOf(eq, es, x);
            IndexOf(eq, es', x) == i < |es'| && es'[i] == (k, v)
  {
    hide Equivalence, Unique;
    var es' := Inserted(eq, es, k, v);
    InsertedUnique(eq, es, k, v);
    SameIndex(eq, es, k, x);
    InsertedAt(eq, es, k, v);
    IndexIs(eq, es', x, IndexOf(eq, es, k));
  }

  /** Everything else is found as before. */
  lemma InsertKeeps<K(!new), V>(eq: (K, K) -> bool, es: seq<(K, V)>, k: K, v: V, x: K)
    requires Equivalence(eq) && Unique(eq, es) && !eq(k, x)
    ensures Found(eq, Inserted(eq, es, k, v), x) == Found(eq, es, x)
  {
    hide Equivalence, Unique, IndexOf, Inserted;
    var es', p, i := Inserted(eq, es, k, v), IndexOf(eq, es, k), IndexOf(eq, es, x);
    InsertedUnique(eq, es, k, v);
    InsertedAt(eq, es, k, v);
    if p < |es| { Apart(eq, k, x, es[p].0); }
    if i < |es| {
      assert es'[i] == es[i];
      IndexIs(eq, es', x, i);
    } else {
      IndexIsAbsent(eq, es', x);
    }
  }

  lemma RemoveForgets<K(!new), V>(eq: (K, K) -> bool, es: seq<(K, V)>, k: K, x: K)
    requires Equivalence(eq) && Unique(eq, es) && eq(k, x)
    ensures Found(eq, Removed(eq, es, k), x) == None
  {
    hide Equivalence, Unique, IndexOf, Removed;
    var es', p := Removed(eq, es, k), IndexOf(eq, es, x);
    SameIndex(eq, es, k, x);
    RemovedAt(eq, es, k);
    forall a | 0 <= a < |es'| ensures !eq(es'[a].0, x) {
      var b := if a < p then a else a + 1;
      assert es'[a] == es[b];
      if eq(es[b].0, x) { IndexIs(eq, es, x, b); }
    }
    IndexIsAbsent(eq, es', x);
  }

  lemma RemoveKeeps<K(!new), V>(eq: (K, K) -> bool, es: seq<(K, V)>, k: K, x: K)
    requires Equivalence(eq) && Unique(eq, es) && !eq(k, x)
    ensures Found(eq, Removed(eq, es, k), x) == Found(eq, es, x)
  {
    hide Equivalence, Unique, IndexOf, Removed;
    var es', p, i := Removed(eq, es, k), IndexOf(eq, es, k), IndexOf(eq, es, x);
    RemovedUnique(eq, es, k);
    RemovedAt(eq, es, k);
    if p < |es| { Apart(eq, k, x, es[p].0); }
    if i < |es| {
      IndexIs(eq, es', x, if p < i then i - 1 else i);
    } else {
      IndexIsAbsent(eq, es', x);
    }
  }

  lemma InsertedAt<K, V>(eq: (K, K) -> bool, es: seq<(K, V)>, k: K, v: V)
    ensures var es', p := Inserted(eq, es, k, v), IndexOf(eq, es, k);
            && |es'| == (if p < |es| then |es| else |es| + 1)
            && es'[p] == (k, v)
            && forall i :: 0 <= i < |es| && i != p ==> es'[i] == es[i]
  {}

  lemma RemovedAt<K, V>(eq: (K, K) -> bool, es: seq<(K, V)>, k: K)
    ensures var es', p := Removed(eq, es, k), IndexOf(eq, es, k);
            && |es'| == (if p < |es| then |es| - 1 else |es|)
            && forall a :: 0 <= a < |es'| ==> es'[a] == es[if a < p then a else a + 1]
  {}

  /** Over every history: no key twice, a lookup finds the last write, and the
      entries stand in the order in which their keys came to be present. */
  lemma {:induction false} HistoryUnique<K(!new), V>(eq: (K, K) -> bool, ops: seq<Op<K, V>>)
    requires Equivalence(eq)
    ensures Unique(eq, After(eq, ops))
  {
    if ops != [] {
      HistoryUnique(eq, ops[..|ops| - 1]);
      var es, op := After(eq, ops[..|ops| - 1]), ops[|ops| - 1];
      match op
      case Insert(k, v) => InsertedUnique(eq, es, k, v);
      case Remove(k) => RemovedUnique(eq, es, k);
    }
  }

  lemma {:induction false} HistoryLookup<K(!new), V>(eq: (K, K) -> bool, ops: seq<Op<K, V>>, k: K)
    requires Equivalence(eq)
    ensures Found(eq, After(eq, ops), k) == LastWrite(eq, ops, k)
  {
    hide Equivalence, Unique, Inserted, Removed, IndexOf;
    if ops != [] {
      var before, op := ops[..|ops| - 1], ops[|ops| - 1];
      var es := After(eq, before);
      HistoryLookup(eq, before, k);
      HistoryUnique(eq, before);
      match op
      case Insert(x, v) => if eq(x, k) { InsertFinds(eq, es, x, v, k); } else { InsertKeeps(eq, es, x, v, k); }
      case Remove(x) => if eq(x, k) { RemoveForgets(eq, es, x, k); } else { RemoveKeeps(eq, es, x, k); }
    }
  }

  ghost predicate BornInOrder<K, V>(eq: (K, K) -> bool, ops: seq<Op<K, V>>, es: seq<(K, V)>) {
    forall i, j :: 0 <= i < j < |es| ==> Birth(eq, ops, es[i].0) < Birth(eq, ops, es[j].0)
  }

  lemma {:induction false} BirthBound<K, V>(eq: (K, K) -> bool, ops: seq<Op<K, V>>, k: K)
    requires ops != []
    ensures Birth(eq, ops, k) < |ops|
  {
    var before := ops[..|ops| - 1];
    if before != [] { BirthBound(eq, before, k); }
  }

  /** Equal keys are born together. */
  lemma {:induction false} BirthSame<K(!new), V>(eq: (K, K) -> bool, ops: seq<Op<K, V>>, x: K, y: K)
    requires Equivalence(eq) && eq(x, y)
    ensures LastWrite(eq, ops, x) == LastWrite(eq, ops, y) && Birth(eq, ops, x) == Birth(eq, ops, y)
  {
    if ops != [] {
      BirthSame(eq, ops[..|ops| - 1], x, y);
      var key := ops[|ops| - 1].key;
      assert eq(key, x) == eq(key, y) by { assert eq(y, x); }
    }
  }

  lemma {:induction false} HistoryOrder<K(!new), V>(eq: (K, K) -> bool, ops: seq<Op<K, V>>)
    requires Equivalence(eq)
    ensures BornInOrder(eq, ops, After(eq, ops))
  {
    hide Equivalence, Unique, Inserted, Removed;
    if ops != [] {
      var before, op := ops[..|ops| - 1], ops[|ops| - 1];
      HistoryOrder(eq, before);
      HistoryUnique(eq, before);
      match op
      case Insert(k, v) => InsertOrder(eq, before, k, v);
      case Remove(k) => RemoveOrder(eq, before, k);
    }
  }

  lemma InsertOrder<K(!new), V>(eq: (K, K) -> bool, before: seq<Op<K, V>>, k: K, v: V)
    requires Equivalence(eq) && Unique(eq, After(eq, before)) && BornInOrder(eq, before, After(eq, before))
    ensures BornInOrder(eq, before + [Insert(k, v)], Inserted(eq, After(eq, before), k, v))
  {
    hide Equivalence, Unique, After, Inserted;
    var es, ops := After(eq, before), before + [Insert(k, v)];
    var es', p := Inserted(eq, es, k, v), IndexOf(eq, es, k);
    assert ops[..|ops| - 1] == before;
    InsertedAt(eq, es, k, v);
    forall i | 0 <= i < |es| ensures Birth(eq, ops, es'[i].0) == Birth(eq, before, es[i].0) {
      HistoryLookup(eq, before, es'[i].0);
      if i == p {
        BirthSame(eq, before, es[i].0, k);
        IndexIs(eq, es, k, i);
      } else {
        IndexIs(eq, es, es[i].0, i) by { Reflexive(eq, es[i].0); }
      }
    }
    if p == |es| {
      HistoryLookup(eq, before, k);
      Reflexive(eq, k);
      forall i | 0 <= i < |es| ensures Birth(eq, before, es[i].0) < |before| {
        AfterNothing(eq, before);
        BirthBound(eq, before, es[i].0);
      }
    }
  }

  lemma AfterNothing<K, V>(eq: (K, K) -> bool, ops: seq<Op<K, V>>)
    ensures ops == [] ==> After(eq, ops) == []
  {}

  lemma RemoveOrder<K(!new), V>(eq: (K, K) -> bool, before: seq<Op<K, V>>, k: K)
    requires BornInOrder(eq, before, After(eq, before))
    ensures BornInOrder(eq, before + [Remove(k)], Removed(eq, After(eq, before), k))
  {
    hide After;
    var es, ops := After(eq, before), before + [Remove(k)];
    var es', p := Removed(eq, es, k), IndexOf(eq, es, k);
    assert ops[..|ops| - 1] == before;
    if p < |es| {
      assert forall a :: 0 <= a < |es'| ==> es'[a] == es[if a < p then a else a + 1];
    }
    assert forall x :: Birth(eq, ops, x) == Birth(eq, before, x);
  }

  // ------------------------------------------------------------- the slot table

  /** The slot `d` steps after the home slot of hash `h`. */
  function At(cap: nat, h: nat, d: nat): (j: nat)
    requires 0 < cap
    ensures j < cap
  {
    if d == 0 then h % cap else (At(cap, h, d - 1) + 1) % cap
  }

  lemma AtNext(cap: nat, h: nat, d: nat)
    requires 0 < cap
    ensures At(cap, h, d + 1) == (At(cap, h, d) + 1) % cap
  {}

  lemma {:induction false} AtIs(cap: nat, h: nat, d: nat)
    requires d < cap
    ensures At(cap, h, d) == if h % cap + d < cap then h % cap + d else h % cap + d - cap
  {
    if d > 0 {
      AtIs(cap, h, d - 1);
      Wraps(cap, At(cap, h, d - 1));
    }
  }

  lemma Wraps(cap: nat, x: nat)
    requires x < cap
    ensures (x + 1) % cap == if x + 1 < cap then x + 1 else 0
  {}

  /** Probing comes by every slot. */
  lemma AtReaches(cap: nat, h: nat, j: nat) returns (d: nat)
    requires j < cap
    ensures d < cap && At(cap, h, d) == j
  {
    d := if h % cap <= j then j - h % cap else j + cap - h % cap;
    AtIs(cap, h, d);
  }

  /** No slot among the first `d` probed is empty. */
  ghost predicate Packed(slot: seq<nat>, h: nat, d: nat)
    requires 0 < |slot|
  {
    forall e: nat :: e < d ==> slot[At(|slot|, h, e)] != 0
  }

  /** Entry `i`, of hash `hs[i]`, is in the slot `dist[i]` steps from its home,
      past full slots only, and no other slot is in use. */
  ghost predicate Indexed(slot: seq<nat>, hs: seq<nat>, dist: seq<nat>) {
    && 0 < |slot| && |dist| == |hs|
    && (forall i :: 0 <= i < |hs| ==> Reaches(slot, hs[i], dist[i], i))
    && (forall j :: 0 <= j < |slot| && slot[j] != 0 ==> UsedBy(slot, hs, dist, j))
  }

  ghost predicate Reaches(slot: seq<nat>, h: nat, d: nat, i: nat)
    requires 0 < |slot|
  {
    slot[At(|slot|, h, d)] == i + 1 && Packed(slot, h, d)
  }

  ghost predicate UsedBy(slot: seq<nat>, hs: seq<nat>, dist: seq<nat>, j: nat)
    requires j < |slot| && |dist| == |hs|
  {
    0 < slot[j] <= |hs| && At(|slot|, hs[slot[j] - 1], dist[slot[j] - 1]) == j
  }

  /** With fewer entries than slots, probing from anywhere meets an empty slot. */
  lemma EmptyAhead(slot: seq<nat>, hs: seq<nat>, dist: seq<nat>, h: nat) returns (d: nat)
    requires Indexed(slot, hs, dist) && |hs| < |slot|
    ensures d < |slot| && slot[At(|slot|, h, d)] == 0
  {
    hide Packed, At;
    var used := seq<nat>(|hs|, i requires 0 <= i < |hs| => At(|slot|, hs[i], dist[i]));
    var j := Counting.SomeMissing(used, |slot|);
    UsedIsListed(slot, hs, dist, used, j);
    d := AtReaches(|slot|, h, j);
  }

  lemma UsedIsListed(slot: seq<nat>, hs: seq<nat>, dist: seq<nat>, used: seq<nat>, j: nat)
    requires Indexed(slot, hs, dist) && j < |slot| && |used| == |hs|
    requires forall i :: 0 <= i < |hs| ==> used[i] == At(|slot|, hs[i], dist[i])
    ensures slot[j] != 0 ==> j in used
  {
    hide Reaches, At;
    if slot[j] != 0 {
      assert UsedBy(slot, hs, dist, j);
      assert used[slot[j] - 1] == j;
    }
  }

  /** Putting a new entry into the first empty slot from its home. */
  lemma Placed(slot: seq<nat>, hs: seq<nat>, dist: seq<nat>, h: nat, d: nat)
    requires Indexed(slot, hs, dist) && Packed(slot, h, d) && slot[At(|slot|, h, d)] == 0
    ensures Indexed(slot[At(|slot|, h, d) := |hs| + 1], hs + [h], dist + [d])
  {
    hide At, Packed;
    var j := At(|slot|, h, d);
    var slot', hs', dist' := slot[j := |hs| + 1], hs + [h], dist + [d];
    forall i | 0 <= i < |hs'| ensures Reaches(slot', hs'[i], dist'[i], i) {
      if i < |hs| {
        assert Reaches(slot, hs[i], dist[i], i);
        PackedStays(slot, j, |hs| + 1, hs[i], dist[i]);
      } else {
        PackedStays(slot, j, |hs| + 1, h, d);
      }
    }
    forall k | 0 <= k < |slot'| && slot'[k] != 0 ensures UsedBy(slot', hs', dist', k) {
      if k != j { assert UsedBy(slot, hs, dist, k); }
    }
  }

  lemma PackedStays(slot: seq<nat>, j: nat, x: nat, h: nat, d: nat)
    requires j < |slot| && 0 < x && Packed(slot, h, d)
    ensures Packed(slot[j := x], h, d)
  {
    hide At;
  }

  lemma PackedMore(slot: seq<nat>, h: nat, d: nat)
    requires 0 < |slot| && Packed(slot, h, d) && slot[At(|slot|, h, d)] != 0
    ensures Packed(slot, h, d + 1)
  {
    hide At;
  }

  lemma ClearIndexed(slot: seq<nat>)
    requires 0 < |slot| && forall j :: 0 <= j < |slot| ==> slot[j] == 0
    ensures Indexed(slot, [], [])
  {}

  /** How far from its home an entry stands, measured before the first gap. */
  lemma NotBeyond(slot: seq<nat>, hs: seq<nat>, dist: seq<nat>, i: nat, d: nat)
    requires Indexed(slot, hs, dist) && i < |hs| && slot[At(|slot|, hs[i], d)] == 0
    ensures i < |dist| && dist[i] < d
  {
    hide At;
    assert Reaches(slot, hs[i], dist[i], i);
  }

  ghost predicate PowerOfTwo(n: nat) {
    n == 1 || (n > 1 && n % 2 == 0 && PowerOfTwo(n / 2))
  }

  lemma Doubled(n: nat)
    requires PowerOfTwo(n)
    ensures PowerOfTwo(2 * n)
  {}

  function Hashes<K, V>(hash: K -> nat, es: seq<(K, V)>): (hs: seq<nat>)
    ensures |hs| == |es| && forall i :: 0 <= i < |es| ==> hs[i] == hash(es[i].0)
  {
    seq<nat>(|es|, i requires 0 <= i < |es| => hash(es[i].0))
  }

  ghost predicate Sound<K(!new), V>(eq: (K, K) -> bool, hash: K -> nat, es: seq<(K, V)>, slot: seq<nat>,
                                    dist: seq<nat>) {
    && Equivalence(eq) && Respects(hash, eq) && Unique(eq, es)
    && Roomy(|slot|, |es|) && Indexed(slot, Hashes(hash, es), dist)
  }

  /** At least half the slots, and two more, are free. */
  ghost predicate Roomy(cap: nat, n: nat) {
    PowerOfTwo(cap) && cap >= 8 && cap >= 2 * n + 2
  }

  class Dict<K(!new), V> {
    const eq: (K, K) -> bool
    const hash: K -> nat
    var entries: seq<(K, V)>
    var slot: array<nat>
    /** How far past its home slot each entry was put. */
    ghost var dist: seq<nat>

    ghost predicate Valid()
      reads this, slot
    {
      Sound(eq, hash, entries, slot[..], dist)
    }

    constructor (eq: (K, K) -> bool, hash: K -> nat)
      requires Equivalence(eq) && Respects(hash, eq)
      ensures Valid() && fresh(slot) && this.eq == eq && this.hash == hash && entries == []
    {
      this.eq, this.hash, entries, dist := eq, hash, [], [];
      slot := new nat[0];
      new;
      Reindex();
    }

    /** Where probing for `k` starts. */
    method HomeSlot(k: K) returns (j: nat)
      requires slot.Length > 0
      ensures j == At(slot.Length, hash(k), 0)
    {
      j := hash(k) % slot.Length;
    }

    /** The first empty slot from the home of `k`, the index holding entries of
        hashes `hs` so far. */
    method FirstGap(k: K, ghost hs: seq<nat>) returns (j: nat, ghost d: nat)
      requires Indexed(slot[..], hs, dist) && |hs| < slot.Length
      ensures j < slot.Length && slot[j] == 0
      ensures j == At(slot.Length, hash(k), d) && Packed(slot[..], hash(k), d)
    {
      hide Indexed, At, Packed, Missed;
      ghost var table: seq<nat>, h := slot[..], hash(k);
      ghost var gap := EmptyAhead(table, hs, dist, h);
      d := 0;
      NothingYet(eq, entries, table, h, k);
      j := HomeSlot(k);
      while slot[j] != 0
        invariant d <= gap && j == At(slot.Length, h, d) && Packed(table, h, d)
        decreases gap - d
      {
        PackedMore(table, h, d);
        AtNext(slot.Length, h, d);
        j, d := (j + 1) % slot.Length, d + 1;
      }
    }

    /** Rebuilds `slot` and `dist` from `entries`; the result is `Valid` whatever they held. */
    method Reindex()
      requires Equivalence(eq) && Respects(hash, eq) && Unique(eq, entries)
      modifies this`slot, this`dist, slot
      ensures Valid() && (slot == old(slot) || fresh(slot))
    {
      hide Equivalence, Respects, Unique, Indexed, PowerOfTwo, At, Packed, Missed, Hashes;
      var cap := 8;
      assert PowerOfTwo(8) by { Doubled(1); Doubled(2); Doubled(4); }
      while cap < 2 * |entries| + 2
        invariant PowerOfTwo(cap) && cap >= 8
        modifies {}
      {
        Doubled(cap);
        cap := cap * 2;
      }
      if cap != slot.Length {
        slot := new nat[cap](_ => 0);
      } else {
        forall j | 0 <= j < slot.Length { slot[j] := 0; }
      }
      ghost var hs := Hashes(hash, entries);
      assert forall j :: 0 <= j < slot.Length ==> slot[j] == 0;
      dist := [];
      ClearIndexed(slot[..]);
      assert hs[..0] == [];
      var i := 0;
      while i < |entries|
        invariant 0 <= i <= |entries| == |hs| && slot.Length == cap
        invariant slot == old(slot) || fresh(slot)
        invariant Indexed(slot[..], hs[..i], dist)
      {
        var j, d := FirstGap(entries[i].0, hs[..i]);
        ghost var table: seq<nat>, h := slot[..], hs[i];
        Placed(table, hs[..i], dist, h, d);
        slot[j] := i + 1;
        assert slot[..] == table[j := i + 1];
        dist := dist + [d];
        assert hs[..i + 1] == hs[..i] + [h];
        i := i + 1;
      }
      assert hs[..i] == hs;
    }

    /** Probes from the home of `k` until `k` or a gap; `d` is the number of steps. */
    method Slot(k: K) returns (j: nat, ghost d: nat)
      requires Valid()
      ensures j < slot.Length && j == At(slot.Length, hash(k), d) && Packed(slot[..], hash(k), d)
      ensures if slot[j] == 0 then IndexOf(eq, entries, k) == |entries|
              else slot[j] == IndexOf(eq, entries, k) + 1 <= |entries|
    {
      hide Equivalence, Respects, Unique, PowerOfTwo, IndexOf, Indexed, At, Packed, Missed;
      ghost var table: seq<nat>, hs, h := slot[..], Hashes(hash, entries), hash(k);
      ghost var gap := EmptyAhead(table, hs, dist, h);
      d := 0;
      NothingYet(eq, entries, table, h, k);
      j := HomeSlot(k);
      while slot[j] != 0
        invariant d <= gap && j == At(slot.Length, h, d) && Packed(table, h, d)
        invariant Missed(eq, entries, table, h, d, k)
        decreases gap - d
      {
        InUse(table, hs, dist, j);
        if eq(entries[slot[j] - 1].0, k) {
          IndexIs(eq, entries, k, slot[j] - 1);
          return;
        }
        PackedMore(table, h, d);
        MissedMore(eq, entries, table, h, d, k);
        AtNext(slot.Length, h, d);
        j, d := (j + 1) % slot.Length, d + 1;
      }
      NowhereElse(eq, hash, entries, table, dist, d, k);
    }

    /** Puts `k` under `v`: in its own place when it is there, at the end when not. */
    method InsertOwned(k: K, v: V)
      requires Valid()
      modifies this`entries, this`slot, this`dist, slot
      ensures Valid() && (slot == old(slot) || fresh(slot))
      ensures entries == Inserted(eq, old(entries), k, v)
    {
      hide Equivalence, Respects, Unique, PowerOfTwo, IndexOf, Indexed, At, Packed, Missed;
      var j, d := Slot(k);
      ghost var es, table: seq<nat> := entries, slot[..];
      InsertedUnique(eq, es, k, v);
      if slot[j] != 0 {
        var i := slot[j] - 1;
        SameHashes(eq, hash, es, i, k, v);
        entries := entries[i := (k, v)];
        return;
      }
      ghost var hs := Hashes(hash, entries);
      Placed(table, hs, dist, hash(k), d);
      entries := entries + [(k, v)];
      assert Hashes(hash, entries) == hs + [hash(k)];
      slot[j] := |entries|;
      assert slot[..] == table[j := |entries|];
      dist := dist + [d];
      if 2 * |entries| + 2 > slot.Length { Reindex(); }
    }

    /** Takes `k` out, closing the gap it leaves. */
    method RemoveOwned(k: K)
      requires Valid()
      modifies this`entries, this`slot, this`dist, slot
      ensures Valid() && (slot == old(slot) || fresh(slot))
      ensures entries == Removed(eq, old(entries), k)
    {
      hide Equivalence, Respects, Unique, PowerOfTwo, IndexOf, Indexed, At, Packed, Missed;
      var j, d := Slot(k);
      if slot[j] == 0 { return; }
      var i := slot[j] - 1;
      RemovedUnique(eq, entries, k);
      entries := entries[..i] + entries[i + 1..];
      Reindex();
    }

    method Lookup(k: K) returns (r: Option<V>)
      requires Valid()
      ensures r == match Found(eq, entries, k) case None => None case Some(e) => Some(e.1)
    {
      hide IndexOf, Sound;
      var j, d := Slot(k);
      if slot[j] == 0 { return None; }
      r := Some(entries[slot[j] - 1].1);
    }

    method Keys() returns (ks: seq<K>)
      ensures |ks| == |entries| && forall i :: 0 <= i < |ks| ==> ks[i] == entries[i].0
    {
      ks := [];
      var i := 0;
      while i < |entries|
        invariant 0 <= i <= |entries| && |ks| == i
        invariant forall a :: 0 <= a < i ==> ks[a] == entries[a].0
      {
        ks := ks + [entries[i].0];
        i := i + 1;
      }
    }

    /** A dictionary of its own with the same entries. */
    constructor Dup(d: Dict<K, V>)
      requires d.Valid()
      ensures Valid() && fresh(slot)
      ensures eq == d.eq && hash == d.hash && entries == d.entries
    {
      hide Sound;
      eq, hash, entries, dist := d.eq, d.hash, d.entries, d.dist;
      var copy := new nat[d.slot.Length];
      slot := copy;
      new;
      var i := 0;
      while i < d.slot.Length
        invariant 0 <= i <= d.slot.Length == slot.Length
        modifies slot
        invariant d.slot[..] == old(d.slot[..]) && slot[..i] == d.slot[..i]
      {
        slot[i] := d.slot[i];
        i := i + 1;
      }
      assert slot[..] == slot[..i] && d.slot[..] == d.slot[..i];
    }

    /** The copying forms leave the dictionary itself as it was. */
    method Insert(k: K, v: V) returns (r: Dict<K, V>)
      requires Valid()
      ensures fresh(r) && fresh(r.slot) && r.Valid() && r.eq == eq && r.hash == hash
      ensures r.entries == Inserted(eq, entries, k, v)
    {
      r := new Dict.Dup(this);
      r.InsertOwned(k, v);
    }

    method Remove(k: K) returns (r: Dict<K, V>)
      requires Valid()
      ensures fresh(r) && fresh(r.slot) && r.Valid() && r.eq == eq && r.hash == hash
      ensures r.entries == Removed(eq, entries, k)
    {
      r := new Dict.Dup(this);
      r.RemoveOwned(k);
    }
  }

  /** None of the first `d` slots probed holds `k`. */
  ghost predicate Missed<K, V>(eq: (K, K) -> bool, es: seq<(K, V)>, slot: seq<nat>, h: nat, d: nat, k: K)
    requires 0 < |slot|
  {
    forall e: nat :: e < d ==> Not(eq, es, slot[At(|slot|, h, e)], k)
  }

  /** The entry a used slot names, if any, is under another key. */
  ghost predicate Not<K, V>(eq: (K, K) -> bool, es: seq<(K, V)>, x: nat, k: K) {
    0 < x <= |es| ==> !eq(es[x - 1].0, k)
  }

  lemma NothingYet<K, V>(eq: (K, K) -> bool, es: seq<(K, V)>, slot: seq<nat>, h: nat, k: K)
    requires 0 < |slot|
    ensures Packed(slot, h, 0) && Missed(eq, es, slot, h, 0, k)
  {}

  lemma MissedAt<K, V>(eq: (K, K) -> bool, es: seq<(K, V)>, slot: seq<nat>, h: nat, d: nat, k: K, e: nat)
    requires 0 < |slot| && Missed(eq, es, slot, h, d, k) && e < d
    ensures Not(eq, es, slot[At(|slot|, h, e)], k)
  {
    hide At, Not;
  }

  lemma MissedMore<K, V>(eq: (K, K) -> bool, es: seq<(K, V)>, slot: seq<nat>, h: nat, d: nat, k: K)
    requires 0 < |slot| && Missed(eq, es, slot, h, d, k) && Not(eq, es, slot[At(|slot|, h, d)], k)
    ensures Missed(eq, es, slot, h, d + 1, k)
  {
    hide At, Not;
  }

  lemma InUse(slot: seq<nat>, hs: seq<nat>, dist: seq<nat>, j: nat)
    requires Indexed(slot, hs, dist) && j < |slot| && slot[j] != 0
    ensures slot[j] <= |hs|
  {
    hide At, Reaches;
    assert UsedBy(slot, hs, dist, j);
  }

  /** A key not met before the first empty slot is not in the dictionary. */
  lemma NowhereElse<K(!new), V>(eq: (K, K) -> bool, hash: K -> nat, es: seq<(K, V)>, slot: seq<nat>, dist: seq<nat>,
                                d: nat, k: K)
    requires 0 < |slot| && Respects(hash, eq) && Indexed(slot, Hashes(hash, es), dist)
    requires slot[At(|slot|, hash(k), d)] == 0 && Missed(eq, es, slot, hash(k), d, k)
    ensures IndexOf(eq, es, k) == |es|
  {
    hide At, Indexed, Respects, IndexOf, Hashes, Missed;
    forall i | 0 <= i < |es| ensures !eq(es[i].0, k) {
      HashSame(hash, eq, es[i].0, k);
      if hash(es[i].0) == hash(k) { NotThere(eq, es, slot, Hashes(hash, es), dist, hash(k), d, k, i); }
    }
    IndexIsAbsent(eq, es, k);
  }

  lemma NotThere<K, V>(eq: (K, K) -> bool, es: seq<(K, V)>, slot: seq<nat>, hs: seq<nat>, dist: seq<nat>, h: nat,
                       d: nat, k: K, i: nat)
    requires Indexed(slot, hs, dist) && i < |es| == |hs| && hs[i] == h
    requires slot[At(|slot|, h, d)] == 0 && Missed(eq, es, slot, h, d, k)
    ensures !eq(es[i].0, k)
  {
    hide At, Indexed, Missed;
    NotBeyond(slot, hs, dist, i, d);
    ReachesEntry(slot, hs, dist, i);
    MissedAt(eq, es, slot, h, d, k, dist[i]);
  }

  lemma ReachesEntry(slot: seq<nat>, hs: seq<nat>, dist: seq<nat>, i: nat)
    requires Indexed(slot, hs, dist) && i < |hs|
    ensures slot[At(|slot|, hs[i], dist[i])] == i + 1
  {
    assert Reaches(slot, hs[i], dist[i], i);
  }

  lemma HashSame<K(!new)>(hash: K -> nat, eq: (K, K) -> bool, x: K, y: K)
    requires Respects(hash, eq)
    ensures eq(x, y) ==> hash(x) == hash(y)
  {}

  lemma SameHashes<K(!new), V>(eq: (K, K) -> bool, hash: K -> nat, es: seq<(K, V)>, i: nat, k: K, v: V)
    requires Respects(hash, eq) && i < |es| && eq(es[i].0, k)
    ensures Hashes(hash, es[i := (k, v)]) == Hashes(hash, es)
  {
    HashSame(hash, eq, es[i].0, k);
  }
}
