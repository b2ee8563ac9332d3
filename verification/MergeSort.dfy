/** The stable merge sort on cached keys (runtime/vibert.c). */
module MergeSort {
  import Order

  /** An element with its key, computed once. */
  datatype KeyVal<K, V> = KeyVal(key: K, val: V)

  // ------------------------------------------------------------- what it computes

  /** The left one on a tie. */
  function Merge<K, V>(cmp: (K, K) -> int, xs: seq<KeyVal<K, V>>, ys: seq<KeyVal<K, V>>): seq<KeyVal<K, V>> {
    if xs == [] then ys
    else if ys == [] then xs
    else if cmp(xs[0].key, ys[0].key) <= 0 then [xs[0]] + Merge(cmp, xs[1..], ys)
    else [ys[0]] + Merge(cmp, xs, ys[1..])
  }

  function Sorted<K, V>(cmp: (K, K) -> int, xs: seq<KeyVal<K, V>>): seq<KeyVal<K, V>>
    decreases |xs|
  {
    if |xs| < 2 then xs
    else Merge(cmp, Sorted(cmp, xs[..|xs| / 2]), Sorted(cmp, xs[|xs| / 2..]))
  }

  lemma {:induction false} MergeLength<K, V>(cmp: (K, K) -> int, xs: seq<KeyVal<K, V>>, ys: seq<KeyVal<K, V>>)
    ensures |Merge(cmp, xs, ys)| == |xs| + |ys|
  {
    if xs != [] && ys != [] {
      MergeLength(cmp, xs[1..], ys);
      MergeLength(cmp, xs, ys[1..]);
    }
  }

  lemma {:induction false} SortedLength<K, V>(cmp: (K, K) -> int, xs: seq<KeyVal<K, V>>)
    ensures |Sorted(cmp, xs)| == |xs|
    decreases |xs|
  {
    if |xs| >= 2 {
      var h := |xs| / 2;
      SortedLength(cmp, xs[..h]);
      SortedLength(cmp, xs[h..]);
      MergeLength(cmp, Sorted(cmp, xs[..h]), Sorted(cmp, xs[h..]));
    }
  }

  // ---------------------------------------------------------------- in the arrays

  /** What the next element of a merge is, and the merge that is left. */
  lemma MergeStep<K, V>(cmp: (K, K) -> int, xs: seq<KeyVal<K, V>>, ys: seq<KeyVal<K, V>>)
    requires xs != [] || ys != []
    ensures Merge(cmp, xs, ys) ==
      if xs != [] && (ys == [] || cmp(xs[0].key, ys[0].key) <= 0) then [xs[0]] + Merge(cmp, xs[1..], ys)
      else [ys[0]] + Merge(cmp, xs, ys[1..])
  {
    if ys == [] { assert xs == [xs[0]] + xs[1..]; }
    if xs == [] { assert ys == [ys[0]] + ys[1..]; }
  }

  /** `m` from `k` on is the merge of the left half from `i` and the right from `j`. */
  ghost predicate Rest<K, V>(cmp: (K, K) -> int, m: seq<KeyVal<K, V>>, left: seq<KeyVal<K, V>>,
                             right: seq<KeyVal<K, V>>, i: nat, j: nat) {
    i <= |left| && j <= |right| && |m| == |left| + |right| && m[i + j..] == Merge(cmp, left[i..], right[j..])
  }

  lemma RestStep<K, V>(cmp: (K, K) -> int, m: seq<KeyVal<K, V>>, left: seq<KeyVal<K, V>>, right: seq<KeyVal<K, V>>,
                       i: nat, j: nat)
    requires Rest(cmp, m, left, right, i, j) && (i < |left| || j < |right|)
    ensures i < |left| && (j == |right| || cmp(left[i].key, right[j].key) <= 0)
      ==> m[i + j] == left[i] && Rest(cmp, m, left, right, i + 1, j)
    ensures !(i < |left| && (j == |right| || cmp(left[i].key, right[j].key) <= 0))
      ==> m[i + j] == right[j] && Rest(cmp, m, left, right, i, j + 1)
  {
    hide Merge;
    var xs, ys := left[i..], right[j..];
    MergeStep(cmp, xs, ys);
    assert i < |left| ==> xs[0] == left[i] && xs[1..] == left[i + 1..];
    assert j < |right| ==> ys[0] == right[j] && ys[1..] == right[j + 1..];
    assert m[i + j..][1..] == m[i + j + 1..] && m[i + j..][0] == m[i + j];
  }

  /** Merges the two halves of the stretch of `a` from `lo` into `tmp`. */
  method MergeInto<K, V>(cmp: (K, K) -> int, a: array<KeyVal<K, V>>, lo: nat, h: nat, n: nat, tmp: array<KeyVal<K, V>>)
    requires lo + n <= a.Length && h <= n <= tmp.Length && a != tmp
    modifies tmp
    ensures tmp[..n] == Merge(cmp, a[lo..lo + h], a[lo + h..lo + n])
  {
    hide Merge, Rest;
    ghost var left, right := a[lo..lo + h], a[lo + h..lo + n];
    ghost var m := Merge(cmp, left, right);
    MergeLength(cmp, left, right);
    assert Rest(cmp, m, left, right, 0, 0) by { RestStart(cmp, left, right); }
    var i, j, k := 0, h, 0;
    while i < h && j < n
      invariant i <= h <= j <= n && k == i + (j - h) && Rest(cmp, m, left, right, i, j - h)
      invariant forall p :: 0 <= p < k ==> tmp[p] == m[p]
    {
      RestStep(cmp, m, left, right, i, j - h);
      assert left[i] == a[lo + i] && right[j - h] == a[lo + j];
      if cmp(a[lo + i].key, a[lo + j].key) <= 0 {
        tmp[k] := a[lo + i];
        k, i := k + 1, i + 1;
      } else {
        tmp[k] := a[lo + j];
        k, j := k + 1, j + 1;
      }
    }
    while i < h
      invariant i <= h <= j <= n && k == i + (j - h) && Rest(cmp, m, left, right, i, j - h) && (i < h ==> j == n)
      invariant forall p :: 0 <= p < k ==> tmp[p] == m[p]
    {
      RestStep(cmp, m, left, right, i, j - h);
      assert left[i] == a[lo + i];
      tmp[k] := a[lo + i];
      k, i := k + 1, i + 1;
    }
    while j < n
      invariant i == h <= j <= n && k == j && Rest(cmp, m, left, right, i, j - h)
      invariant forall p :: 0 <= p < k ==> tmp[p] == m[p]
    {
      RestStep(cmp, m, left, right, i, j - h);
      assert right[j - h] == a[lo + j];
      tmp[k] := a[lo + j];
      k, j := k + 1, j + 1;
    }
  }

  lemma RestStart<K, V>(cmp: (K, K) -> int, left: seq<KeyVal<K, V>>, right: seq<KeyVal<K, V>>)
    ensures Rest(cmp, Merge(cmp, left, right), left, right, 0, 0)
  {
    hide Merge;
    MergeLength(cmp, left, right);
    assert left[0..] == left && right[0..] == right;
    assert Merge(cmp, left, right)[0..] == Merge(cmp, left, right);
  }

  /** The first `n` elements of `tmp`, copied over those of `a` from `lo` on. */
  method CopyBack<T>(a: array<T>, lo: nat, tmp: array<T>, n: nat)
    requires lo + n <= a.Length && n <= tmp.Length && a != tmp
    modifies a
    ensures a[lo..lo + n] == tmp[..n]
    ensures forall p :: 0 <= p < lo || lo + n <= p < a.Length ==> a[p] == old(a[p])
  {
    var k := 0;
    while k < n
      invariant k <= n
      invariant forall p :: 0 <= p < k ==> a[lo + p] == tmp[p]
      invariant forall p :: 0 <= p < lo || lo + n <= p < a.Length ==> a[p] == old(a[p])
    {
      a[lo + k] := tmp[k];
      k := k + 1;
    }
  }

  /** Sorts the `n` elements of `a` from `lo` on, with the first `n` of `tmp` as
      scratch for every level. */
  method Sort<K, V>(cmp: (K, K) -> int, a: array<KeyVal<K, V>>, lo: nat, n: nat, tmp: array<KeyVal<K, V>>)
    requires lo + n <= a.Length && n <= tmp.Length && a != tmp
    modifies a, tmp
    ensures a[lo..lo + n] == Sorted(cmp, old(a[lo..lo + n]))
    ensures forall p :: 0 <= p < lo || lo + n <= p < a.Length ==> a[p] == old(a[p])
    decreases n
  {
    hide Merge, Sorted;
    ghost var xs := a[lo..lo + n];
    SortedStep(cmp, xs);
    if n < 2 { return; }
    var h := n / 2;
    ghost var right := a[lo + h..lo + n];
    assert xs[..h] == a[lo..lo + h] && xs[h..] == right;
    Sort(cmp, a, lo, h, tmp);
    assert a[lo + h..lo + n] == right;
    ghost var left := a[lo..lo + h];
    Sort(cmp, a, lo + h, n - h, tmp);
    assert lo + h + (n - h) == lo + n;
    assert a[lo..lo + h] == left;
    MergeInto(cmp, a, lo, h, n, tmp);
    CopyBack(a, lo, tmp, n);
  }

  lemma SortedStep<K, V>(cmp: (K, K) -> int, xs: seq<KeyVal<K, V>>)
    ensures |xs| < 2 ==> Sorted(cmp, xs) == xs
    ensures |xs| >= 2 ==> Sorted(cmp, xs) == Merge(cmp, Sorted(cmp, xs[..|xs| / 2]), Sorted(cmp, xs[|xs| / 2..]))
  {
  }

  // ------------------------------------------------------------- sorted and stable

  /** `cmp` orders the keys in `ks`, ties allowed. */
  ghost predicate Preorder<K(!new)>(cmp: (K, K) -> int, ks: iset<K>) {
    && (forall x, y :: x in ks && y in ks ==> cmp(x, y) <= 0 || cmp(y, x) <= 0)
    && (forall x, y, z :: x in ks && y in ks && z in ks && cmp(x, y) <= 0 && cmp(y, z) <= 0 ==> cmp(x, z) <= 0)
  }

  ghost predicate Keyed<K, V>(ks: iset<K>, xs: seq<KeyVal<K, V>>) { forall i :: 0 <= i < |xs| ==> xs[i].key in ks }

  predicate Ordered<K, V>(cmp: (K, K) -> int, xs: seq<KeyVal<K, V>>) {
    forall i, j :: 0 <= i < j < |xs| ==> cmp(xs[i].key, xs[j].key) <= 0
  }

  predicate Tied<K>(cmp: (K, K) -> int, x: K, y: K) { cmp(x, y) <= 0 && cmp(y, x) <= 0 }

  /** The elements whose key ties with `k`, in their order in `xs`. */
  function Ties<K, V>(cmp: (K, K) -> int, k: K, xs: seq<KeyVal<K, V>>): seq<KeyVal<K, V>> {
    if xs == [] then []
    else (if Tied(cmp, k, xs[0].key) then [xs[0]] else []) + Ties(cmp, k, xs[1..])
  }

  lemma {:induction false} TiesAppend<K, V>(cmp: (K, K) -> int, k: K, xs: seq<KeyVal<K, V>>, ys: seq<KeyVal<K, V>>)
    ensures Ties(cmp, k, xs + ys) == Ties(cmp, k, xs) + Ties(cmp, k, ys)
  {
    if xs == [] {
      assert xs + ys == ys;
    } else {
      TiesAppend(cmp, k, xs[1..], ys);
      assert (xs + ys)[1..] == xs[1..] + ys;
    }
  }

  lemma {:induction false} NoTies<K, V>(cmp: (K, K) -> int, k: K, xs: seq<KeyVal<K, V>>)
    requires forall i :: 0 <= i < |xs| ==> !Tied(cmp, k, xs[i].key)
    ensures Ties(cmp, k, xs) == []
  {
    if xs != [] { NoTies(cmp, k, xs[1..]); }
  }

  lemma {:induction false} SomeTies<K, V>(cmp: (K, K) -> int, k: K, xs: seq<KeyVal<K, V>>)
    requires Ties(cmp, k, xs) != []
    ensures exists i :: 0 <= i < |xs| && Tied(cmp, k, xs[i].key)
  {
    if forall i :: 0 <= i < |xs| ==> !Tied(cmp, k, xs[i].key) { NoTies(cmp, k, xs); }
  }

  lemma {:induction false} MergePermutes<K, V>(cmp: (K, K) -> int, xs: seq<KeyVal<K, V>>, ys: seq<KeyVal<K, V>>)
    ensures multiset(Merge(cmp, xs, ys)) == multiset(xs) + multiset(ys)
  {
    if xs != [] && ys != [] {
      assert xs == [xs[0]] + xs[1..] && ys == [ys[0]] + ys[1..];
      if cmp(xs[0].key, ys[0].key) <= 0 { MergePermutes(cmp, xs[1..], ys); } else { MergePermutes(cmp, xs, ys[1..]); }
    }
  }

  lemma KeyedByMultiset<K, V>(ks: iset<K>, xs: seq<KeyVal<K, V>>, ys: seq<KeyVal<K, V>>)
    requires Keyed(ks, xs) && multiset(xs) == multiset(ys)
    ensures Keyed(ks, ys)
  {
    forall i | 0 <= i < |ys| ensures ys[i].key in ks {
      assert ys[i] in multiset(ys);
      assert ys[i] in xs;
    }
  }

  /** Everything merged from `xs` and `ys` is at least `x` where both are. */
  lemma MergeAbove<K, V>(cmp: (K, K) -> int, x: K, xs: seq<KeyVal<K, V>>, ys: seq<KeyVal<K, V>>)
    requires forall i :: 0 <= i < |xs| ==> cmp(x, xs[i].key) <= 0
    requires forall i :: 0 <= i < |ys| ==> cmp(x, ys[i].key) <= 0
    ensures forall i :: 0 <= i < |Merge(cmp, xs, ys)| ==> cmp(x, Merge(cmp, xs, ys)[i].key) <= 0
  {
    hide Merge;
    MergePermutes(cmp, xs, ys);
    var m := Merge(cmp, xs, ys);
    forall i | 0 <= i < |m| ensures cmp(x, m[i].key) <= 0 {
      assert m[i] in multiset(m);
      assert m[i] in xs || m[i] in ys;
    }
  }

  lemma OrderedCons<K, V>(cmp: (K, K) -> int, x: KeyVal<K, V>, xs: seq<KeyVal<K, V>>)
    requires Ordered(cmp, xs) && forall i :: 0 <= i < |xs| ==> cmp(x.key, xs[i].key) <= 0
    ensures Ordered(cmp, [x] + xs)
  {
    var r := [x] + xs;
    forall i, j | 0 <= i < j < |r| ensures cmp(r[i].key, r[j].key) <= 0 {
      assert r[j] == xs[j - 1];
      assert i > 0 ==> r[i] == xs[i - 1];
    }
  }

  /** The head of an ordered stretch is below all of it, itself included. */
  lemma HeadBelow<K(!new), V>(cmp: (K, K) -> int, ks: iset<K>, x: K, xs: seq<KeyVal<K, V>>)
    requires Preorder(cmp, ks) && Keyed(ks, xs) && Ordered(cmp, xs) && x in ks && xs != [] && cmp(x, xs[0].key) <= 0
    ensures forall i :: 0 <= i < |xs| ==> cmp(x, xs[i].key) <= 0
  {
    forall i | 0 <= i < |xs| ensures cmp(x, xs[i].key) <= 0 {
      assert i > 0 ==> cmp(xs[0].key, xs[i].key) <= 0;
    }
  }

  lemma {:induction false} MergeOrdered<K(!new), V>(cmp: (K, K) -> int, ks: iset<K>, xs: seq<KeyVal<K, V>>,
                                                    ys: seq<KeyVal<K, V>>)
    requires Preorder(cmp, ks) && Keyed(ks, xs) && Keyed(ks, ys) && Ordered(cmp, xs) && Ordered(cmp, ys)
    ensures Ordered(cmp, Merge(cmp, xs, ys))
  {
    hide Preorder;
    if xs != [] && ys != [] {
      var x, y := xs[0].key, ys[0].key;
      assert cmp(x, x) <= 0 && cmp(y, y) <= 0 && (cmp(x, y) <= 0 || cmp(y, x) <= 0) by {
        Total(cmp, ks, x, x);
        Total(cmp, ks, y, y);
        Total(cmp, ks, x, y);
      }
      if cmp(x, y) <= 0 {
        HeadBelow(cmp, ks, x, xs);
        HeadBelow(cmp, ks, x, ys);
        MergeOrdered(cmp, ks, xs[1..], ys);
        MergeAbove(cmp, x, xs[1..], ys);
        OrderedCons(cmp, xs[0], Merge(cmp, xs[1..], ys));
      } else {
        HeadBelow(cmp, ks, y, xs);
        HeadBelow(cmp, ks, y, ys);
        MergeOrdered(cmp, ks, xs, ys[1..]);
        MergeAbove(cmp, y, xs, ys[1..]);
        OrderedCons(cmp, ys[0], Merge(cmp, xs, ys[1..]));
      }
    }
  }

  lemma Total<K(!new)>(cmp: (K, K) -> int, ks: iset<K>, x: K, y: K)
    requires Preorder(cmp, ks) && x in ks && y in ks
    ensures cmp(x, y) <= 0 || cmp(y, x) <= 0
  {
  }

  lemma Transitive<K(!new)>(cmp: (K, K) -> int, ks: iset<K>, x: K, y: K, z: K)
    requires Preorder(cmp, ks) && x in ks && y in ks && z in ks && cmp(x, y) <= 0 && cmp(y, z) <= 0
    ensures cmp(x, z) <= 0
  {
  }

  /** Ties from the left come before ties from the right. */
  lemma {:induction false} MergeStable<K(!new), V>(cmp: (K, K) -> int, ks: iset<K>, k: K, xs: seq<KeyVal<K, V>>,
                                                   ys: seq<KeyVal<K, V>>)
    requires Preorder(cmp, ks) && Keyed(ks, xs) && Keyed(ks, ys) && k in ks && Ordered(cmp, xs) && Ordered(cmp, ys)
    ensures Ties(cmp, k, Merge(cmp, xs, ys)) == Ties(cmp, k, xs) + Ties(cmp, k, ys)
  {
    hide Preorder, Tied;
    if xs != [] && ys != [] {
      var m := Merge(cmp, xs, ys);
      if cmp(xs[0].key, ys[0].key) <= 0 {
        MergeStable(cmp, ks, k, xs[1..], ys);
        assert m[0] == xs[0] && m[1..] == Merge(cmp, xs[1..], ys);
      } else {
        MergeStable(cmp, ks, k, xs, ys[1..]);
        assert m[0] == ys[0] && m[1..] == Merge(cmp, xs, ys[1..]);
        if Tied(cmp, k, ys[0].key) {
          LaterNotTied(cmp, ks, k, xs, ys[0].key);
          NoTies(cmp, k, xs);
        }
      }
    }
  }

  /** What is strictly above a tie of `k` does not tie with `k`. */
  lemma LaterNotTied<K(!new), V>(cmp: (K, K) -> int, ks: iset<K>, k: K, xs: seq<KeyVal<K, V>>, y: K)
    requires Preorder(cmp, ks) && Keyed(ks, xs) && k in ks && y in ks && Ordered(cmp, xs) && xs != []
    requires Tied(cmp, k, y) && !(cmp(xs[0].key, y) <= 0)
    ensures forall i :: 0 <= i < |xs| ==> !Tied(cmp, k, xs[i].key)
  {
    hide Preorder;
    forall i | 0 <= i < |xs| ensures !Tied(cmp, k, xs[i].key) {
      if Tied(cmp, k, xs[i].key) {
        Total(cmp, ks, xs[0].key, xs[0].key);
        assert cmp(xs[0].key, xs[i].key) <= 0;
        Transitive(cmp, ks, xs[0].key, xs[i].key, k);
        Transitive(cmp, ks, xs[0].key, k, y);
      }
    }
  }

  /** For keys in a preorder the sort gives a permutation in order, elements with
      tied keys as they came. */
  lemma {:induction false} SortsStably<K(!new), V>(cmp: (K, K) -> int, ks: iset<K>, xs: seq<KeyVal<K, V>>)
    requires Preorder(cmp, ks) && Keyed(ks, xs)
    ensures multiset(Sorted(cmp, xs)) == multiset(xs)
    ensures Ordered(cmp, Sorted(cmp, xs))
    ensures forall k :: k in ks ==> Ties(cmp, k, Sorted(cmp, xs)) == Ties(cmp, k, xs)
    decreases |xs|
  {
    hide Merge, Sorted, Preorder;
    SortedStep(cmp, xs);
    if |xs| >= 2 {
      var left, right := xs[..|xs| / 2], xs[|xs| / 2..];
      assert xs == left + right;
      SortsStably(cmp, ks, left);
      SortsStably(cmp, ks, right);
      KeyedByMultiset(ks, left, Sorted(cmp, left));
      KeyedByMultiset(ks, right, Sorted(cmp, right));
      MergePermutes(cmp, Sorted(cmp, left), Sorted(cmp, right));
      MergeOrdered(cmp, ks, Sorted(cmp, left), Sorted(cmp, right));
      forall k | k in ks ensures Ties(cmp, k, Sorted(cmp, xs)) == Ties(cmp, k, xs) {
        MergeStable(cmp, ks, k, Sorted(cmp, left), Sorted(cmp, right));
        TiesAppend(cmp, k, left, right);
      }
    }
  }

  /** The order and the ties say everything: no other arrangement has both. */
  lemma {:induction false} OrderAndTiesDecide<K(!new), V>(cmp: (K, K) -> int, ks: iset<K>, xs: seq<KeyVal<K, V>>,
                                                          ys: seq<KeyVal<K, V>>)
    requires Preorder(cmp, ks) && Keyed(ks, xs) && Keyed(ks, ys) && Ordered(cmp, xs) && Ordered(cmp, ys)
    requires forall k :: k in ks ==> Ties(cmp, k, xs) == Ties(cmp, k, ys)
    ensures xs == ys
  {
    hide Preorder;
    if xs == [] {
      if ys != [] { SelfTied(cmp, ks, ys); }
    } else {
      SelfTied(cmp, ks, xs);
      var k := xs[0].key;
      assert Ties(cmp, k, ys) != [];
      SelfTied(cmp, ks, ys);
      assert Ties(cmp, ys[0].key, xs) != [];
      HeadsTied(cmp, ks, xs, ys);
      assert xs[0] == Ties(cmp, k, xs)[0] == Ties(cmp, k, ys)[0] == ys[0];
      forall q | q in ks ensures Ties(cmp, q, xs[1..]) == Ties(cmp, q, ys[1..]) {
        var first := if Tied(cmp, q, k) then [xs[0]] else [];
        assert Ties(cmp, q, xs) == first + Ties(cmp, q, xs[1..]) && Ties(cmp, q, ys) == first + Ties(cmp, q, ys[1..]);
        assert Ties(cmp, q, xs)[|first|..] == Ties(cmp, q, xs[1..])
               && Ties(cmp, q, ys)[|first|..] == Ties(cmp, q, ys[1..]);
      }
      OrderAndTiesDecide(cmp, ks, xs[1..], ys[1..]);
      assert xs == [xs[0]] + xs[1..] && ys == [ys[0]] + ys[1..];
    }
  }

  lemma SelfTied<K(!new), V>(cmp: (K, K) -> int, ks: iset<K>, xs: seq<KeyVal<K, V>>)
    requires Preorder(cmp, ks) && Keyed(ks, xs) && xs != []
    ensures Tied(cmp, xs[0].key, xs[0].key) && Ties(cmp, xs[0].key, xs) != [] && Ties(cmp, xs[0].key, xs)[0] == xs[0]
  {
    Total(cmp, ks, xs[0].key, xs[0].key);
  }

  lemma HeadsTied<K(!new), V>(cmp: (K, K) -> int, ks: iset<K>, xs: seq<KeyVal<K, V>>, ys: seq<KeyVal<K, V>>)
    requires Preorder(cmp, ks) && Keyed(ks, xs) && Keyed(ks, ys) && Ordered(cmp, xs) && Ordered(cmp, ys) && xs != []
    requires ys != []
    requires Ties(cmp, xs[0].key, ys) != [] && Ties(cmp, ys[0].key, xs) != []
    ensures Tied(cmp, xs[0].key, ys[0].key)
  {
    hide Preorder, Ties;
    var x, y := xs[0].key, ys[0].key;
    SomeTies(cmp, x, ys);
    SomeTies(cmp, y, xs);
    var i :| 0 <= i < |ys| && Tied(cmp, x, ys[i].key);
    var j :| 0 <= j < |xs| && Tied(cmp, y, xs[j].key);
    Total(cmp, ks, x, x);
    Total(cmp, ks, y, y);
    Transitive(cmp, ks, y, ys[i].key, x);
    Transitive(cmp, ks, x, xs[j].key, y);
  }

  // ------------------------------------------------ the insertion sort it stands for

  function Inserted<K, V>(cmp: (K, K) -> int, x: KeyVal<K, V>, xs: seq<KeyVal<K, V>>): seq<KeyVal<K, V>> {
    if xs == [] then [x]
    else if cmp(x.key, xs[0].key) <= 0 then [x] + xs
    else [xs[0]] + Inserted(cmp, x, xs[1..])
  }

  function InsertionSorted<K, V>(cmp: (K, K) -> int, xs: seq<KeyVal<K, V>>): seq<KeyVal<K, V>> {
    if xs == [] then [] else Inserted(cmp, xs[0], InsertionSorted(cmp, xs[1..]))
  }

  lemma {:induction false} InsertedIsMerge<K, V>(cmp: (K, K) -> int, x: KeyVal<K, V>, xs: seq<KeyVal<K, V>>)
    ensures Inserted(cmp, x, xs) == Merge(cmp, [x], xs)
  {
    if xs != [] {
      assert [x][1..] == [];
      InsertedIsMerge(cmp, x, xs[1..]);
    }
  }

  lemma {:induction false} InsertionSorts<K(!new), V>(cmp: (K, K) -> int, ks: iset<K>, xs: seq<KeyVal<K, V>>)
    requires Preorder(cmp, ks) && Keyed(ks, xs)
    ensures Keyed(ks, InsertionSorted(cmp, xs)) && Ordered(cmp, InsertionSorted(cmp, xs))
    ensures multiset(InsertionSorted(cmp, xs)) == multiset(xs)
    ensures forall k :: k in ks ==> Ties(cmp, k, InsertionSorted(cmp, xs)) == Ties(cmp, k, xs)
  {
    hide Merge, Preorder, Inserted, Ties;
    if xs != [] {
      var one, rest := [xs[0]], InsertionSorted(cmp, xs[1..]);
      assert xs == one + xs[1..];
      InsertionSorts(cmp, ks, xs[1..]);
      InsertedIsMerge(cmp, xs[0], rest);
      MergePermutes(cmp, one, rest);
      MergeOrdered(cmp, ks, one, rest);
      KeyedByMultiset(ks, one + rest, Merge(cmp, one, rest));
      forall k | k in ks ensures Ties(cmp, k, InsertionSorted(cmp, xs)) == Ties(cmp, k, xs) {
        MergeStable(cmp, ks, k, one, rest);
        TiesAppend(cmp, k, one, xs[1..]);
      }
    }
  }

  /** The merge sort computes exactly what the insertion sort it replaced did. */
  lemma MergeSortIsInsertionSort<K(!new), V>(cmp: (K, K) -> int, ks: iset<K>, xs: seq<KeyVal<K, V>>)
    requires Preorder(cmp, ks) && Keyed(ks, xs)
    ensures Sorted(cmp, xs) == InsertionSorted(cmp, xs)
  {
    hide Sorted, InsertionSorted, Preorder, Ties;
    SortsStably(cmp, ks, xs);
    InsertionSorts(cmp, ks, xs);
    KeyedByMultiset(ks, xs, Sorted(cmp, xs));
    OrderAndTiesDecide(cmp, ks, Sorted(cmp, xs), InsertionSorted(cmp, xs));
  }

  // ------------------------------------------------------------------ sorting by a key

  function Pairs<K, V>(f: V -> K, vs: seq<V>): (r: seq<KeyVal<K, V>>)
    ensures |r| == |vs| && forall i :: 0 <= i < |vs| ==> r[i] == KeyVal(f(vs[i]), vs[i])
  {
    if vs == [] then [] else [KeyVal(f(vs[0]), vs[0])] + Pairs(f, vs[1..])
  }

  /** The keys are computed once each, sorted with their elements, and dropped. */
  method SortBy<K(0), V(0)>(cmp: (K, K) -> int, f: V -> K, s: seq<V>) returns (w: seq<V>)
    ensures Pairs(f, w) == Sorted(cmp, Pairs(f, s))
  {
    hide Sorted, Pairs;
    var n := |s|;
    var kv := new KeyVal<K, V>[n];
    var tmp := new KeyVal<K, V>[n];
    var i := 0;
    while i < n
      invariant i <= n && forall p :: 0 <= p < i ==> kv[p] == KeyVal(f(s[p]), s[p])
    {
      kv[i] := KeyVal(f(s[i]), s[i]);
      i := i + 1;
    }
    assert kv[0..0 + n] == Pairs(f, s);
    Sort(cmp, kv, 0, n, tmp);
    ghost var sorted := Sorted(cmp, Pairs(f, s));
    SortedKeepsKeys(cmp, f, s);
    assert forall p :: 0 <= p < n ==> kv[p] == sorted[p] by { assert kv[0..0 + n] == sorted; }
    w := [];
    i := 0;
    while i < n
      invariant i <= n && |w| == i && forall p :: 0 <= p < i ==> w[p] == sorted[p].val
    {
      w := w + [kv[i].val];
      i := i + 1;
    }
    assert Pairs(f, w) == sorted;
  }

  lemma SortedKeepsKeys<K, V>(cmp: (K, K) -> int, f: V -> K, s: seq<V>)
    ensures |Sorted(cmp, Pairs(f, s))| == |s|
    ensures forall p :: 0 <= p < |s| ==> Sorted(cmp, Pairs(f, s))[p].key == f(Sorted(cmp, Pairs(f, s))[p].val)
  {
    hide Sorted;
    var xs := Pairs(f, s);
    var sorted := Sorted(cmp, xs);
    SortedPermutes(cmp, xs);
    forall p | 0 <= p < |s| ensures sorted[p].key == f(sorted[p].val) {
      assert sorted[p] in multiset(sorted);
      assert sorted[p] in xs;
    }
  }

  lemma {:induction false} SortedPermutes<K, V>(cmp: (K, K) -> int, xs: seq<KeyVal<K, V>>)
    ensures multiset(Sorted(cmp, xs)) == multiset(xs) && |Sorted(cmp, xs)| == |xs|
    decreases |xs|
  {
    hide Merge, Sorted;
    SortedStep(cmp, xs);
    SortedLength(cmp, xs);
    if |xs| >= 2 {
      var left, right := xs[..|xs| / 2], xs[|xs| / 2..];
      assert xs == left + right;
      SortedPermutes(cmp, left);
      SortedPermutes(cmp, right);
      MergePermutes(cmp, Sorted(cmp, left), Sorted(cmp, right));
    }
  }

  /** The runtime's comparison, 0 standing for where it would stop. */
  function Compare(x: Order.Val, y: Order.Val): int {
    match Order.Cmp(x, y)
    case Some(c) => c
    case None => 0
  }

  ghost function KeysOf(d: Order.Decls, t: Order.Ty): iset<Order.Val> { iset k: Order.Val | Order.HasTy(d, k, t) }

  /** Keys of one type are in a preorder under the runtime's comparison, so a sort
      by them is in order and stable. */
  lemma TypedKeysOrdered(d: Order.Decls, t: Order.Ty)
    ensures Preorder(Compare, KeysOf(d, t))
  {
    hide Order.Cmp, Order.HasTy, Order.Eq;
    var ks := KeysOf(d, t);
    var cmp := Compare;
    forall x, y | x in ks && y in ks ensures cmp(x, y) <= 0 || cmp(y, x) <= 0 { Order.TotalOrder(d, x, y, y, t); }
    forall x, y, z | x in ks && y in ks && z in ks && cmp(x, y) <= 0 && cmp(y, z) <= 0 ensures cmp(x, z) <= 0 {
      Order.TotalOrder(d, x, y, z, t);
    }
  }
}
