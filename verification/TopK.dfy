/** The k largest elements by a heap, as topk.c finds them in place. */
module TopK {

  // ---- Heaps in a prefix of an array ----

  function Parent(i: nat): nat
    requires i > 0
  {
    (i - 1) / 2
  }

  /** From index `lo` on, no node is above its children, except perhaps node `hole`. */
  ghost predicate HeapBut(s: seq<int>, lo: nat, hole: int) {
    forall i :: 0 < i < |s| && lo <= Parent(i) != hole ==> s[Parent(i)] <= s[i]
  }

  ghost predicate Heap(s: seq<int>, lo: nat) {
    HeapBut(s, lo, -1)
  }

  /** The children of `hole` are not below its parent. */
  ghost predicate Bridge(s: seq<int>, lo: nat, hole: nat) {
    hole > 0 && lo <= Parent(hole) && Parent(hole) < |s| ==>
      forall i :: 0 < i < |s| && Parent(i) == hole ==> s[Parent(hole)] <= s[i]
  }

  function Swapped(s: seq<int>, i: nat, j: nat): (r: seq<int>)
    requires i < |s| && j < |s|
    ensures |r| == |s|
  {
    s[i := s[j]][j := s[i]]
  }

  lemma {:induction false} SwapPermutes(s: seq<int>, i: nat, j: nat)
    requires i < |s| && j < |s|
    ensures multiset(Swapped(s, i, j)) == multiset(s)
  {
    if i != j {
      var t := s[i := s[j]];
      assert multiset(t) == multiset(s) - multiset{s[i]} + multiset{s[j]};
      assert multiset(t[j := s[i]]) == multiset(t) - multiset{t[j]} + multiset{s[i]};
    }
  }

  /** Swapping a node with its smaller child moves the one fault down to that child. */
  lemma {:induction false} SiftStep(s: seq<int>, lo: nat, parent: nat, child: nat)
    requires lo <= parent && (child == 2 * parent + 1 || child == 2 * parent + 2) && child < |s|
    requires s[parent] > s[child] && NotAbove(s, parent, s[child])
    requires HeapBut(s, lo, parent) && Bridge(s, lo, parent)
    ensures HeapBut(Swapped(s, parent, child), lo, child) && Bridge(Swapped(s, parent, child), lo, child)
  {
    var t := Swapped(s, parent, child);
    forall i | 0 < i < |t| && lo <= Parent(i) != child ensures t[Parent(i)] <= t[i] {
      if i == parent { assert Parent(child) == parent && s[Parent(i)] <= s[child]; }
      if Parent(i) == parent { assert i == 2 * parent + 1 || i == 2 * parent + 2; }
    }
  }

  /** Nothing at or below the children of `parent` is less than `x`, as far as they exist. */
  ghost predicate NotAbove(s: seq<int>, parent: nat, x: int) {
    && (2 * parent + 1 < |s| ==> x <= s[2 * parent + 1])
    && (2 * parent + 2 < |s| ==> x <= s[2 * parent + 2])
  }

  lemma {:induction false} SiftEnd(s: seq<int>, lo: nat, parent: nat)
    requires HeapBut(s, lo, parent) && parent < |s| && NotAbove(s, parent, s[parent])
    ensures Heap(s, lo)
  {
    forall i | 0 < i < |s| && lo <= Parent(i) ensures s[Parent(i)] <= s[i] {
      if Parent(i) == parent { assert i == 2 * parent + 1 || i == 2 * parent + 2; }
    }
  }

  lemma {:induction false} RootLeast(s: seq<int>, i: nat)
    requires Heap(s, 0) && i < |s|
    ensures s[0] <= s[i]
  {
    if i > 0 { RootLeast(s, Parent(i)); }
  }

  /** Sifts the element at `start` down: below it the heap was already in order. */
  method AdjustDown(a: array<int>, start: nat, sz: nat)
    requires start < sz <= a.Length && HeapBut(a[..sz], start, start)
    modifies a
    ensures Heap(a[..sz], start)
    ensures multiset(a[..sz]) == multiset(old(a[..sz])) && a[sz..] == old(a[sz..])
  {
    hide HeapBut, Bridge, Heap, Parent;
    var parent := start;
    var child := parent * 2 + 1;
    ghost var s := a[..sz];
    SiftStart(s, start);
    while child < sz
      invariant start <= parent < sz && child == parent * 2 + 1
      invariant |s| == sz && a[..sz] == s && a[sz..] == old(a[sz..])
      invariant HeapBut(s, start, parent) && Bridge(s, start, parent)
      invariant multiset(s) == multiset(old(a[..sz]))
      decreases sz - parent
    {
      if child + 1 < sz && a[child] > a[child + 1] {
        child := child + 1;
      }
      assert s[child] == a[child] && s[parent] == a[parent];
      assert NotAbove(s, parent, s[child]);
      if a[parent] > a[child] {
        SiftStep(s, start, parent, child);
        SwapPermutes(s, parent, child);
        a[parent], a[child] := a[child], a[parent];
        s := Swapped(s, parent, child);
      } else {
        break;
      }
      parent := child;
      child := parent * 2 + 1;
    }
    SiftEnd(s, start, parent);
  }

  lemma {:induction false} SiftStart(s: seq<int>, lo: nat)
    ensures Bridge(s, lo, lo)
  {
  }

  // ---- The k largest ----

  /** `m` are `k` elements of `s` such that nothing left out is larger than anything taken. */
  ghost predicate Largest(m: multiset<int>, s: seq<int>, k: nat) {
    && |m| == k && m <= multiset(s)
    && forall x, y :: x in m && y in multiset(s) - m ==> y <= x
  }

  lemma {:induction false} SameSize(a: multiset<int>, b: multiset<int>)
    requires a <= b && |a| == |b|
    ensures a == b
  {
    assert |b - a| == |b| - |a|;
    assert b == a + (b - a);
  }

  /** There is only one such multiset. */
  lemma {:induction false} LargestUnique(m: multiset<int>, m': multiset<int>, s: seq<int>, k: nat)
    requires Largest(m, s, k) && Largest(m', s, k)
    ensures m == m'
  {
    forall x ensures m[x] <= m'[x] {
      LargestSame(m, m', s, k, x);
    }
    SameSize(m, m');
  }

  /** One that takes some `x` more often takes everything above `x`, so it would have too many. */
  lemma {:induction false} LargestSame(m: multiset<int>, m': multiset<int>, s: seq<int>, k: nat, x: int)
    requires Largest(m, s, k) && Largest(m', s, k)
    ensures m[x] <= m'[x]
  {
    assert m[x] > m'[x] ==> x in m && x in multiset(s) - m';
    forall y ensures m[x] > m'[x] ==> m'[y] <= m[y] {
      assert m'[y] > m[y] ==> y in m' && y in multiset(s) - m;
    }
    if m' <= m { SameSize(m', m); }
  }

  lemma {:induction false} LargestStart(s: seq<int>)
    ensures Largest(multiset(s), s, |s|)
  {
  }

  /** Looking at one more element, which is above the least one taken or not. */
  lemma {:induction false} LargestNext(m: multiset<int>, s: seq<int>, k: nat, least: int, x: int)
    requires Largest(m, s, k) && least in m && forall y :: y in m ==> least <= y
    ensures Largest(if x > least then m - multiset{least} + multiset{x} else m, s + [x], k)
  {
    assert multiset(s + [x]) == multiset(s) + multiset{x};
    if x > least {
      var m' := m - multiset{least} + multiset{x};
      assert multiset(s + [x]) - m' == multiset(s) - m + multiset{least};
    } else {
      assert multiset(s + [x]) - m == multiset(s) - m + multiset{x};
    }
  }

  /** Step one: a heap of the first `k` elements. */
  method BuildHeap(a: array<int>, k: nat)
    requires 1 <= k <= a.Length
    modifies a
    ensures Heap(a[..k], 0) && multiset(a[..k]) == multiset(old(a[..k])) && a[k..] == old(a[k..])
  {
    // C's (k - 1 - 1) / 2 truncates: 0 for k == 1.
    var i := if k < 2 then 0 else (k - 2) / 2;
    while i >= 0
      invariant -1 <= i <= k
      invariant Heap(a[..k], i + 1) && multiset(a[..k]) == multiset(old(a[..k])) && a[k..] == old(a[k..])
    {
      AdjustDown(a, i, k);
      i := i - 1;
    }
  }

  method PrintTopK(a: array<int>, k: nat) returns (out: seq<int>)
    requires 1 <= k <= a.Length
    modifies a
    ensures out == a[..k] && Heap(out, 0) && Largest(multiset(out), old(a[..]), k)
    ensures a[k..] == old(a[k..])
  {
    BuildHeap(a, k);
    ghost var input := old(a[..]);
    LargestStart(input[..k]);
    assert input[..k] == old(a[..k]);
    var i := k;
    while i < a.Length
      invariant k <= i <= a.Length
      invariant Heap(a[..k], 0) && Largest(multiset(a[..k]), input[..i], k) && a[k..] == input[k..]
    {
      ghost var s := a[..k];
      TakeNext(s, input, i, k);
      assert a[i] == a[k..][i - k] == input[i];
      if a[i] > a[0] {
        a[0] := a[i];
        assert a[..k] == s[0 := input[i]];
        AdjustDown(a, 0, k);
      }
      i := i + 1;
    }
    assert input[..a.Length] == input;
    out := [];
    i := 0;
    while i < k
      invariant 0 <= i <= k && out == a[..i]
    {
      out := out + [a[i]];
      i := i + 1;
    }
  }

  lemma {:induction false} RootLeastOf(s: seq<int>)
    requires s != [] && Heap(s, 0)
    ensures s[0] in multiset(s) && forall y :: y in multiset(s) ==> s[0] <= y
  {
    forall y | y in multiset(s) ensures s[0] <= y {
      var j :| 0 <= j < |s| && s[j] == y;
      RootLeast(s, j);
    }
    assert s[0] in s;
  }

  lemma {:induction false} NewRoot(s: seq<int>, x: int)
    requires s != [] && Heap(s, 0)
    ensures HeapBut(s[0 := x], 0, 0) && multiset(s[0 := x]) == multiset(s) - multiset{s[0]} + multiset{x}
  {
  }

  lemma {:induction false} TakeNext(s: seq<int>, input: seq<int>, i: nat, k: nat)
    requires i < |input| && 1 <= k == |s| && Heap(s, 0) && Largest(multiset(s), input[..i], k)
    ensures input[i] > s[0] ==> Largest(multiset(s[0 := input[i]]), input[..i + 1], k) && HeapBut(s[0 := input[i]], 0, 0)
    ensures input[i] <= s[0] ==> Largest(multiset(s), input[..i + 1], k)
  {
    RootLeastOf(s);
    NewRoot(s, input[i]);
    hide HeapBut, Largest, Heap;
    var m, seen, x := multiset(s), input[..i], input[i];
    assert input[..i + 1] == seen + [x];
    LargestNext(m, seen, k, s[0], x);
  }
}
