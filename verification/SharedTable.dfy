/**
 The read-only shared table of lua-sharedata.c: a Lua table is copied into an array part and a hash
 part with exactly as many slots as keys, filled in two passes, with collision chains linked by
 slot index.

 Keys are integers that fit a C int, or strings. The string hash is any function.
 */
module SharedTable {

  import opened Wrappers

  const WRAP: int := 0x1_0000_0000

  type Int = i: int | -0x8000_0000 <= i < 0x8000_0000
  datatype Key = IntKey(i: Int) | StrKey(s: string)

  type StringHash = string -> nat

  function KeyHash(h: StringHash, k: Key): nat {
    match k
    case IntKey(i) => i % WRAP
    case StrKey(s) => h(s) % WRAP
  }

  /** A slot; `value` is None while its value type is VALUETYPE_NIL. */
  datatype Node<V> = Node(key: Key, value: Option<V>, keyhash: nat, next: int, nocolliding: bool)

  datatype Entry<V> = Entry(key: Key, value: V)

  predicate Distinct<V>(es: seq<Entry<V>>) {
    forall i, j :: 0 <= i < j < |es| ==> es[i].key != es[j].key
  }

  predicate IsHashKey(sizearray: nat, k: Key) {
    k.StrKey? || k.i <= 0 || k.i > sizearray
  }

  ghost function HashKeys<V>(es: seq<Entry<V>>, sizearray: nat): set<Key> {
    set i | 0 <= i < |es| && IsHashKey(sizearray, es[i].key) :: es[i].key
  }

  /** What the source table holds under a key. */
  ghost function Source<V>(es: seq<Entry<V>>, k: Key): Option<V>
  {
    if exists i :: 0 <= i < |es| && es[i].key == k then
      var i :| 0 <= i < |es| && es[i].key == k; Some(es[i].value)
    else None
  }

  lemma {:induction false} SourceAt<V>(es: seq<Entry<V>>, i: nat)
    requires Distinct(es) && i < |es|
    ensures Source(es, es[i].key) == Some(es[i].value)
  {
  }

  // ---- The hash part ----

  /** Slots joined by `next`, the last one ending the chain. */
  ghost predicate Linked<V>(hash: seq<Node<V>>, chain: seq<nat>) {
    && (forall i :: 0 <= i < |chain| ==> chain[i] < |hash|)
    && (forall i, j :: 0 <= i < j < |chain| ==> chain[i] != chain[j])
    && (forall i :: 0 <= i < |chain| - 1 ==> hash[chain[i]].next == chain[i + 1])
    && (chain != [] ==> hash[chain[|chain| - 1]].next < 0)
  }

  ghost predicate Filled<V>(hash: seq<Node<V>>, p: int) {
    0 <= p < |hash| && hash[p].value.Some?
  }

  function MainPos(h: StringHash, n: nat, k: Key): (p: nat)
    requires n > 0
    ensures p < n
  {
    KeyHash(h, k) % n
  }

  /** Every filled slot holds an entry of the source. */
  ghost predicate Holds<V>(hash: seq<Node<V>>, h: StringHash, es: seq<Entry<V>>, sizearray: nat) {
    forall p :: 0 <= p < |hash| && hash[p].value.Some? ==>
      && Entry(hash[p].key, hash[p].value.value) in es
      && IsHashKey(sizearray, hash[p].key)
      && hash[p].keyhash == KeyHash(h, hash[p].key)
  }

  /** `chains[m]` are the slots of the keys whose main position is `m`, in the order of the links. */
  ghost predicate Chained<V>(hash: seq<Node<V>>, h: StringHash, chains: seq<seq<nat>>) {
    && |chains| == |hash|
    && (forall m :: 0 <= m < |chains| ==> Linked(hash, chains[m]) && (chains[m] != [] ==> chains[m][0] == m))
    && (forall m, i :: 0 <= m < |chains| && 0 <= i < |chains[m]| ==>
          && Filled(hash, chains[m][i])
          && MainPos(h, |hash|, hash[chains[m][i]].key) == m)
    && (forall p :: Filled(hash, p) ==> p in chains[MainPos(h, |hash|, hash[p].key)])
    && (forall p :: Filled(hash, p) && hash[p].nocolliding ==> chains[p] == [p])
  }

  ghost predicate KeysDistinct<V>(hash: seq<Node<V>>) {
    forall p, q :: Filled(hash, p) && Filled(hash, q) && p != q ==> hash[p].key != hash[q].key
  }

  ghost predicate HashInv<V>(hash: seq<Node<V>>, h: StringHash, es: seq<Entry<V>>, sizearray: nat, chains: seq<seq<nat>>) {
    Holds(hash, h, es, sizearray) && Chained(hash, h, chains) && KeysDistinct(hash)
  }

  // ---- Filling one slot ----

  function FirstNode<V>(k: Key, v: V, hash: nat): Node<V> {
    Node(k, Some(v), hash, -1, true)
  }

  /** First pass: the main position of a key is free. */
  lemma {:induction false} FillMain<V>(hash: seq<Node<V>>, h: StringHash, es: seq<Entry<V>>, sizearray: nat, chains: seq<seq<nat>>, e: Entry<V>)
    requires HashInv(hash, h, es, sizearray, chains) && |hash| > 0
    requires e in es && IsHashKey(sizearray, e.key) && !Filled(hash, MainPos(h, |hash|, e.key))
    requires forall p :: Filled(hash, p) ==> hash[p].key != e.key
    requires forall m :: 0 <= m < |chains| ==> |chains[m]| <= 1
    ensures var m := MainPos(h, |hash|, e.key);
            && chains[m] == []
            && HashInv(hash[m := FirstNode(e.key, e.value, KeyHash(h, e.key))], h, es, sizearray, chains[m := [m]])
  {
    hide MainPos, KeyHash, Linked;
    var m := MainPos(h, |hash|, e.key);
    var node := FirstNode(e.key, e.value, KeyHash(h, e.key));
    var hash', chains' := hash[m := node], chains[m := [m]];
    assert chains[m] == [];
    FillMainHolds(hash, h, es, sizearray, e, m);
    forall x | 0 <= x < |chains| ensures Linked(hash', chains'[x]) {
      if x == m {
        LinkedAlone(hash', m);
      } else {
        LinkedElsewhere(hash, chains[x], m, node);
      }
    }
    forall p | Filled(hash', p) ensures p in chains'[MainPos(h, |hash|, hash'[p].key)] {
      if p != m {
        assert Filled(hash, p);
      }
    }
  }

  lemma {:induction false} LinkedElsewhere<V>(hash: seq<Node<V>>, c: seq<nat>, m: nat, node: Node<V>)
    requires Linked(hash, c) && m < |hash| && forall i :: 0 <= i < |c| ==> c[i] != m
    ensures Linked(hash[m := node], c)
  {
  }

  lemma {:induction false} LinkedAlone<V>(hash: seq<Node<V>>, m: nat)
    requires m < |hash| && hash[m].next < 0
    ensures Linked(hash, [m])
  {
  }

  lemma {:induction false} FillMainHolds<V>(hash: seq<Node<V>>, h: StringHash, es: seq<Entry<V>>, sizearray: nat, e: Entry<V>, m: nat)
    requires Holds(hash, h, es, sizearray) && KeysDistinct(hash) && m < |hash|
    requires !Filled(hash, m) && e in es && IsHashKey(sizearray, e.key)
    requires forall p :: Filled(hash, p) ==> hash[p].key != e.key
    ensures var hash' := hash[m := FirstNode(e.key, e.value, KeyHash(h, e.key))];
            Holds(hash', h, es, sizearray) && KeysDistinct(hash')
  {
    hide KeyHash;
    var hash' := hash[m := FirstNode(e.key, e.value, KeyHash(h, e.key))];
    assert forall p :: Filled(hash', p) && p != m ==> Filled(hash, p) && hash'[p] == hash[p];
  }

  /** Second pass: the key goes to a free slot, linked right behind its main position. */
  function Collide<V>(hash: seq<Node<V>>, m: nat, q: nat, k: Key, v: V, kh: nat): seq<Node<V>>
    requires m < |hash| && q < |hash|
  {
    hash[q := Node(k, Some(v), kh, hash[m].next, false)][m := hash[m].(next := q, nocolliding := false)]
  }

  lemma {:induction false} CollideLinks<V>(hash: seq<Node<V>>, c: seq<nat>, m: nat, q: nat, k: Key, v: V, kh: nat)
    requires m < |hash| && q < |hash| && m != q && Linked(hash, c) && q !in c
    ensures c != [] && c[0] == m ==> Linked(Collide(hash, m, q, k, v, kh), [m, q] + c[1..])
    ensures m !in c ==> Linked(Collide(hash, m, q, k, v, kh), c)
  {
    var hash' := Collide(hash, m, q, k, v, kh);
    if c != [] && c[0] == m {
      var c' := [m, q] + c[1..];
      forall i | 0 <= i < |c'| - 1 ensures hash'[c'[i]].next == c'[i + 1] {
        assert i >= 2 ==> c'[i] == c[i - 1] && c'[i + 1] == c[i];
        assert i == 1 && |c| > 1 ==> c'[2] == c[1];
      }
      assert |c'| > 2 ==> c'[|c'| - 1] == c[|c| - 1];
    }
  }

  lemma {:induction false} FillFree<V>(hash: seq<Node<V>>, h: StringHash, es: seq<Entry<V>>, sizearray: nat, chains: seq<seq<nat>>, e: Entry<V>, q: nat)
    requires HashInv(hash, h, es, sizearray, chains)
    requires q < |hash| && hash[q].value.None?
    requires e in es && IsHashKey(sizearray, e.key) && chains[MainPos(h, |hash|, e.key)] != []
    requires forall p :: Filled(hash, p) ==> hash[p].key != e.key
    ensures var m := MainPos(h, |hash|, e.key);
            HashInv(Collide(hash, m, q, e.key, e.value, KeyHash(h, e.key)), h, es, sizearray, chains[m := [m, q] + chains[m][1..]])
  {
    var m, kh := MainPos(h, |hash|, e.key), KeyHash(h, e.key);
    var hash', chains' := Collide(hash, m, q, e.key, e.value, kh), chains[m := [m, q] + chains[m][1..]];
    assert Filled(hash, chains[m][0]);
    assert m != q;
    FillFreeHolds(hash, h, es, sizearray, e, m, q);
    assert Chained(hash', h, chains') by {
      forall x | 0 <= x < |chains|
        ensures Linked(hash', chains'[x]) && (chains'[x] != [] ==> chains'[x][0] == x)
      {
        CollideLinks(hash, chains[x], m, q, e.key, e.value, kh);
      }
      hide Linked;
      FillFreeMembers(hash, h, chains, e, m, q);
    }
  }

  lemma {:induction false} FillFreeHolds<V>(hash: seq<Node<V>>, h: StringHash, es: seq<Entry<V>>, sizearray: nat, e: Entry<V>, m: nat, q: nat)
    requires Holds(hash, h, es, sizearray) && KeysDistinct(hash) && m != q && m < |hash| && q < |hash|
    requires hash[q].value.None? && e in es && IsHashKey(sizearray, e.key)
    requires forall p :: Filled(hash, p) ==> hash[p].key != e.key
    ensures var hash' := Collide(hash, m, q, e.key, e.value, KeyHash(h, e.key));
            Holds(hash', h, es, sizearray) && KeysDistinct(hash')
  {
    var hash' := Collide(hash, m, q, e.key, e.value, KeyHash(h, e.key));
    assert forall p :: Filled(hash', p) && p != q ==> Filled(hash, p) && hash'[p].key == hash[p].key;
  }

  lemma {:induction false} FillFreeMembers<V>(hash: seq<Node<V>>, h: StringHash, chains: seq<seq<nat>>, e: Entry<V>, m: nat, q: nat)
    requires Chained(hash, h, chains) && m != q && m < |hash| && q < |hash| && m == MainPos(h, |hash|, e.key)
    requires hash[q].value.None? && chains[m] != []
    ensures var hash', chains' := Collide(hash, m, q, e.key, e.value, KeyHash(h, e.key)), chains[m := [m, q] + chains[m][1..]];
            && (forall x, i :: 0 <= x < |chains'| && 0 <= i < |chains'[x]| ==>
                  Filled(hash', chains'[x][i]) && MainPos(h, |hash'|, hash'[chains'[x][i]].key) == x)
            && (forall p :: Filled(hash', p) ==> p in chains'[MainPos(h, |hash'|, hash'[p].key)])
            && (forall p :: Filled(hash', p) && hash'[p].nocolliding ==> chains'[p] == [p])
  {
    hide Linked, MainPos, KeyHash;
    var hash', chains' := Collide(hash, m, q, e.key, e.value, KeyHash(h, e.key)), chains[m := [m, q] + chains[m][1..]];
    forall x, i | 0 <= x < |chains'| && 0 <= i < |chains'[x]|
      ensures Filled(hash', chains'[x][i]) && MainPos(h, |hash'|, hash'[chains'[x][i]].key) == x
    {
      InChain(hash, h, chains, e, m, q, x, i);
    }
    forall p | Filled(hash', p) ensures p in chains'[MainPos(h, |hash'|, hash'[p].key)] {
      if p != q {
        OldInChain(hash, h, chains, m, q, p);
      }
    }
  }

  lemma {:induction false} InChain<V>(hash: seq<Node<V>>, h: StringHash, chains: seq<seq<nat>>, e: Entry<V>, m: nat, q: nat, x: nat, i: nat)
    requires Chained(hash, h, chains) && m != q && m < |hash| && q < |hash| && m == MainPos(h, |hash|, e.key)
    requires hash[q].value.None? && chains[m] != []
    requires x < |chains| && i < |chains[m := [m, q] + chains[m][1..]][x]|
    ensures var hash', c := Collide(hash, m, q, e.key, e.value, KeyHash(h, e.key)), chains[m := [m, q] + chains[m][1..]][x][i];
            Filled(hash', c) && MainPos(h, |hash|, hash'[c].key) == x
  {
    hide Linked, MainPos, KeyHash;
    if x == m && i >= 2 {
      assert ([m, q] + chains[m][1..])[i] == chains[m][i - 1];
    } else if x == m {
      assert chains[m][0] == m;
    } else {
      assert Filled(hash, chains[x][i]);
    }
  }

  lemma {:induction false} OldInChain<V>(hash: seq<Node<V>>, h: StringHash, chains: seq<seq<nat>>, m: nat, q: nat, p: nat)
    requires Chained(hash, h, chains) && m < |hash| && Filled(hash, p) && chains[m] != []
    ensures p in chains[m := [m, q] + chains[m][1..]][MainPos(h, |hash|, hash[p].key)]
  {
    hide Linked, MainPos, KeyHash;
    var x := MainPos(h, |hash|, hash[p].key);
    var i :| 0 <= i < |chains[x]| && chains[x][i] == p;
    if x == m {
      var c := [m, q] + chains[m][1..];
      assert if i > 0 then c[i + 1] == p else c[0] == p;
    }
  }

  // ---- Counting slots against keys ----

  ghost function FilledSlots<V>(hash: seq<Node<V>>): set<nat> {
    set p: nat | p < |hash| && hash[p].value.Some?
  }

  ghost function Keys<V>(hash: seq<Node<V>>, slots: set<nat>): set<Key>
    requires forall p :: p in slots ==> p < |hash|
  {
    set p | p in slots :: hash[p].key
  }

  lemma {:induction false} AsManyKeys<V>(hash: seq<Node<V>>, slots: set<nat>)
    requires KeysDistinct(hash) && slots <= FilledSlots(hash)
    ensures |Keys(hash, slots)| == |slots|
    decreases slots
  {
    if slots != {} {
      var p :| p in slots;
      var rest := slots - {p};
      AsManyKeys(hash, rest);
      assert forall q :: q in rest ==> Filled(hash, q);
      assert Filled(hash, p) && hash[p].key !in Keys(hash, rest);
      assert Keys(hash, slots) == Keys(hash, rest) + {hash[p].key};
    } else {
      assert Keys(hash, slots) == {};
    }
  }

  lemma {:induction false} BelowN(s: set<nat>, n: nat)
    requires forall p :: p in s ==> p < n
    ensures |s| <= n && (|s| == n ==> forall p: nat :: p < n ==> p in s)
    decreases n
  {
    if n > 0 {
      BelowN(s - {n - 1}, n - 1);
      if n - 1 in s {
        assert s == (s - {n - 1}) + {n - 1};
      } else {
        assert s - {n - 1} == s;
      }
    }
  }

  ghost predicate Placed<V>(hash: seq<Node<V>>, k: Key) {
    exists p :: Filled(hash, p) && hash[p].key == k
  }

  lemma {:induction false} KeysAreHashKeys<V>(hash: seq<Node<V>>, h: StringHash, es: seq<Entry<V>>, sizearray: nat)
    requires Holds(hash, h, es, sizearray)
    ensures Keys(hash, FilledSlots(hash)) <= HashKeys(es, sizearray)
  {
    forall k | k in Keys(hash, FilledSlots(hash)) ensures k in HashKeys(es, sizearray) {
      var p: nat :| p in FilledSlots(hash) && hash[p].key == k;
      var e := Entry(hash[p].key, hash[p].value.value);
      assert e in es;
      var i :| 0 <= i < |es| && es[i] == e;
    }
  }

  /** As long as a key is missing, a slot is free. */
  lemma {:induction false} SlotIsFree<V>(hash: seq<Node<V>>, h: StringHash, es: seq<Entry<V>>, sizearray: nat, k: Key)
    requires Holds(hash, h, es, sizearray) && KeysDistinct(hash) && |hash| == |HashKeys(es, sizearray)|
    requires k in HashKeys(es, sizearray) && !Placed(hash, k)
    ensures exists p :: 0 <= p < |hash| && hash[p].value.None?
  {
    var slots := FilledSlots(hash);
    KeysAreHashKeys(hash, h, es, sizearray);
    AsManyKeys(hash, slots);
    assert forall p :: p in slots ==> Filled(hash, p);
    assert k !in Keys(hash, slots);
    Smaller(Keys(hash, slots), HashKeys(es, sizearray), k);
    if forall p :: 0 <= p < |hash| ==> hash[p].value.Some? {
      assert forall p: nat :: p < |hash| ==> p in slots;
      AtLeast(slots, |hash|);
    }
  }

  lemma {:induction false} Smaller(a: set<Key>, b: set<Key>, k: Key)
    requires a <= b && k in b && k !in a
    ensures |a| < |b|
  {
    assert a + {k} <= b;
    Subset(a + {k}, b);
  }

  lemma {:induction false} Subset(a: set<Key>, b: set<Key>)
    requires a <= b
    ensures |a| <= |b| && (|a| == |b| ==> a == b)
  {
    assert b == a + (b - a);
  }

  lemma {:induction false} AtLeast(s: set<nat>, n: nat)
    requires forall p: nat :: p < n ==> p in s
    ensures |s| >= n
    decreases n
  {
    if n > 0 {
      AtLeast(s - {n - 1}, n - 1);
      assert s == (s - {n - 1}) + {n - 1};
    }
  }

  /** When no key is missing, no slot is free. */
  lemma {:induction false} TableIsFull<V>(hash: seq<Node<V>>, h: StringHash, es: seq<Entry<V>>, sizearray: nat)
    requires Holds(hash, h, es, sizearray) && KeysDistinct(hash) && |hash| == |HashKeys(es, sizearray)|
    requires forall k :: k in HashKeys(es, sizearray) ==> Placed(hash, k)
    ensures forall p :: 0 <= p < |hash| ==> hash[p].value.Some?
  {
    var slots := FilledSlots(hash);
    KeysAreHashKeys(hash, h, es, sizearray);
    AsManyKeys(hash, slots);
    assert HashKeys(es, sizearray) <= Keys(hash, slots) by {
      forall k | k in HashKeys(es, sizearray) ensures k in Keys(hash, slots) {
        var p :| Filled(hash, p) && hash[p].key == k;
      }
    }
    assert HashKeys(es, sizearray) == Keys(hash, slots);
    BelowN(slots, |hash|);
  }

  // ---- Building ----

  /** `countsize`: the number of keys that do not belong to the array part. */
  method CountSize<V>(es: seq<Entry<V>>, sizearray: nat) returns (n: nat)
    requires Distinct(es)
    ensures n == |HashKeys(es, sizearray)|
  {
    n := 0;
    assert HashKeys(es[..0], sizearray) == {};
    var j := 0;
    while j < |es|
      invariant 0 <= j <= |es|
      invariant n == |HashKeys(es[..j], sizearray)|
    {
      HashKeysStep(es, sizearray, j);
      if IsHashKey(sizearray, es[j].key) {
        n := n + 1;
      }
      j := j + 1;
    }
    assert es[..|es|] == es;
  }

  lemma {:induction false} HashKeysStep<V>(es: seq<Entry<V>>, sizearray: nat, j: nat)
    requires Distinct(es) && j < |es|
    ensures HashKeys(es[..j + 1], sizearray) ==
            HashKeys(es[..j], sizearray) + (if IsHashKey(sizearray, es[j].key) then {es[j].key} else {})
    ensures es[j].key !in HashKeys(es[..j], sizearray)
  {
    var a, b := es[..j], es[..j + 1];
    forall k | k in HashKeys(b, sizearray)
      ensures k in HashKeys(a, sizearray) || (k == es[j].key && IsHashKey(sizearray, k))
    {
      var i :| 0 <= i < |b| && IsHashKey(sizearray, b[i].key) && b[i].key == k;
      if i < j { assert a[i].key == k; }
    }
    forall k | k in HashKeys(a, sizearray) ensures k in HashKeys(b, sizearray) {
      var i :| 0 <= i < |a| && IsHashKey(sizearray, a[i].key) && a[i].key == k;
      assert b[i].key == k;
    }
    assert b[j] == es[j];
  }

  /** The array part after the first `j` entries. */
  ghost predicate ArrayHolds<V>(arr: seq<Option<V>>, es: seq<Entry<V>>, j: nat)
    requires j <= |es| && |arr| < 0x8000_0000
  {
    && (forall i :: 0 <= i < j && !IsHashKey(|arr|, es[i].key) ==> arr[es[i].key.i - 1] == Some(es[i].value))
    && (forall x :: 0 <= x < |arr| && arr[x].Some? ==> exists i :: 0 <= i < j && es[i].key == IntKey(x + 1))
  }

  /** The hash part after the first pass over the first `j` entries. */
  ghost predicate FirstPass<V>(hash: seq<Node<V>>, h: StringHash, es: seq<Entry<V>>, sizearray: nat, chains: seq<seq<nat>>, j: nat)
    requires j <= |es| && |hash| > 0
  {
    && HashInv(hash, h, es, sizearray, chains)
    && (forall m :: 0 <= m < |chains| ==> |chains[m]| <= 1)
    && (forall p :: Filled(hash, p) ==> p == MainPos(h, |hash|, hash[p].key) && exists i :: 0 <= i < j && es[i].key == hash[p].key)
    && (forall i :: 0 <= i < j && IsHashKey(sizearray, es[i].key) ==> chains[MainPos(h, |hash|, es[i].key)] != [])
  }

  lemma {:induction false} FirstPassStep<V>(hash: seq<Node<V>>, h: StringHash, es: seq<Entry<V>>, sizearray: nat, chains: seq<seq<nat>>, j: nat)
    requires Distinct(es) && j < |es| && |hash| > 0 && FirstPass(hash, h, es, sizearray, chains, j)
    ensures var e := es[j];
            var m := MainPos(h, |hash|, e.key);
            |chains| == |hash| &&
            if !IsHashKey(sizearray, e.key) || hash[m].value.Some? then
              FirstPass(hash, h, es, sizearray, chains, j + 1)
            else
              FirstPass(hash[m := FirstNode(e.key, e.value, KeyHash(h, e.key))], h, es, sizearray, chains[m := [m]], j + 1)
  {
    hide MainPos, KeyHash, Chained, Holds, KeysDistinct;
    var e := es[j];
    var m := MainPos(h, |hash|, e.key);
    assert |chains| == |hash| by { ChainsLength(hash, h, chains); }
    if !IsHashKey(sizearray, e.key) {
    } else if hash[m].value.Some? {
      Owned(hash, h, chains, m);
    } else {
      assert forall p :: Filled(hash, p) ==> hash[p].key != e.key;
      FillMain(hash, h, es, sizearray, chains, e);
      var hash', chains' := hash[m := FirstNode(e.key, e.value, KeyHash(h, e.key))], chains[m := [m]];
      forall p | Filled(hash', p)
        ensures p == MainPos(h, |hash|, hash'[p].key) && exists i :: 0 <= i < j + 1 && es[i].key == hash'[p].key
      {
        if p != m {
          assert Filled(hash, p);
        }
      }
    }
  }

  lemma {:induction false} ChainsLength<V>(hash: seq<Node<V>>, h: StringHash, chains: seq<seq<nat>>)
    requires Chained(hash, h, chains)
    ensures |chains| == |hash|
  {
  }

  /** A filled slot that is its key's main position heads a chain. */
  lemma {:induction false} Owned<V>(hash: seq<Node<V>>, h: StringHash, chains: seq<seq<nat>>, m: nat)
    requires Chained(hash, h, chains) && Filled(hash, m) && m == MainPos(h, |hash|, hash[m].key)
    ensures m < |chains| && chains[m] != []
  {
    hide MainPos, Linked;
  }

  /** The hash part after the second pass over the first `j` entries; slots below `empty` are used up. */
  ghost predicate SecondPass<V>(hash: seq<Node<V>>, h: StringHash, es: seq<Entry<V>>, sizearray: nat, chains: seq<seq<nat>>, j: nat, empty: nat)
    requires j <= |es| && |hash| > 0
  {
    && HashInv(hash, h, es, sizearray, chains)
    && |hash| == |HashKeys(es, sizearray)| && empty <= |hash|
    && (forall p :: 0 <= p < empty ==> hash[p].value.Some?)
    && (forall i :: 0 <= i < |es| && IsHashKey(sizearray, es[i].key) ==> MainTaken(hash, h, chains, es[i].key))
    && (forall p :: Filled(hash, p) ==> p == MainPos(h, |hash|, hash[p].key) || exists i :: 0 <= i < j && es[i].key == hash[p].key)
    && (forall i :: 0 <= i < j && IsHashKey(sizearray, es[i].key) ==> Placed(hash, es[i].key))
  }

  ghost predicate MainTaken<V>(hash: seq<Node<V>>, h: StringHash, chains: seq<seq<nat>>, k: Key)
    requires |hash| > 0
  {
    |chains| == |hash| && chains[MainPos(h, |hash|, k)] != []
  }

  lemma {:induction false} HeadFilled<V>(hash: seq<Node<V>>, h: StringHash, chains: seq<seq<nat>>, k: Key)
    requires |hash| > 0 && Chained(hash, h, chains) && MainTaken(hash, h, chains, k)
    ensures Filled(hash, MainPos(h, |hash|, k))
  {
    hide Linked, MainPos, KeyHash;
    var m := MainPos(h, |hash|, k);
    assert Filled(hash, chains[m][0]);
  }

  lemma {:induction false} SecondPassSkip<V>(hash: seq<Node<V>>, h: StringHash, es: seq<Entry<V>>, sizearray: nat, chains: seq<seq<nat>>, j: nat, empty: nat)
    requires Distinct(es) && j < |es| && |hash| > 0 && SecondPass(hash, h, es, sizearray, chains, j, empty)
    requires IsHashKey(sizearray, es[j].key) ==> hash[MainPos(h, |hash|, es[j].key)].key == es[j].key
    ensures SecondPass(hash, h, es, sizearray, chains, j + 1, empty)
  {
    hide HashInv, MainPos, KeyHash;
    if IsHashKey(sizearray, es[j].key) {
      assert MainTaken(hash, h, chains, es[j].key);
      assert Chained(hash, h, chains) by { InvChained(hash, h, es, sizearray, chains); }
      HeadFilled(hash, h, chains, es[j].key);
    }
  }

  lemma {:induction false} InvChained<V>(hash: seq<Node<V>>, h: StringHash, es: seq<Entry<V>>, sizearray: nat, chains: seq<seq<nat>>)
    requires HashInv(hash, h, es, sizearray, chains)
    ensures Chained(hash, h, chains) && Holds(hash, h, es, sizearray) && KeysDistinct(hash)
  {
  }

  /** A key that is not at its main position has not been placed yet, and there is room for it. */
  lemma {:induction false} NotPlacedYet<V>(hash: seq<Node<V>>, h: StringHash, es: seq<Entry<V>>, sizearray: nat, chains: seq<seq<nat>>, j: nat, empty: nat)
    requires Distinct(es) && j < |es| && |hash| > 0 && SecondPass(hash, h, es, sizearray, chains, j, empty)
    requires IsHashKey(sizearray, es[j].key) && hash[MainPos(h, |hash|, es[j].key)].key != es[j].key
    ensures forall p :: Filled(hash, p) ==> hash[p].key != es[j].key
    ensures exists p :: empty <= p < |hash| && hash[p].value.None?
  {
    hide HashInv, MainPos, KeyHash;
    assert es[j].key in HashKeys(es, sizearray);
    InvChained(hash, h, es, sizearray, chains);
    SlotIsFree(hash, h, es, sizearray, es[j].key);
  }

  lemma {:induction false} SecondPassFill<V>(hash: seq<Node<V>>, h: StringHash, es: seq<Entry<V>>, sizearray: nat, chains: seq<seq<nat>>, j: nat, empty: nat, q: nat)
    requires Distinct(es) && j < |es| && |hash| > 0 && SecondPass(hash, h, es, sizearray, chains, j, empty)
    requires IsHashKey(sizearray, es[j].key) && hash[MainPos(h, |hash|, es[j].key)].key != es[j].key
    requires empty <= q < |hash| && hash[q].value.None? && forall p :: empty <= p < q ==> hash[p].value.Some?
    ensures var e := es[j];
            var m := MainPos(h, |hash|, e.key);
            && |chains| == |hash| && chains[m] != [] && m != q
            && SecondPass(Collide(hash, m, q, e.key, e.value, KeyHash(h, e.key)), h, es, sizearray,
                          chains[m := [m, q] + chains[m][1..]], j + 1, q + 1)
  {
    hide HashInv, MainPos, KeyHash, Chained, Holds, KeysDistinct;
    var e := es[j];
    var m := MainPos(h, |hash|, e.key);
    NotPlacedYet(hash, h, es, sizearray, chains, j, empty);
    InvChained(hash, h, es, sizearray, chains);
    ChainsLength(hash, h, chains);
    assert MainTaken(hash, h, chains, e.key);
    HeadFilled(hash, h, chains, e.key);
    FillFree(hash, h, es, sizearray, chains, e, q);
    var hash' := Collide(hash, m, q, e.key, e.value, KeyHash(h, e.key));
    CollideFills(hash, m, q, e.key, e.value, KeyHash(h, e.key));
    PlacedAfter(hash, hash', es, sizearray, j, q);
    MainOrEarlier(hash, hash', h, es, j, q);
    hide Collide, HashKeys, Placed, Distinct;
  }

  lemma {:induction false} MainOrEarlier<V>(hash: seq<Node<V>>, hash': seq<Node<V>>, h: StringHash, es: seq<Entry<V>>, j: nat, q: nat)
    requires j < |es| && |hash'| == |hash| > 0 && Filled(hash', q) && hash'[q].key == es[j].key
    requires forall p :: Filled(hash, p) ==> p == MainPos(h, |hash|, hash[p].key) || exists i :: 0 <= i < j && es[i].key == hash[p].key
    requires forall p :: Filled(hash', p) && p != q ==> Filled(hash, p) && hash'[p].key == hash[p].key
    ensures forall p :: Filled(hash', p) ==> p == MainPos(h, |hash|, hash'[p].key) || exists i :: 0 <= i < j + 1 && es[i].key == hash'[p].key
  {
    hide MainPos;
    forall p | Filled(hash', p)
      ensures p == MainPos(h, |hash|, hash'[p].key) || exists i :: 0 <= i < j + 1 && es[i].key == hash'[p].key
    {
      assert p != q ==> Filled(hash, p);
    }
  }

  lemma {:induction false} CollideFills<V>(hash: seq<Node<V>>, m: nat, q: nat, k: Key, v: V, kh: nat)
    requires Filled(hash, m) && q < |hash| && hash[q].value.None?
    ensures var hash' := Collide(hash, m, q, k, v, kh);
            && |hash'| == |hash| && Filled(hash', q) && hash'[q].key == k
            && (forall p :: Filled(hash', p) && p != q ==> Filled(hash, p) && hash'[p].key == hash[p].key)
            && (forall p :: Filled(hash, p) ==> Filled(hash', p) && hash'[p].key == hash[p].key)
  {
  }

  lemma {:induction false} PlacedAfter<V>(hash: seq<Node<V>>, hash': seq<Node<V>>, es: seq<Entry<V>>, sizearray: nat, j: nat, q: nat)
    requires j < |es| && Filled(hash', q) && hash'[q].key == es[j].key
    requires forall i :: 0 <= i < j && IsHashKey(sizearray, es[i].key) ==> Placed(hash, es[i].key)
    requires forall p :: Filled(hash, p) ==> Filled(hash', p) && hash'[p].key == hash[p].key
    ensures forall i :: 0 <= i < j + 1 && IsHashKey(sizearray, es[i].key) ==> Placed(hash', es[i].key)
  {
  }

  lemma {:induction false} BetweenPasses<V>(hash: seq<Node<V>>, h: StringHash, es: seq<Entry<V>>, sizearray: nat, chains: seq<seq<nat>>)
    requires |hash| > 0 && FirstPass(hash, h, es, sizearray, chains, |es|) && |hash| == |HashKeys(es, sizearray)|
    ensures SecondPass(hash, h, es, sizearray, chains, 0, 0)
  {
    InvChained(hash, h, es, sizearray, chains);
    ChainsLength(hash, h, chains);
    hide HashInv, MainPos, KeyHash, Chained, Holds, KeysDistinct;
  }

  /** A finished hash part: no slot is free and every key is found by walking its chain. */
  ghost predicate Finished<V>(hash: seq<Node<V>>, h: StringHash, es: seq<Entry<V>>, sizearray: nat, chains: seq<seq<nat>>) {
    && HashInv(hash, h, es, sizearray, chains)
    && (forall p :: 0 <= p < |hash| ==> hash[p].value.Some?)
    && (forall i :: 0 <= i < |es| && IsHashKey(sizearray, es[i].key) ==> Placed(hash, es[i].key))
  }

  lemma {:induction false} AfterSecondPass<V>(hash: seq<Node<V>>, h: StringHash, es: seq<Entry<V>>, sizearray: nat, chains: seq<seq<nat>>, empty: nat)
    requires |hash| > 0 && SecondPass(hash, h, es, sizearray, chains, |es|, empty)
    ensures Finished(hash, h, es, sizearray, chains)
  {
    InvChained(hash, h, es, sizearray, chains);
    hide HashInv, MainPos, KeyHash, Chained, Holds, KeysDistinct;
    TableIsFull(hash, h, es, sizearray);
  }

  class Table<V(0)> {
    var sizearray: nat
    var sizehash: nat
    var arr: array<Option<V>>
    var hash: array<Node<V>>
    ghost var chains: seq<seq<nat>>

    ghost predicate Shape()
      reads this
    {
      arr.Length == sizearray < 0x8000_0000 && hash.Length == sizehash
    }

    /** The table holds exactly the entries `es`. */
    ghost predicate Represents(es: seq<Entry<V>>, h: StringHash)
      reads this, arr, hash
    {
      && Shape()
      && ArrayHolds(arr[..], es, |es|)
      && Finished(hash[..], h, es, sizearray, chains)
    }

    /** `convtable` for entries in the order of `lua_next`, with a border `len` as the array size. */
    constructor (es: seq<Entry<V>>, len: nat, h: StringHash)
      requires Distinct(es) && len < 0x8000_0000
      ensures Represents(es, h)
    {
      var n := CountSize(es, len);
      sizearray, sizehash := len, n;
      arr := new Option<V>[len](_ => None);
      hash := new Node<V>[n](_ => Node(IntKey(0), None, 0, -1, false));
      chains := seq(n, _ => []);
      new;
      Fill(es, h);
    }

    /** Both passes over a table with empty slots. */
    method Fill(es: seq<Entry<V>>, h: StringHash)
      requires Distinct(es) && Shape() && sizehash == |HashKeys(es, sizearray)| == |chains|
      requires forall i :: 0 <= i < sizearray ==> arr[i].None?
      requires forall p :: 0 <= p < sizehash ==> hash[p].value.None? && chains[p] == []
      modifies arr, hash, this`chains
      ensures Represents(es, h)
    {
      hide HashInv, FirstPass, SecondPass, ArrayHolds, Finished, HashKeys;
      ArrayEmpty(arr[..], es);
      if sizehash > 0 {
        HashEmpty(hash[..], h, es, sizearray, chains);
        FillNoColliding(es, h);
        BetweenPasses(hash[..], h, es, sizearray, chains);
        FillColliding(es, h);
      } else {
        FillArray(es, h);
        NothingToHash(hash[..], h, es, sizearray, chains);
      }
    }

    method FillNoColliding(es: seq<Entry<V>>, h: StringHash)
      requires Distinct(es) && Shape() && sizehash > 0
      requires FirstPass(hash[..], h, es, sizearray, chains, 0) && ArrayHolds(arr[..], es, 0)
      modifies arr, hash, this`chains
      ensures FirstPass(hash[..], h, es, sizearray, chains, |es|) && ArrayHolds(arr[..], es, |es|)
    {
      hide FirstPass, ArrayHolds, KeyHash, MainPos;
      var j := 0;
      while j < |es|
        invariant 0 <= j <= |es|
        invariant FirstPass(hash[..], h, es, sizearray, chains, j) && ArrayHolds(arr[..], es, j)
      {
        var k, v := es[j].key, es[j].value;
        FirstPassStep(hash[..], h, es, sizearray, chains, j);
        ArrayStep(arr[..], es, j);
        if !IsHashKey(sizearray, k) {
          arr[k.i - 1] := Some(v);
        } else {
          var kh := KeyHash(h, k);
          var m := kh % sizehash;
          assert m == MainPos(h, sizehash, k) by { MainPosIs(h, sizehash, k); }
          if hash[m].value.None? {
            hash[m] := Node(k, Some(v), kh, -1, true);
            chains := chains[m := [m]];
          }
        }
        j := j + 1;
      }
    }

    /** The scan for a free slot never runs off the table. */
    method FreeSlot(emptyslot: nat) returns (i: nat)
      requires Shape() && exists p :: emptyslot <= p < sizehash && hash[p].value.None?
      ensures emptyslot <= i < sizehash && hash[i].value.None?
      ensures forall p :: emptyslot <= p < i ==> hash[p].value.Some?
    {
      i := emptyslot;
      while hash[i].value.Some?
        invariant emptyslot <= i < sizehash
        invariant exists p :: i <= p < sizehash && hash[p].value.None?
        invariant forall p :: emptyslot <= p < i ==> hash[p].value.Some?
        decreases sizehash - i
      {
        i := i + 1;
      }
    }

    method FillColliding(es: seq<Entry<V>>, h: StringHash)
      requires Distinct(es) && Shape() && sizehash > 0
      requires SecondPass(hash[..], h, es, sizearray, chains, 0, 0)
      modifies hash, this`chains
      ensures Finished(hash[..], h, es, sizearray, chains)
    {
      hide SecondPass, KeyHash, MainPos, Finished;
      var emptyslot := 0;
      var j := 0;
      while j < |es|
        invariant 0 <= j <= |es|
        invariant SecondPass(hash[..], h, es, sizearray, chains, j, emptyslot)
      {
        var k, v := es[j].key, es[j].value;
        if IsHashKey(sizearray, k) {
          var kh := KeyHash(h, k);
          var m := kh % sizehash;
          assert m == MainPos(h, sizehash, k) by { MainPosIs(h, sizehash, k); }
          if hash[m].key != k {
            NotPlacedYet(hash[..], h, es, sizearray, chains, j, emptyslot);
            var i := FreeSlot(emptyslot);
            SecondPassFill(hash[..], h, es, sizearray, chains, j, emptyslot, i);
            ghost var before := hash[..];
            emptyslot := i + 1;
            hash[i] := Node(k, Some(v), kh, hash[m].next, false);
            hash[m] := hash[m].(next := i, nocolliding := false);
            chains := chains[m := [m, i] + chains[m][1..]];
            assert hash[..] == Collide(before, m, i, k, v, kh);
          } else {
            SecondPassSkip(hash[..], h, es, sizearray, chains, j, emptyslot);
          }
        } else {
          SecondPassSkip(hash[..], h, es, sizearray, chains, j, emptyslot);
        }
        j := j + 1;
      }
      AfterSecondPass(hash[..], h, es, sizearray, chains, emptyslot);
    }

    /** Without hash keys only the array part is copied. */
    method FillArray(es: seq<Entry<V>>, h: StringHash)
      requires Distinct(es) && Shape() && HashKeys(es, sizearray) == {}
      requires ArrayHolds(arr[..], es, 0)
      modifies arr
      ensures ArrayHolds(arr[..], es, |es|)
    {
      hide ArrayHolds;
      var j := 0;
      while j < |es|
        invariant 0 <= j <= |es|
        invariant ArrayHolds(arr[..], es, j)
      {
        var k := es[j].key;
        assert IsHashKey(sizearray, k) ==> k in HashKeys(es, sizearray);
        ArrayStep(arr[..], es, j);
        arr[k.i - 1] := Some(es[j].value);
        j := j + 1;
      }
    }

    // ---- Reading ----

    /** `lookup_key`: walks one chain from the main position of the key's hash. */
    method LookupKey(k: Key, ghost es: seq<Entry<V>>, h: StringHash) returns (r: Option<nat>)
      requires Represents(es, h)
      ensures r.Some? ==> r.value < sizehash && hash[r.value].key == k
      ensures r.None? ==> forall p :: 0 <= p < sizehash ==> hash[p].key != k
    {
      hide ArrayHolds, Finished, KeyHash, MainPos;
      if sizehash == 0 {
        return None;
      }
      var kh := KeyHash(h, k);
      var p := kh % sizehash;
      MainPosIs(h, sizehash, k);
      ghost var x, i := Somewhere(hash[..], h, es, sizearray, chains, p);
      ghost var start := i;
      FinishedLinks(hash[..], h, es, sizearray, chains, x);
      if kh != hash[p].keyhash && hash[p].nocolliding {
        AloneIsAbsent(hash[..], h, es, sizearray, chains, k);
        return None;
      }
      while true
        invariant x < |chains| && forall c :: 0 <= c < |chains[x]| ==> chains[x][c] < sizehash
        invariant 0 <= start <= i < |chains[x]| && p == chains[x][i]
        invariant forall c :: start <= c < i ==> hash[chains[x][c]].key != k
        decreases |chains[x]| - i
      {
        KeyMatches(hash[..], h, es, sizearray, chains, p, k);
        if kh == hash[p].keyhash && hash[p].key == k {
          return Some(p);
        }
        ChainGoesOn(hash[..], h, es, sizearray, chains, x, i);
        if hash[p].next < 0 {
          ChainEnds(hash[..], h, es, sizearray, chains, x, start, k);
          return None;
        }
        p := hash[p].next;
        i := i + 1;
      }
    }

    /** `lindexconf`: exactly the source's value, or nothing for an absent key. */
    method Index(k: Key, ghost es: seq<Entry<V>>, h: StringHash) returns (r: Option<V>)
      requires Represents(es, h) && Distinct(es)
      ensures r == Source(es, k)
    {
      if k.IntKey? && 0 < k.i <= sizearray {
        ArraySource(arr[..], es, k);
        return arr[k.i - 1];
      }
      var n := LookupKey(k, es, h);
      HashSource(hash[..], h, es, sizearray, chains, k);
      hide Finished, ArrayHolds;
      if n.Some? {
        return hash[n.value].value;
      }
      return None;
    }

    /** Position `y` of the iteration order: the array part, then the slots of the hash part. */
    ghost predicate Present(y: int)
      requires Shape()
      reads this, arr
    {
      0 <= y < sizearray + sizehash && (y < sizearray ==> arr[y].Some?)
    }

    ghost function KeyAt(y: int): Key
      requires Shape() && Present(y)
      reads this, arr, hash
    {
      if y < sizearray then IntKey(y + 1) else hash[y - sizearray].key
    }

    /** The scan of the array part shared by both cases of `lnextkey`, then `pushfirsthash`. */
    method NextFrom(x: nat) returns (r: Option<Key>, ghost next: int)
      requires Shape() && x <= sizearray
      ensures x <= next <= sizearray + sizehash
      ensures forall y :: x <= y < next ==> !Present(y)
      ensures r.None? <==> next == sizearray + sizehash
      ensures r.Some? ==> Present(next) && r.value == KeyAt(next)
    {
      var i := x;
      while i < sizearray
        invariant x <= i <= sizearray
        invariant forall y :: x <= y < i ==> !Present(y)
      {
        if arr[i].Some? {
          return Some(IntKey(i + 1)), i;
        }
        i := i + 1;
      }
      next := sizearray;
      if sizehash > 0 {
        return Some(hash[0].key), next;
      }
      return None, next;
    }

    /** `lnextkey` from the start, or from a key it gave before at position `at`. */
    method NextKey(k: Option<Key>, ghost es: seq<Entry<V>>, h: StringHash, ghost at: int) returns (r: Option<Key>, ghost next: int)
      requires Represents(es, h)
      requires if k.None? then at == -1 else Present(at) && KeyAt(at) == k.value
      ensures at < next <= sizearray + sizehash
      ensures forall y :: at < y < next ==> !Present(y)
      ensures r.None? <==> next == sizearray + sizehash
      ensures r.Some? ==> Present(next) && r.value == KeyAt(next)
    {
      hide ArrayHolds, Finished;
      if k.None? {
        r, next := NextFrom(0);
        return;
      }
      HashPosition(hash[..], h, es, sizearray, chains);
      if k.value.IntKey? && 0 < k.value.i <= sizearray {
        assert at == k.value.i - 1;
        r, next := NextFrom(k.value.i);
        return;
      }
      var n := LookupKey(k.value, es, h);
      assert at >= sizearray && hash[at - sizearray].key == k.value;
      assert n.Some? && n.value == at - sizearray;
      next := at + 1;
      if n.value + 1 == sizehash {
        r := None;
      } else {
        r := Some(hash[n.value + 1].key);
      }
    }

    /** Iterating from nil gives each key of the source once and then ends. */
    method AllKeys(ghost es: seq<Entry<V>>, h: StringHash) returns (keys: seq<Key>)
      requires Represents(es, h) && Distinct(es)
      ensures forall i, j :: 0 <= i < j < |keys| ==> keys[i] != keys[j]
      ensures forall k :: k in keys <==> Source(es, k).Some?
    {
      hide ArrayHolds, Finished;
      keys := [];
      ghost var at := -1;
      ghost var where: seq<int> := [];
      var k: Option<Key>;
      k, at := NextKey(None, es, h, -1);
      while k.Some?
        invariant 0 <= at <= sizearray + sizehash
        invariant k.None? <==> at == sizearray + sizehash
        invariant k.Some? ==> Present(at) && k.value == KeyAt(at)
        invariant |where| == |keys|
        invariant forall i :: 0 <= i < |keys| ==> where[i] < at && Present(where[i]) && KeyAt(where[i]) == keys[i]
        invariant forall i, j :: 0 <= i < j < |keys| ==> where[i] < where[j]
        invariant forall y :: 0 <= y < at && Present(y) ==> y in where
        decreases sizearray + sizehash - at
      {
        keys := keys + [k.value];
        where := where + [at];
        k, at := NextKey(k, es, h, at);
      }
      PositionsDistinct(es, h);
      SourceHasPosition(es, h);
      forall key | Source(es, key).Some? ensures key in keys {
        var y :| Present(y) && KeyAt(y) == key;
        assert y in where;
        var i :| 0 <= i < |where| && where[i] == y;
        assert keys[i] == key;
      }
    }

    lemma {:induction false} PositionsDistinct(es: seq<Entry<V>>, h: StringHash)
      requires Represents(es, h)
      ensures forall y, z :: Present(y) && Present(z) && y != z ==> KeyAt(y) != KeyAt(z)
    {
      hide ArrayHolds, Finished;
      HashPosition(hash[..], h, es, sizearray, chains);
    }

    lemma {:induction false} SourceHasPosition(es: seq<Entry<V>>, h: StringHash)
      requires Represents(es, h) && Distinct(es)
      ensures forall k :: Source(es, k).Some? <==> exists y :: Present(y) && KeyAt(y) == k
    {
      hide ArrayHolds, Finished, Source;
      forall k ensures Source(es, k).Some? <==> exists y :: Present(y) && KeyAt(y) == k {
        if k.IntKey? && 0 < k.i <= sizearray {
          ArraySource(arr[..], es, k);
          HashPosition(hash[..], h, es, sizearray, chains);
          assert Source(es, k).Some? ==> Present(k.i - 1) && KeyAt(k.i - 1) == k;
        } else {
          HashSource(hash[..], h, es, sizearray, chains, k);
          if Source(es, k).Some? {
            var p :| 0 <= p < sizehash && hash[..][p].key == k;
            assert Present(sizearray + p) && KeyAt(sizearray + p) == k;
          }
        }
      }
    }
  }

  /** Every slot of a finished table lies on the chain of its own key. */
  lemma {:induction false} Somewhere<V>(hash: seq<Node<V>>, h: StringHash, es: seq<Entry<V>>, sizearray: nat, chains: seq<seq<nat>>, p: nat) returns (x: nat, i: nat)
    requires Finished(hash, h, es, sizearray, chains) && p < |hash|
    ensures |chains| == |hash| && x < |chains| && i < |chains[x]| && chains[x][i] == p
  {
    hide Linked, KeyHash, Holds, KeysDistinct;
    assert Filled(hash, p);
    x := MainPos(h, |hash|, hash[p].key);
    i :| 0 <= i < |chains[x]| && chains[x][i] == p;
  }

  lemma {:induction false} AloneIsAbsent<V>(hash: seq<Node<V>>, h: StringHash, es: seq<Entry<V>>, sizearray: nat, chains: seq<seq<nat>>, k: Key)
    requires Finished(hash, h, es, sizearray, chains) && |hash| > 0
    requires var p := MainPos(h, |hash|, k); KeyHash(h, k) != hash[p].keyhash && hash[p].nocolliding
    ensures forall q :: 0 <= q < |hash| ==> hash[q].key != k
  {
    hide Linked, KeyHash, MainPos, KeysDistinct;
    var p := MainPos(h, |hash|, k);
    assert Filled(hash, p);
    forall q | 0 <= q < |hash| ensures hash[q].key != k {
      assert Filled(hash, q);
    }
  }

  lemma {:induction false} KeyMatches<V>(hash: seq<Node<V>>, h: StringHash, es: seq<Entry<V>>, sizearray: nat, chains: seq<seq<nat>>, p: nat, k: Key)
    requires Finished(hash, h, es, sizearray, chains) && p < |hash|
    ensures hash[p].key == k ==> hash[p].keyhash == KeyHash(h, k)
  {
    hide Chained, KeysDistinct, KeyHash;
  }

  lemma {:induction false} FinishedLinks<V>(hash: seq<Node<V>>, h: StringHash, es: seq<Entry<V>>, sizearray: nat, chains: seq<seq<nat>>, x: nat)
    requires Finished(hash, h, es, sizearray, chains) && x < |chains|
    ensures |chains| == |hash| && Linked(hash, chains[x])
  {
    hide Linked;
  }

  lemma {:induction false} ChainGoesOn<V>(hash: seq<Node<V>>, h: StringHash, es: seq<Entry<V>>, sizearray: nat, chains: seq<seq<nat>>, x: nat, i: nat)
    requires Finished(hash, h, es, sizearray, chains) && x < |chains| && i < |chains[x]|
    ensures |chains| == |hash| && chains[x][i] < |hash|
    ensures hash[chains[x][i]].next < 0 <==> i == |chains[x]| - 1
    ensures i < |chains[x]| - 1 ==> hash[chains[x][i]].next == chains[x][i + 1] < |hash|
  {
    hide Finished;
    FinishedLinks(hash, h, es, sizearray, chains, x);
    assert i < |chains[x]| - 1 ==> hash[chains[x][i]].next == chains[x][i + 1];
  }

  /** The chain that holds the main position of a key holds the key, from there on. */
  lemma {:induction false} Meets<V>(hash: seq<Node<V>>, h: StringHash, es: seq<Entry<V>>, sizearray: nat, chains: seq<seq<nat>>, x: nat, start: nat, q: nat) returns (c: nat)
    requires Finished(hash, h, es, sizearray, chains) && q < |hash| && x < |chains| && start < |chains[x]|
    requires chains[x][start] == MainPos(h, |hash|, hash[q].key)
    ensures start <= c < |chains[x]| && chains[x][c] == q
  {
    FinishedLinks(hash, h, es, sizearray, chains, x);
    hide Holds, KeysDistinct, KeyHash, MainPos;
    var m := MainPos(h, |hash|, hash[q].key);
    assert Filled(hash, q);
    c :| 0 <= c < |chains[m]| && chains[m][c] == q;
    assert Filled(hash, chains[m][0]) && chains[m][0] == m;
    assert x == m;
  }

  /** A chain walked to its end from the main position of `k` would have met it. */
  lemma {:induction false} ChainEnds<V>(hash: seq<Node<V>>, h: StringHash, es: seq<Entry<V>>, sizearray: nat, chains: seq<seq<nat>>, x: nat, start: nat, k: Key)
    requires Finished(hash, h, es, sizearray, chains) && |hash| > 0 && x < |chains| && start < |chains[x]|
    requires chains[x][start] == MainPos(h, |hash|, k)
    requires forall c :: start <= c < |chains[x]| ==> chains[x][c] < |hash| && hash[chains[x][c]].key != k
    ensures forall q :: 0 <= q < |hash| ==> hash[q].key != k
  {
    hide Finished, MainPos;
    forall q | 0 <= q < |hash| ensures hash[q].key != k {
      if hash[q].key == k {
        var c := Meets(hash, h, es, sizearray, chains, x, start, q);
      }
    }
  }

  lemma {:induction false} ArraySource<V>(arr: seq<Option<V>>, es: seq<Entry<V>>, k: Key)
    requires |arr| < 0x8000_0000 && ArrayHolds(arr, es, |es|) && Distinct(es) && k.IntKey? && 0 < k.i <= |arr|
    ensures arr[k.i - 1] == Source(es, k)
  {
    if exists i :: 0 <= i < |es| && es[i].key == k {
      var i :| 0 <= i < |es| && es[i].key == k;
      SourceAt(es, i);
    }
  }

  lemma {:induction false} HashSource<V>(hash: seq<Node<V>>, h: StringHash, es: seq<Entry<V>>, sizearray: nat, chains: seq<seq<nat>>, k: Key)
    requires Finished(hash, h, es, sizearray, chains) && Distinct(es) && IsHashKey(sizearray, k)
    ensures forall p :: 0 <= p < |hash| && hash[p].key == k ==> hash[p].value == Source(es, k)
    ensures Source(es, k).Some? <==> exists p :: 0 <= p < |hash| && hash[p].key == k
  {
    hide Chained, KeyHash, MainPos, KeysDistinct;
    forall p | 0 <= p < |hash| && hash[p].key == k ensures hash[p].value == Source(es, k) {
      var e := Entry(hash[p].key, hash[p].value.value);
      assert e in es;
      var i :| 0 <= i < |es| && es[i] == e;
      SourceAt(es, i);
    }
    if Source(es, k).Some? {
      var i :| 0 <= i < |es| && es[i].key == k;
      assert Placed(hash, es[i].key);
    }
  }

  lemma {:induction false} HashPosition<V>(hash: seq<Node<V>>, h: StringHash, es: seq<Entry<V>>, sizearray: nat, chains: seq<seq<nat>>)
    requires Finished(hash, h, es, sizearray, chains)
    ensures forall p :: 0 <= p < |hash| ==> IsHashKey(sizearray, hash[p].key)
    ensures forall p, q :: 0 <= p < |hash| && 0 <= q < |hash| && p != q ==> hash[p].key != hash[q].key
  {
    hide Chained, KeyHash, MainPos;
    forall p, q | 0 <= p < |hash| && 0 <= q < |hash| && p != q ensures hash[p].key != hash[q].key {
      assert Filled(hash, p) && Filled(hash, q);
    }
  }

  lemma {:induction false} MainPosIs(h: StringHash, n: nat, k: Key)
    requires n > 0
    ensures MainPos(h, n, k) == KeyHash(h, k) % n
  {
  }

  lemma {:induction false} ArrayEmpty<V>(arr: seq<Option<V>>, es: seq<Entry<V>>)
    requires |arr| < 0x8000_0000 && forall x :: 0 <= x < |arr| ==> arr[x].None?
    ensures ArrayHolds(arr, es, 0)
  {
  }

  lemma {:induction false} ArrayStep<V>(arr: seq<Option<V>>, es: seq<Entry<V>>, j: nat)
    requires Distinct(es) && j < |es| && |arr| < 0x8000_0000 && ArrayHolds(arr, es, j)
    ensures if IsHashKey(|arr|, es[j].key) then ArrayHolds(arr, es, j + 1)
            else ArrayHolds(arr[es[j].key.i - 1 := Some(es[j].value)], es, j + 1)
  {
    if !IsHashKey(|arr|, es[j].key) {
      var arr' := arr[es[j].key.i - 1 := Some(es[j].value)];
      forall x | 0 <= x < |arr'| && arr'[x].Some? ensures exists i :: 0 <= i < j + 1 && es[i].key == IntKey(x + 1) {
        if x == es[j].key.i - 1 {
          assert es[j].key == IntKey(x + 1);
        } else {
          var i :| 0 <= i < j && es[i].key == IntKey(x + 1);
        }
      }
    }
  }

  lemma {:induction false} HashEmpty<V>(hash: seq<Node<V>>, h: StringHash, es: seq<Entry<V>>, sizearray: nat, chains: seq<seq<nat>>)
    requires |hash| > 0 && |chains| == |hash|
    requires forall p :: 0 <= p < |hash| ==> hash[p].value.None? && chains[p] == []
    ensures FirstPass(hash, h, es, sizearray, chains, 0)
  {
  }

  lemma {:induction false} NothingToHash<V>(hash: seq<Node<V>>, h: StringHash, es: seq<Entry<V>>, sizearray: nat, chains: seq<seq<nat>>)
    requires hash == [] && chains == [] && HashKeys(es, sizearray) == {}
    ensures Finished(hash, h, es, sizearray, chains)
  {
    assert forall i :: 0 <= i < |es| && IsHashKey(sizearray, es[i].key) ==> es[i].key in HashKeys(es, sizearray);
  }
}
