/**
 The name table of skynet_handle.c: an array of names kept strictly sorted by strcmp, searched by
 bisection, filled by shifting, and compacted in place when a service retires.
 */
module HandleNames {

  const MAX_SLOT_SIZE: nat := 0x4000_0000

  type Handle = nat

  datatype Name = Name(name: string, handle: Handle)

  /** `Full` is the failed assertion on the size of the array. */
  datatype Outcome = Added | Refused | Full

  // ---- strcmp ----

  /** The sign of C's strcmp on strings without their terminating zero. */
  function Strcmp(a: string, b: string): int {
    if a == [] then (if b == [] then 0 else -1)
    else if b == [] then 1
    else if a[0] < b[0] then -1
    else if a[0] > b[0] then 1
    else Strcmp(a[1..], b[1..])
  }

  lemma {:induction false} StrcmpZero(a: string, b: string)
    ensures Strcmp(a, b) == 0 <==> a == b
  {
    if a != [] && b != [] && a[0] == b[0] {
      StrcmpZero(a[1..], b[1..]);
      assert a == [a[0]] + a[1..] && b == [b[0]] + b[1..];
    }
  }

  lemma {:induction false} StrcmpFlips(a: string, b: string)
    ensures Strcmp(a, b) == -Strcmp(b, a)
  {
    if a != [] && b != [] && a[0] == b[0] {
      StrcmpFlips(a[1..], b[1..]);
    }
  }

  lemma {:induction false} StrcmpTransitive(a: string, b: string, c: string)
    requires Strcmp(a, b) < 0 && Strcmp(b, c) < 0
    ensures Strcmp(a, c) < 0
  {
    if a != [] && a[0] == b[0] == c[0] {
      StrcmpTransitive(a[1..], b[1..], c[1..]);
    }
  }

  // ---- Sorted names and the plain look-up ----

  /** The names agree up to `k`, where `a` ends or has the smaller character. */
  ghost predicate SmallerAt(a: string, b: string, k: nat) {
    && k <= |a| && k < |b| && a[..k] == b[..k]
    && (k == |a| || a[k] < b[k])
  }

  lemma {:induction false} SmallerNext(a: string, b: string, k: nat)
    requires a != [] && b != [] && a[0] == b[0]
    ensures SmallerAt(a[1..], b[1..], k) <==> SmallerAt(a, b, k + 1)
  {
    if k <= |a[1..]| && k < |b[1..]| {
      assert a[..k + 1] == [a[0]] + a[1..][..k] && b[..k + 1] == [b[0]] + b[1..][..k];
    }
  }

  /** `strcmp` is negative exactly when the first name is smaller in dictionary order. */
  lemma {:induction false} StrcmpIs(a: string, b: string)
    ensures Strcmp(a, b) < 0 <==> exists k :: SmallerAt(a, b, k)
  {
    if a == [] {
      if b != [] { assert SmallerAt(a, b, 0); }
    } else if b == [] {
    } else if a[0] < b[0] {
      assert SmallerAt(a, b, 0);
    } else if a[0] > b[0] {
      forall k: nat ensures !SmallerAt(a, b, k) {
        assert 0 < k <= |a| && k < |b| ==> a[..k][0] == a[0] && b[..k][0] == b[0];
      }
    } else {
      StrcmpIs(a[1..], b[1..]);
      if k: nat :| SmallerAt(a[1..], b[1..], k) { SmallerNext(a, b, k); }
      if k: nat :| SmallerAt(a, b, k) { SmallerNext(a, b, k - 1); }
    }
  }

  ghost predicate Sorted(s: seq<Name>) {
    forall i, j :: 0 <= i < j < |s| ==> Strcmp(s[i].name, s[j].name) < 0
  }

  /** The handle a name stands for, found by looking at every entry; 0 if there is none. */
  function Find(s: seq<Name>, name: string): Handle {
    if s == [] then 0 else if s[0].name == name then s[0].handle else Find(s[1..], name)
  }

  predicate Taken(s: seq<Name>, name: string) {
    exists i :: 0 <= i < |s| && s[i].name == name
  }

  lemma {:induction false} SortedDistinct(s: seq<Name>, i: nat, j: nat)
    requires Sorted(s) && i < |s| && j < |s| && s[i].name == s[j].name
    ensures i == j
  {
    StrcmpZero(s[i].name, s[j].name);
    StrcmpZero(s[j].name, s[i].name);
  }

  lemma {:induction false} FindAt(s: seq<Name>, i: nat)
    requires Sorted(s) && i < |s|
    ensures Find(s, s[i].name) == s[i].handle
  {
    if s[0].name == s[i].name {
      SortedDistinct(s, 0, i);
    } else {
      FindAt(s[1..], i - 1);
    }
  }

  lemma {:induction false} FindNothing(s: seq<Name>, name: string)
    requires !Taken(s, name)
    ensures Find(s, name) == 0
  {
    if s != [] {
      assert s[0].name != name;
      assert forall i :: 0 <= i < |s| - 1 ==> s[1..][i] == s[i + 1];
      FindNothing(s[1..], name);
    }
  }

  /** `name` is not below any entry before `begin` nor above any from `end` on. */
  ghost predicate Bracket(s: seq<Name>, name: string, begin: int, end: int) {
    && 0 <= begin <= end <= |s|
    && (forall i :: 0 <= i < begin ==> Strcmp(s[i].name, name) < 0)
    && (forall i :: end <= i < |s| ==> Strcmp(name, s[i].name) < 0)
  }

  /** One look at the middle entry halves the bracket. */
  lemma {:induction false} Narrow(s: seq<Name>, name: string, begin: nat, end: nat, mid: nat)
    requires Sorted(s) && Bracket(s, name, begin, end) && begin <= mid < end
    ensures Strcmp(s[mid].name, name) < 0 ==> Bracket(s, name, mid + 1, end)
    ensures Strcmp(s[mid].name, name) > 0 ==> Bracket(s, name, begin, mid)
  {
    var c := Strcmp(s[mid].name, name);
    if c < 0 {
      forall i | 0 <= i < mid + 1 ensures Strcmp(s[i].name, name) < 0 {
        if begin <= i < mid { StrcmpTransitive(s[i].name, s[mid].name, name); }
      }
    } else if c > 0 {
      StrcmpFlips(name, s[mid].name);
      forall i | mid <= i < |s| ensures Strcmp(name, s[i].name) < 0 {
        if mid < i { StrcmpTransitive(name, s[mid].name, s[i].name); }
      }
    }
  }

  lemma {:induction false} EmptyBracket(s: seq<Name>, name: string, at: nat)
    requires Bracket(s, name, at, at)
    ensures !Taken(s, name)
  {
    forall i | 0 <= i < |s| ensures s[i].name != name {
      StrcmpZero(s[i].name, name);
      StrcmpZero(name, s[i].name);
    }
  }

  function Inserted(s: seq<Name>, n: Name, at: nat): seq<Name>
    requires at <= |s|
  {
    s[..at] + [n] + s[at..]
  }

  lemma {:induction false} GapFilled(gap: seq<Name>, s: seq<Name>, n: Name, at: nat)
    requires at <= |s| < |gap| && gap[..at] == s[..at] && gap[at + 1..|s| + 1] == s[at..]
    ensures gap[at := n][..|s| + 1] == Inserted(s, n, at)
  {
    var r := gap[at := n][..|s| + 1];
    assert r[..at] == gap[..at] && r[at + 1..] == gap[at + 1..|s| + 1];
    assert r == r[..at] + [r[at]] + r[at + 1..];
  }

  lemma {:induction false} InsertSorted(s: seq<Name>, n: Name, at: nat)
    requires Sorted(s) && Bracket(s, n.name, at, at)
    ensures Sorted(Inserted(s, n, at))
  {
    var r := Inserted(s, n, at);
    forall i, j | 0 <= i < j < |r| ensures Strcmp(r[i].name, r[j].name) < 0 {
      if i < at < j { StrcmpTransitive(s[i].name, n.name, s[j - 1].name); }
    }
  }

  /** Adding a name changes what that name stands for and nothing else. */
  lemma {:induction false} InsertFind(s: seq<Name>, n: Name, at: nat, name: string)
    requires at <= |s| && !Taken(s, n.name)
    ensures Find(Inserted(s, n, at), name) == if name == n.name then n.handle else Find(s, name)
  {
    if at > 0 {
      assert Inserted(s, n, at)[1..] == Inserted(s[1..], n, at - 1);
      assert s[0].name != n.name;
      assert !Taken(s[1..], n.name) by {
        assert forall i :: 0 <= i < |s| - 1 ==> s[1..][i] == s[i + 1];
      }
      InsertFind(s[1..], n, at - 1, name);
    } else {
      assert Inserted(s, n, 0)[1..] == s;
    }
  }

  // ---- Names of a retired service ----

  function Without(s: seq<Name>, h: Handle): seq<Name> {
    if s == [] then []
    else if s[|s| - 1].handle == h then Without(s[..|s| - 1], h)
    else Without(s[..|s| - 1], h) + [s[|s| - 1]]
  }

  lemma {:induction false} WithoutFrom(s: seq<Name>, h: Handle, k: nat)
    requires k < |Without(s, h)|
    ensures |Without(s, h)| <= |s| && Without(s, h)[k].handle != h && exists i :: k <= i < |s| && s[i] == Without(s, h)[k]
  {
    var p := s[..|s| - 1];
    var n := |Without(p, h)|;
    if n > 0 { WithoutFrom(p, h, n - 1); }
    if k < n {
      WithoutFrom(p, h, k);
      var i :| k <= i < |p| && p[i] == Without(p, h)[k];
      assert s[i] == Without(s, h)[k];
    } else {
      assert s[|s| - 1] == Without(s, h)[k];
    }
  }

  lemma {:induction false} WithoutSorted(s: seq<Name>, h: Handle)
    requires Sorted(s)
    ensures Sorted(Without(s, h)) && |Without(s, h)| <= |s|
  {
    if s != [] {
      var p, w := s[..|s| - 1], Without(s, h);
      WithoutSorted(p, h);
      forall i, j | 0 <= i < j < |w| ensures Strcmp(w[i].name, w[j].name) < 0 {
        if j == |Without(p, h)| {
          WithoutFrom(p, h, i);
          var k :| i <= k < |p| && p[k] == Without(p, h)[i];
          assert s[k] == w[i] && w[j] == s[|s| - 1];
        }
      }
    }
  }

  /** Compaction forgets exactly the names of the one service. */
  lemma {:induction false} WithoutFind(s: seq<Name>, h: Handle, name: string)
    requires Sorted(s)
    ensures Find(Without(s, h), name) == if Find(s, name) == h then 0 else Find(s, name)
  {
    var w := Without(s, h);
    WithoutSorted(s, h);
    if Taken(w, name) {
      var k :| 0 <= k < |w| && w[k].name == name;
      WithoutFrom(s, h, k);
      var i :| k <= i < |s| && s[i] == w[k];
      FindAt(w, k);
      FindAt(s, i);
    } else {
      FindNothing(w, name);
      if Taken(s, name) {
        var i :| 0 <= i < |s| && s[i].name == name;
        FindAt(s, i);
        if s[i].handle != h { WithoutKeeps(s, h, i); }
      } else {
        FindNothing(s, name);
      }
    }
  }

  lemma {:induction false} WithoutKeeps(s: seq<Name>, h: Handle, i: nat)
    requires i < |s| && s[i].handle != h
    ensures s[i] in Without(s, h)
  {
    if i < |s| - 1 { WithoutKeeps(s[..|s| - 1], h, i); }
  }

  // ---- The array ----

  class Names {
    var name: array<Name>
    var nameCount: nat
    var nameCap: nat

    ghost predicate Valid()
      reads this, name
    {
      nameCap == name.Length && 2 <= nameCap <= MAX_SLOT_SIZE && nameCount <= nameCap && Sorted(Contents())
    }

    ghost function Contents(): seq<Name>
      requires nameCount <= name.Length
      reads this, name
    {
      name[..nameCount]
    }

    constructor ()
      ensures Valid() && fresh(name) && Contents() == []
    {
      name := new Name[2](_ => Name("", 0));
      nameCap := 2;
      nameCount := 0;
    }

    /** The bisection of skynet_handle_findname agrees with looking at every entry. */
    method FindName(wanted: string) returns (handle: Handle)
      requires Valid()
      ensures handle == Find(Contents(), wanted)
    {
      var begin, end := 0, nameCount - 1;
      while begin <= end
        invariant Bracket(Contents(), wanted, begin, end + 1)
        decreases end - begin
      {
        var mid := (begin + end) / 2;
        var n := name[mid];
        assert Contents()[mid] == n;
        var c := Strcmp(n.name, wanted);
        Narrow(Contents(), wanted, begin, end + 1, mid);
        if c == 0 {
          StrcmpZero(n.name, wanted);
          FindAt(Contents(), mid);
          return n.handle;
        }
        if c < 0 {
          begin := mid + 1;
        } else {
          end := mid - 1;
        }
      }
      EmptyBracket(Contents(), wanted, begin);
      FindNothing(Contents(), wanted);
      return 0;
    }

    /** `_insert_name_before`: makes room by moving into a bigger array or by shifting. Fails, as the
        program asserts, only when the array cannot grow any more. */
    method InsertBefore(n: Name, before: nat) returns (ok: bool)
      requires Valid() && Bracket(Contents(), n.name, before, before)
      modifies this, name
      ensures ok <==> !(old(nameCount) == old(nameCap) && 2 * old(nameCap) > MAX_SLOT_SIZE)
      ensures !ok ==> nameCount == old(nameCount) && name == old(name) && name[..] == old(name[..])
      ensures ok ==> Valid() && Contents() == Inserted(old(Contents()), n, before)
      ensures name == old(name) || fresh(name)
    {
      ghost var s := Contents();
      InsertSorted(s, n, before);
      hide Sorted, Strcmp, Inserted;
      if nameCount >= nameCap {
        nameCap := nameCap * 2;
        if nameCap > MAX_SLOT_SIZE { return false; }
        name := Grow(name, nameCount, before, nameCap);
      } else {
        OpenGap(name, nameCount, before);
      }
      assert name[..before] == s[..before] && name[before + 1..|s| + 1] == s[before..];
      ghost var gap := name[..];
      name[before] := n;
      nameCount := nameCount + 1;
      GapFilled(gap, s, n, before);
      assert name[..] == gap[before := n];
      return true;
    }

    /** `_insert_name`: refuses a name that is already there; a name it adds changes no other. */
    method InsertName(wanted: string, handle: Handle) returns (r: Outcome)
      requires Valid()
      modifies this, name
      ensures name == old(name) || fresh(name)
      ensures r.Refused? <==> Taken(old(Contents()), wanted)
      ensures r.Refused? ==> Valid() && Contents() == old(Contents())
      ensures r.Full? <==> !Taken(old(Contents()), wanted) && old(nameCount) == old(nameCap) && 2 * old(nameCap) > MAX_SLOT_SIZE
      ensures r.Added? ==> Valid() && exists at :: 0 <= at <= old(nameCount) && Contents() == Inserted(old(Contents()), Name(wanted, handle), at)
      ensures r.Added? ==> forall x :: Find(Contents(), x) == if x == wanted then handle else Find(old(Contents()), x)
    {
      var begin, end := 0, nameCount - 1;
      ghost var s := Contents();
      while begin <= end
        invariant Valid() && Contents() == s && Bracket(s, wanted, begin, end + 1) && name == old(name) && nameCap == old(nameCap)
        decreases end - begin
      {
        var mid := (begin + end) / 2;
        var n := name[mid];
        assert s[mid] == n;
        var c := Strcmp(n.name, wanted);
        Narrow(s, wanted, begin, end + 1, mid);
        if c == 0 {
          StrcmpZero(n.name, wanted);
          return Refused;
        }
        if c < 0 {
          begin := mid + 1;
        } else {
          end := mid - 1;
        }
      }
      EmptyBracket(s, wanted, begin);
      var ok := InsertBefore(Name(wanted, handle), begin);
      r := if ok then Added else Full;
      forall x ensures Find(Inserted(s, Name(wanted, handle), begin), x) == if x == wanted then handle else Find(s, x) {
        InsertFind(s, Name(wanted, handle), begin, x);
      }
    }

    /** The compaction loop of skynet_handle_retire. */
    method Retire(handle: Handle)
      requires Valid()
      modifies this`nameCount, name
      ensures Valid() && Contents() == Without(old(Contents()), handle)
      ensures forall x :: Find(Contents(), x) == if Find(old(Contents()), x) == handle then 0 else Find(old(Contents()), x)
    {
      ghost var s := Contents();
      hide Sorted, Find;
      var j, n := 0, nameCount;
      for i := 0 to n
        invariant j <= i <= n == |s| <= name.Length && nameCount == n
        invariant name[..j] == Without(s[..i], handle)
        invariant forall k :: i <= k < n ==> name[k] == s[k]
      {
        assert s[..i + 1][..i] == s[..i] && s[..i + 1][i] == s[i];
        if name[i].handle == handle {
          continue;
        } else if i != j {
          name[j] := name[i];
        }
        j := j + 1;
      }
      nameCount := j;
      assert s[..n] == s;
      WithoutSorted(s, handle);
      forall x ensures Find(Without(s, handle), x) == if Find(s, x) == handle then 0 else Find(s, x) {
        WithoutFind(s, handle, x);
      }
    }
  }

  /** Copies `count` entries into a new array, leaving a gap at `before`. */
  method Grow(name: array<Name>, count: nat, before: nat, cap: nat) returns (n: array<Name>)
    requires before <= count <= name.Length && count < cap
    ensures fresh(n) && n.Length == cap
    ensures n[..before] == name[..before] && n[before + 1..count + 1] == name[before..count]
  {
    n := new Name[cap](_ => Name("", 0));
    for i := 0 to before
      invariant n[..i] == name[..i]
    {
      n[i] := name[i];
    }
    for i := before to count
      invariant n[..before] == name[..before]
      invariant forall k :: before <= k < i ==> n[k + 1] == name[k]
    {
      n[i + 1] := name[i];
    }
  }

  /** Shifts the entries from `before` on up by one. */
  method OpenGap(name: array<Name>, count: nat, before: nat)
    requires before <= count < name.Length
    modifies name
    ensures name[..before] == old(name[..before]) && name[before + 1..count + 1] == old(name[before..count])
  {
    var i := count;
    while i > before
      invariant before <= i <= count
      invariant forall k :: 0 <= k < i ==> name[k] == old(name[k])
      invariant forall k :: i < k <= count ==> name[k] == old(name[k - 1])
    {
      name[i] := name[i - 1];
      i := i - 1;
    }
  }
}
