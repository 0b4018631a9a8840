/**
 lua-netpack.c: cutting several connections' byte streams into packages of a big-endian 16-bit size
 and that many bytes. What is left of a connection's stream waits in a hash table of partial packages.
 */
module NetPack {

  import opened Wrappers
  import opened Bytes

  const HASHSIZE: nat := 4096

  type Fd = nat

  // ---- Packages of a stream ----

  datatype Cut = Cut(packages: seq<seq<Byte>>, rest: seq<Byte>)

  function Header(n: nat): seq<Byte>
    requires n < 0x1_0000
  {
    [n / 256, n % 256]
  }

  function ReadSize(s: seq<Byte>): nat
    requires |s| >= 2
  {
    (s[0] as int) * 256 + s[1]
  }

  /** The whole packages at the front of a stream, and what follows them. */
  function Split(s: seq<Byte>): (c: Cut)
    ensures |c.rest| <= |s|
    decreases |s|
  {
    if |s| < 2 || |s| - 2 < ReadSize(s) then Cut([], s)
    else
      var n := ReadSize(s);
      var c := Split(s[2 + n..]);
      Cut([s[2..2 + n]] + c.packages, c.rest)
  }

  predicate Whole(s: seq<Byte>) {
    |s| >= 2 && |s| - 2 >= ReadSize(s)
  }

  lemma {:induction false} SplitStep(s: seq<Byte>)
    ensures Whole(s) ==> var n := ReadSize(s);
                         Split(s) == Cut([s[2..2 + n]] + Split(s[2 + n..]).packages, Split(s[2 + n..]).rest)
    ensures !Whole(s) ==> Split(s) == Cut([], s)
  {
  }

  lemma {:induction false} WholeAppend(a: seq<Byte>, b: seq<Byte>)
    requires Whole(a)
    ensures Whole(a + b) && ReadSize(a + b) == ReadSize(a)
    ensures var n := ReadSize(a);
            (a + b)[2..2 + n] == a[2..2 + n] && (a + b)[2 + n..] == a[2 + n..] + b
  {
  }

  /** Cutting may stop anywhere and go on when more bytes are there. */
  lemma {:induction false} SplitAppend(a: seq<Byte>, b: seq<Byte>)
    ensures Split(a + b) == Cut(Split(a).packages + Split(Split(a).rest + b).packages, Split(Split(a).rest + b).rest)
    decreases |a|
  {
    hide Split;
    SplitStep(a);
    if Whole(a) {
      WholeAppend(a, b);
      SplitStep(a + b);
      hide Whole;
      var n := ReadSize(a);
      var t, first := a[2 + n..], [a[2..2 + n]];
      SplitAppend(t, b);
      var more := Split(Split(t).rest + b);
      assert first + (Split(t).packages + more.packages) == (first + Split(t).packages) + more.packages;
    }
  }

  /** A stream begins with one package. */
  lemma {:induction false} SplitFirst(p: seq<Byte>, rest: seq<Byte>)
    requires |p| < 0x1_0000
    ensures Split(Header(|p|) + p + rest) == Cut([p] + Split(rest).packages, Split(rest).rest)
  {
    var s := Header(|p|) + p + rest;
    assert s[2..2 + |p|] == p && s[2 + |p|..] == rest;
  }

  lemma {:induction false} SplitPartial(n: nat, part: seq<Byte>)
    requires |part| < n < 0x1_0000
    ensures Split(Header(n) + part) == Cut([], Header(n) + part)
  {
  }

  lemma {:induction false} SplitNothing()
    ensures Split([]) == Cut([], [])
  {
  }

  /** `lpack`. */
  method Pack(data: seq<Byte>) returns (r: Option<seq<Byte>>)
    ensures r.None? <==> |data| >= 0x1_0000
    ensures r.Some? ==> r.value == [|data| / 256, |data| % 256] + data
    ensures r.Some? ==> Split(r.value) == Cut([data], [])
  {
    if |data| >= 0x1_0000 {
      return None;
    }
    SplitFirst(data, []);
    assert Header(|data|) + data + [] == Header(|data|) + data;
    return Some(Header(|data|) + data);
  }

  // ---- Partial packages ----

  /** `read` is -1 while only the first byte of the size is there. */
  datatype Uncomplete = Uncomplete(id: Fd, size: nat, buffer: seq<Byte>, read: int, header: Byte)

  predicate Good(uc: Uncomplete) {
    uc.read == -1 || (0 <= uc.read < uc.size < 0x1_0000 && |uc.buffer| == uc.size)
  }

  /** The bytes of the stream that a partial package stands for. */
  function Held(uc: Uncomplete): (s: seq<Byte>)
    requires Good(uc)
    ensures s != []
  {
    if uc.read == -1 then [uc.header] else Header(uc.size) + uc.buffer[..uc.read]
  }

  /** fd arithmetic wraps at 2^32, a multiple of HASHSIZE. */
  function HashFd(fd: Fd): (h: nat)
    ensures h < HASHSIZE
  {
    (fd / 0x100_0000 + fd / 0x1000 + fd) % HASHSIZE
  }

  /** One partial package per connection, each in the chain of its hash. */
  ghost predicate GoodChain(chain: seq<Uncomplete>, h: nat) {
    && (forall i :: 0 <= i < |chain| ==> Good(chain[i]) && HashFd(chain[i].id) == h)
    && (forall i, j :: 0 <= i < j < |chain| ==> chain[i].id != chain[j].id)
  }

  ghost predicate GoodHash(hash: seq<seq<Uncomplete>>) {
    |hash| == HASHSIZE && forall h :: 0 <= h < HASHSIZE ==> GoodChain(hash[h], h)
  }

  ghost function HeldIn(chain: seq<Uncomplete>, fd: Fd): seq<Byte>
    requires forall i :: 0 <= i < |chain| ==> Good(chain[i])
  {
    if chain == [] then []
    else if chain[0].id == fd then Held(chain[0])
    else HeldIn(chain[1..], fd)
  }

  /** What is left of the stream of `fd`. */
  ghost function Left(hash: seq<seq<Uncomplete>>, fd: Fd): seq<Byte>
    requires GoodHash(hash)
  {
    HeldIn(hash[HashFd(fd)], fd)
  }

  /** Only the rest of one stream has changed. */
  ghost predicate Sets(hash: seq<seq<Uncomplete>>, hash': seq<seq<Uncomplete>>, fd: Fd, rest: seq<Byte>) {
    && GoodHash(hash) && GoodHash(hash')
    && forall g: Fd :: Left(hash', g) == if g == fd then rest else Left(hash, g)
  }

  lemma {:induction false} HeldAbsent(chain: seq<Uncomplete>, fd: Fd)
    requires forall i :: 0 <= i < |chain| ==> Good(chain[i]) && chain[i].id != fd
    ensures HeldIn(chain, fd) == []
  {
    if chain != [] { HeldAbsent(chain[1..], fd); }
  }

  lemma {:induction false} HeldAt(chain: seq<Uncomplete>, i: nat)
    requires i < |chain| && (forall j :: 0 <= j < |chain| ==> Good(chain[j]))
    requires forall j :: 0 <= j < i ==> chain[j].id != chain[i].id
    ensures HeldIn(chain, chain[i].id) == Held(chain[i])
  {
    if i > 0 { HeldAt(chain[1..], i - 1); }
  }

  /** Taking an entry out of a chain hides it and nothing else. */
  lemma {:induction false} HeldWithout(chain: seq<Uncomplete>, i: nat, fd: Fd)
    requires i < |chain| && (forall j :: 0 <= j < |chain| ==> Good(chain[j])) && chain[i].id != fd
    ensures HeldIn(chain[..i] + chain[i + 1..], fd) == HeldIn(chain, fd)
  {
    var less := chain[..i] + chain[i + 1..];
    if i > 0 {
      assert less[1..] == chain[1..][..i - 1] + chain[1..][i..];
      HeldWithout(chain[1..], i - 1, fd);
    } else {
      assert less == chain[1..];
    }
  }

  lemma {:induction false} Removed(hash: seq<seq<Uncomplete>>, h: nat, i: nat)
    requires GoodHash(hash) && h < HASHSIZE && i < |hash[h]|
    ensures var fd := hash[h][i].id;
            && HashFd(fd) == h && Good(hash[h][i]) && Left(hash, fd) == Held(hash[h][i])
            && Sets(hash, hash[h := hash[h][..i] + hash[h][i + 1..]], fd, [])
  {
    var chain, fd := hash[h], hash[h][i].id;
    assert GoodChain(chain, h);
    HeldAt(chain, i);
    var less := chain[..i] + chain[i + 1..];
    assert GoodChain(less, h);
    var hash' := hash[h := less];
    assert forall k :: 0 <= k < HASHSIZE && k != h ==> GoodChain(hash[k], k);
    HeldAbsent(less, fd);
    forall g: Fd ensures Left(hash', g) == if g == fd then [] else Left(hash, g) {
      if g != fd && HashFd(g) == h { HeldWithout(chain, i, g); }
    }
  }

  lemma {:induction false} Added(hash: seq<seq<Uncomplete>>, uc: Uncomplete)
    requires GoodHash(hash) && Good(uc) && Left(hash, uc.id) == []
    ensures var h := HashFd(uc.id);
            Sets(hash, hash[h := [uc] + hash[h]], uc.id, Held(uc))
  {
    var h := HashFd(uc.id);
    var chain := [uc] + hash[h];
    var hash' := hash[h := chain];
    assert GoodChain(hash[h], h);
    NoneThere(hash[h], uc.id);
    assert GoodChain(chain, h);
    assert forall k :: 0 <= k < HASHSIZE && k != h ==> GoodChain(hash[k], k);
    assert chain[1..] == hash[h];
    forall g: Fd ensures Left(hash', g) == if g == uc.id then Held(uc) else Left(hash, g) {
    }
  }

  lemma {:induction false} NoneThere(chain: seq<Uncomplete>, fd: Fd)
    requires (forall j :: 0 <= j < |chain| ==> Good(chain[j])) && HeldIn(chain, fd) == []
    ensures forall j :: 0 <= j < |chain| ==> chain[j].id != fd
  {
    if chain != [] {
      NoneThere(chain[1..], fd);
      assert forall j :: 0 < j < |chain| ==> chain[j] == chain[1..][j - 1];
    }
  }

  lemma {:induction false} NotThere(hash: seq<seq<Uncomplete>>, fd: Fd)
    requires GoodHash(hash) && forall i :: 0 <= i < |hash[HashFd(fd)]| ==> hash[HashFd(fd)][i].id != fd
    ensures Left(hash, fd) == [] && Sets(hash, hash, fd, [])
  {
    assert GoodChain(hash[HashFd(fd)], HashFd(fd));
    HeldAbsent(hash[HashFd(fd)], fd);
  }

  lemma {:induction false} SetsThen(a: seq<seq<Uncomplete>>, b: seq<seq<Uncomplete>>, c: seq<seq<Uncomplete>>, fd: Fd, x: seq<Byte>, y: seq<Byte>)
    requires Sets(a, b, fd, x) && Sets(b, c, fd, y)
    ensures Sets(a, c, fd, y)
  {
    hide Left, GoodHash;
  }

  lemma {:induction false} SetsNothing(hash: seq<seq<Uncomplete>>, fd: Fd)
    requires GoodHash(hash) && Left(hash, fd) == []
    ensures Sets(hash, hash, fd, [])
  {
    hide Left, GoodHash;
  }
}
