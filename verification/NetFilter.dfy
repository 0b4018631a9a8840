/**
 The filter of lua-netpack.c: chunks of any connections come in, in any order and cut anywhere, and
 whole packages go out, one at once or several through a queue. The ring that holds the queue is a
 sequence here.
 */
module NetFilter {

  import opened Wrappers
  import opened Bytes
  import opened NetPack

  datatype Netpack = Netpack(id: Fd, data: seq<Byte>)

  /** What `filter_data_` returns: nothing, one package, or that packages wait in the queue. */
  datatype Answer = Nothing | Data(pack: Netpack) | More

  function Tagged(fd: Fd, packages: seq<seq<Byte>>): (r: seq<Netpack>)
    ensures |r| == |packages|
  {
    seq(|packages|, i requires 0 <= i < |packages| => Netpack(fd, packages[i]))
  }

  lemma {:induction false} TaggedAppend(fd: Fd, a: seq<seq<Byte>>, b: seq<seq<Byte>>)
    ensures Tagged(fd, a + b) == Tagged(fd, a) + Tagged(fd, b)
  {
  }

  class Queue {
    var hash: seq<seq<Uncomplete>>
    var queue: seq<Netpack>

    constructor ()
      ensures GoodHash(hash) && queue == [] && forall fd :: Left(hash, fd) == []
    {
      hash, queue := seq(HASHSIZE, _ => []), [];
    }

    /** Takes the partial package of a connection out of its chain. */
    method FindUncomplete(fd: Fd) returns (uc: Option<Uncomplete>)
      requires GoodHash(hash)
      modifies this`hash
      ensures Sets(old(hash), hash, fd, [])
      ensures uc.None? ==> Left(old(hash), fd) == []
      ensures uc.Some? ==> uc.value.id == fd && Good(uc.value) && Held(uc.value) == Left(old(hash), fd)
    {
      assert |hash| == HASHSIZE;
      hide GoodHash, Left, Sets, HashFd;
      var h := HashFd(fd);
      var chain := hash[h];
      if chain == [] {
        NotThere(hash, fd);
        return None;
      }
      if chain[0].id == fd {
        Removed(hash, h, 0);
        assert chain[..0] + chain[1..] == chain[1..];
        hash := hash[h := chain[1..]];
        return Some(chain[0]);
      }
      var last := 0;
      while last + 1 < |chain|
        invariant last < |chain| && hash == old(hash)
        invariant forall i :: 0 <= i <= last ==> chain[i].id != fd
      {
        if chain[last + 1].id == fd {
          Removed(hash, h, last + 1);
          hash := hash[h := chain[..last + 1] + chain[last + 2..]];
          return Some(chain[last + 1]);
        }
        last := last + 1;
      }
      NotThere(hash, fd);
      return None;
    }

    method SaveUncomplete(uc: Uncomplete)
      requires GoodHash(hash) && Good(uc) && Left(hash, uc.id) == []
      modifies this`hash
      ensures Sets(old(hash), hash, uc.id, Held(uc))
    {
      Added(hash, uc);
      var h := HashFd(uc.id);
      hash := hash[h := [uc] + hash[h]];
    }

    method PushData(fd: Fd, data: seq<Byte>)
      modifies this`queue
      ensures queue == old(queue) + [Netpack(fd, data)]
    {
      queue := queue + [Netpack(fd, data)];
    }

    /** What follows a whole package: more of them, and perhaps a partial one. */
    method PushMore(fd: Fd, buffer: seq<Byte>)
      requires GoodHash(hash) && Left(hash, fd) == [] && buffer != []
      modifies this
      ensures Sets(old(hash), hash, fd, Split(buffer).rest)
      ensures queue == old(queue) + Tagged(fd, Split(buffer).packages)
      decreases |buffer|
    {
      SplitStep(buffer);
      hide Split, GoodHash, Left, Sets;
      if |buffer| == 1 {
        assert [buffer[0]] == buffer;
        SaveUncomplete(Uncomplete(fd, 0, [], -1, buffer[0]));
        return;
      }
      var packSize := ReadSize(buffer);
      var rest := buffer[2..];
      assert buffer == Header(packSize) + rest;
      if |rest| < packSize {
        SaveUncomplete(Allocate(fd, packSize, rest));
        return;
      }
      PushData(fd, rest[..packSize]);
      assert rest[packSize..] == buffer[2 + packSize..] && rest[..packSize] == buffer[2..2 + packSize];
      TaggedAppend(fd, [rest[..packSize]], Split(rest[packSize..]).packages);
      if |rest| - packSize > 0 {
        PushMore(fd, rest[packSize..]);
      } else {
        SplitNothing();
        SetsNothing(hash, fd);
      }
    }

    /** A chunk goes through the filter: the packages it completes come out in order, and only the rest
        of its own connection changes. */
    method FilterData(fd: Fd, chunk: seq<Byte>) returns (r: Answer)
      requires GoodHash(hash) && chunk != []
      modifies this
      ensures Sets(old(hash), hash, fd, Split(Left(old(hash), fd) + chunk).rest)
      ensures Emits(r, fd, Split(Left(old(hash), fd) + chunk), old(queue), queue)
    {
      ghost var before := hash;
      ghost var left := Left(hash, fd);
      var found := FindUncomplete(fd);
      ghost var middle := hash;
      NowEmpty(before, middle, fd);
      hide Split, GoodHash, Left, Sets;
      if found.Some? {
        r := Continue(fd, found.value, chunk);
      } else {
        assert left + chunk == chunk;
        r := Fresh(fd, chunk);
      }
      SetsThen(before, middle, hash, fd, [], Split(left + chunk).rest);
    }

    /** The half of `filter_data_` that has a partial package. */
    method Continue(fd: Fd, uc0: Uncomplete, chunk: seq<Byte>) returns (r: Answer)
      requires GoodHash(hash) && Left(hash, fd) == [] && Good(uc0) && uc0.id == fd && chunk != []
      modifies this
      ensures Sets(old(hash), hash, fd, Split(Held(uc0) + chunk).rest)
      ensures Emits(r, fd, Split(Held(uc0) + chunk), old(queue), queue)
    {
      hide GoodHash, Left, Sets, Split;
      var uc, buffer := uc0, chunk;
      if uc.read < 0 {
        var packSize := (buffer[0] as int) + (uc.header as int) * 256;
        buffer := buffer[1..];
        uc := uc.(size := packSize, buffer := seq(packSize, _ => 0), read := 0);
      }
      ghost var start := Header(uc.size) + uc.buffer[..uc.read];
      assert Held(uc0) + chunk == start + buffer;
      var need := uc.size - uc.read;
      if |buffer| < need {
        Completed(uc, buffer);
        SaveUncomplete(uc.(buffer := uc.buffer[..uc.read] + buffer + uc.buffer[uc.read + |buffer|..], read := uc.read + |buffer|));
        return Nothing;
      }
      var package := uc.buffer[..uc.read] + buffer[..need];
      var rest := buffer[need..];
      assert start + buffer == Header(|package|) + package + rest;
      SplitFirst(package, rest);
      if |rest| == 0 {
        SplitNothing();
        SetsNothing(hash, fd);
        return Data(Netpack(fd, package));
      }
      TaggedAppend(fd, [package], Split(rest).packages);
      SplitStep(rest);
      PushData(fd, package);
      PushMore(fd, rest);
      return More;
    }

    /** The half of `filter_data_` that starts at the head of a package. */
    method Fresh(fd: Fd, chunk: seq<Byte>) returns (r: Answer)
      requires GoodHash(hash) && Left(hash, fd) == [] && chunk != []
      modifies this
      ensures Sets(old(hash), hash, fd, Split(chunk).rest)
      ensures Emits(r, fd, Split(chunk), old(queue), queue)
    {
      SplitStep(chunk);
      hide GoodHash, Left, Sets, Split;
      if |chunk| == 1 {
        assert [chunk[0]] == chunk;
        SaveUncomplete(Uncomplete(fd, 0, [], -1, chunk[0]));
        return Nothing;
      }
      var packSize := ReadSize(chunk);
      var rest := chunk[2..];
      assert chunk == Header(packSize) + rest;
      if |rest| < packSize {
        SaveUncomplete(Allocate(fd, packSize, rest));
        return Nothing;
      }
      var package, more := rest[..packSize], rest[packSize..];
      assert package == chunk[2..2 + packSize] && more == chunk[2 + packSize..];
      if |rest| == packSize {
        SplitNothing();
        SetsNothing(hash, fd);
        return Data(Netpack(fd, package));
      }
      TaggedAppend(fd, [package], Split(more).packages);
      SplitStep(more);
      PushData(fd, package);
      PushMore(fd, more);
      return More;
    }

    /** A connection that closes loses its partial package. */
    method CloseUncomplete(fd: Fd)
      requires GoodHash(hash)
      modifies this`hash
      ensures Sets(old(hash), hash, fd, [])
    {
      var _ := FindUncomplete(fd);
    }

    method Pop() returns (p: Option<Netpack>)
      modifies this`queue
      ensures p == if old(queue) == [] then None else Some(old(queue)[0])
      ensures queue == if old(queue) == [] then [] else old(queue)[1..]
    {
      if queue == [] {
        return None;
      }
      p := Some(queue[0]);
      queue := queue[1..];
    }
  }

  /** The packages of `fd` went out as the answer says: a single one with nothing after it at once, others
      through the queue. */
  ghost predicate Emits(r: Answer, fd: Fd, c: Cut, queue: seq<Netpack>, queue': seq<Netpack>) {
    match r
    case Nothing => c.packages == [] && queue' == queue
    case Data(p) => [p] == Tagged(fd, c.packages) && c.rest == [] && queue' == queue
    case More => c.packages != [] && (|c.packages| > 1 || c.rest != []) && queue' == queue + Tagged(fd, c.packages)
  }

  /** A buffer of the package's size with the bytes that are there already. */
  function Allocate(fd: Fd, size: nat, part: seq<Byte>): (uc: Uncomplete)
    requires |part| < size < 0x1_0000
    ensures Good(uc) && uc.id == fd && Held(uc) == Header(size) + part
  {
    var uc := Uncomplete(fd, size, part + seq(size - |part|, _ => 0), |part|, 0);
    assert uc.buffer[..uc.read] == part;
    uc
  }

  lemma {:induction false} NowEmpty(hash: seq<seq<Uncomplete>>, hash': seq<seq<Uncomplete>>, fd: Fd)
    requires Sets(hash, hash', fd, [])
    ensures GoodHash(hash') && Left(hash', fd) == []
  {
  }

  /** Copying a chunk that does not complete the package. */
  lemma {:induction false} Completed(uc: Uncomplete, chunk: seq<Byte>)
    requires 0 <= uc.read <= uc.size < 0x1_0000 && |uc.buffer| == uc.size && |chunk| < uc.size - uc.read
    ensures var uc' := uc.(buffer := uc.buffer[..uc.read] + chunk + uc.buffer[uc.read + |chunk|..], read := uc.read + |chunk|);
            && Good(uc') && Held(uc') == (Header(uc.size) + uc.buffer[..uc.read]) + chunk
            && Split(Held(uc')) == Cut([], Held(uc'))
  {
    var buffer := uc.buffer[..uc.read] + chunk + uc.buffer[uc.read + |chunk|..];
    assert buffer[..uc.read + |chunk|] == uc.buffer[..uc.read] + chunk;
    SplitPartial(uc.size, buffer[..uc.read + |chunk|]);
  }

  // ---- Runs ----

  datatype Event = Chunk(fd: Fd, bytes: seq<Byte>) | Close(fd: Fd)

  /** What one connection's stream has been cut into after some events; a close drops the rest. */
  ghost function Stream(events: seq<Event>, fd: Fd): Cut {
    if events == [] then Cut([], [])
    else
      var c, e := Stream(events[..|events| - 1], fd), events[|events| - 1];
      if e.fd != fd then c
      else if e.Close? then Cut(c.packages, [])
      else Cut(c.packages + Split(c.rest + e.bytes).packages, Split(c.rest + e.bytes).rest)
  }

  /** The bytes of one connection, whatever the chunks. */
  ghost function BytesOf(events: seq<Event>, fd: Fd): seq<Byte> {
    if events == [] then []
    else
      var s, e := BytesOf(events[..|events| - 1], fd), events[|events| - 1];
      if e.fd == fd && e.Chunk? then s + e.bytes else s
  }

  /** Chunks do not matter: a connection that does not close is cut as its whole stream would be. */
  lemma {:induction false} ChunksDoNotMatter(events: seq<Event>, fd: Fd)
    requires forall i :: 0 <= i < |events| ==> events[i] != Close(fd)
    ensures Stream(events, fd) == Split(BytesOf(events, fd))
  {
    if events == [] {
      SplitNothing();
    } else {
      var before, e := events[..|events| - 1], events[|events| - 1];
      ChunksDoNotMatter(before, fd);
      if e.fd == fd { SplitAppend(BytesOf(before, fd), e.bytes); }
    }
  }

  ghost function Of(log: seq<Netpack>, fd: Fd): seq<seq<Byte>> {
    if log == [] then []
    else if log[|log| - 1].id == fd then Of(log[..|log| - 1], fd) + [log[|log| - 1].data]
    else Of(log[..|log| - 1], fd)
  }

  lemma {:induction false} OfTagged(log: seq<Netpack>, fd: Fd, ps: seq<seq<Byte>>, g: Fd)
    ensures Of(log + Tagged(fd, ps), g) == if g == fd then Of(log, g) + ps else Of(log, g)
  {
    if ps == [] {
      assert log + Tagged(fd, ps) == log;
    } else {
      var k := |ps| - 1;
      OfTagged(log, fd, ps[..k], g);
      var longer := log + Tagged(fd, ps);
      assert longer[..|longer| - 1] == log + Tagged(fd, ps[..k]);
      assert ps == ps[..k] + [ps[k]];
    }
  }

  /** After the events the log and the partial packages are what every stream on its own comes to. */
  ghost predicate Follows(events: seq<Event>, log: seq<Netpack>, hash: seq<seq<Uncomplete>>) {
    && GoodHash(hash)
    && forall fd: Fd :: Of(log, fd) == Stream(events, fd).packages && Left(hash, fd) == Stream(events, fd).rest
  }

  lemma {:induction false} FollowsChunk(events: seq<Event>, log: seq<Netpack>, hash: seq<seq<Uncomplete>>, fd: Fd, bytes: seq<Byte>, hash': seq<seq<Uncomplete>>)
    requires Follows(events, log, hash) && Sets(hash, hash', fd, Split(Left(hash, fd) + bytes).rest)
    ensures Follows(events + [Chunk(fd, bytes)], log + Tagged(fd, Split(Left(hash, fd) + bytes).packages), hash')
  {
    var events' := events + [Chunk(fd, bytes)];
    assert events'[..|events|] == events;
    hide Split, GoodHash, Left;
    forall g: Fd ensures var log' := log + Tagged(fd, Split(Left(hash, fd) + bytes).packages);
      Of(log', g) == Stream(events', g).packages && Left(hash', g) == Stream(events', g).rest
    {
      OfTagged(log, fd, Split(Left(hash, fd) + bytes).packages, g);
      hide Of;
    }
  }

  lemma {:induction false} FollowsClose(events: seq<Event>, log: seq<Netpack>, hash: seq<seq<Uncomplete>>, fd: Fd, hash': seq<seq<Uncomplete>>)
    requires Follows(events, log, hash) && Sets(hash, hash', fd, [])
    ensures Follows(events + [Close(fd)], log, hash')
  {
    var events' := events + [Close(fd)];
    assert events'[..|events|] == events;
    hide GoodHash, Left, Of;
  }

  /** A service that takes the queue empty whenever it is told of more: every connection's packages come
      out once, in order, however the connections interleave. */
  method Run(events: seq<Event>) returns (log: seq<Netpack>)
    requires forall i :: 0 <= i < |events| && events[i].Chunk? ==> events[i].bytes != []
    ensures forall fd :: Of(log, fd) == Stream(events, fd).packages
    ensures forall fd: Fd | Close(fd) !in events :: Of(log, fd) == Split(BytesOf(events, fd)).packages
  {
    var q := new Queue();
    log := [];
    assert Follows(events[..0], log, q.hash);
    hide Follows, Split, GoodHash, Left, Sets, Of, Stream;
    for i := 0 to |events|
      invariant fresh(q) && GoodHash(q.hash) && q.queue == [] && Follows(events[..i], log, q.hash)
    {
      var e := events[i];
      ghost var hash, log0 := q.hash, log;
      assert events[..i + 1] == events[..i] + [e];
      match e
      case Close(fd) =>
        q.CloseUncomplete(fd);
        FollowsClose(events[..i], log, hash, fd, q.hash);
      case Chunk(fd, bytes) =>
        var r := q.FilterData(fd, bytes);
        ghost var ps := Split(Left(hash, fd) + bytes).packages;
        match r {
          case Nothing => assert log0 + Tagged(fd, ps) == log0;
          case Data(p) => log := log + [p];
          case More => log := Drain(q, log);
        }
        assert log == log0 + Tagged(fd, ps);
        FollowsChunk(events[..i], log0, hash, fd, bytes, q.hash);
      FollowsGood(events[..i + 1], log, q.hash);
    }
    assert events[..|events|] == events;
    FollowsIs(events, log, q.hash);
    forall fd: Fd | Close(fd) !in events ensures Of(log, fd) == Split(BytesOf(events, fd)).packages {
      ChunksDoNotMatter(events, fd);
    }
  }

  lemma {:induction false} FollowsGood(events: seq<Event>, log: seq<Netpack>, hash: seq<seq<Uncomplete>>)
    requires Follows(events, log, hash)
    ensures GoodHash(hash)
  {
  }

  lemma {:induction false} FollowsIs(events: seq<Event>, log: seq<Netpack>, hash: seq<seq<Uncomplete>>)
    requires Follows(events, log, hash)
    ensures forall fd :: Of(log, fd) == Stream(events, fd).packages
  {
  }

  method Drain(q: Queue, log0: seq<Netpack>) returns (log: seq<Netpack>)
    modifies q`queue
    ensures q.queue == [] && log == log0 + old(q.queue)
  {
    log := log0;
    var p := q.Pop();
    while p.Some?
      invariant log + (if p.Some? then [p.value] else []) + q.queue == log0 + old(q.queue)
      invariant p.None? ==> q.queue == []
      decreases |q.queue| + if p.Some? then 1 else 0
    {
      log := log + [p.value];
      p := q.Pop();
    }
  }
}
