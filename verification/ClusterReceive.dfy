/**
 The receiving side of a cluster connection: packages of several requests arrive interleaved, a large
 request is collected under its session, and `lconcat` joins it. What every session is delivered does
 not depend on the others.
 */
module ClusterReceive {

  import opened Wrappers
  import opened Bytes
  import opened Cluster
  import NetPack
  import NetFilter

  /** What lappend puts into the table of a large request. */
  datatype Item = Size(n: nat) | Str(bytes: seq<Byte>)

  datatype Large = Large(addr: Option<Address>, push: bool, items: seq<Item>)

  type Pending = map<nat, Large>

  /** `Aborted`: the buffer cannot be allocated, which ends the program. */
  datatype Delivery =
    | Delivered(addr: Option<Address>, session: nat, msg: seq<Byte>, push: bool)
    | Invalid(session: nat)
    | Aborted(session: nat)

  /** What `lconcat` comes to. */
  datatype Joint = Whole(bytes: seq<Byte>) | Mismatch | NoMemory

  datatype Fed = Fed(pending: Pending, out: seq<Delivery>)

  // ---- lconcat ----

  /** The strings up to the first item that is none. */
  function Joined(items: seq<Item>): seq<Byte> {
    if items == [] || items[0].Size? then [] else items[0].bytes + Joined(items[1..])
  }

  /** Strings that come to exactly the announced size; one that is no C `int` cannot be allocated. */
  function Concat(items: seq<Item>): Joint {
    if items == [] || items[0].Str? then Mismatch
    else if items[0].n >= TWO31 then NoMemory
    else if |Joined(items[1..])| != items[0].n then Mismatch
    else Whole(Joined(items[1..]))
  }

  /** `lconcat`: copies as it goes and gives up at the first string that does not fit. */
  method LConcat(items: seq<Item>) returns (r: Joint)
    ensures r == Concat(items)
  {
    if items == [] || items[0].Str? {
      return Mismatch;
    }
    var sz := items[0].n;
    // A larger size is negative as an int and huge again as the argument of malloc.
    if sz >= TWO31 {
      return NoMemory;
    }
    var buff: seq<Byte>, idx := [], 1;
    while idx < |items| && items[idx].Str?
      invariant 1 <= idx <= |items| && |buff| <= sz
      invariant buff + Joined(items[idx..]) == Joined(items[1..])
    {
      var str := items[idx].bytes;
      assert items[idx..][1..] == items[idx + 1..];
      if |str| + |buff| > sz {
        return Mismatch;
      }
      buff := buff + str;
      idx := idx + 1;
    }
    assert buff == Joined(items[1..]);
    if |buff| != sz {
      return Mismatch;
    }
    return Whole(buff);
  }

  predicate Strings(items: seq<Item>) {
    forall i :: 0 <= i < |items| ==> items[i].Str?
  }

  lemma {:induction false} JoinedNext(items: seq<Item>, s: seq<Byte>)
    requires Strings(items)
    ensures Joined(items + [Str(s)]) == Joined(items) + s
  {
    if items == [] {
      assert items + [Str(s)] == [Str(s)] && [Str(s)][1..] == [];
    } else {
      assert (items + [Str(s)])[1..] == items[1..] + [Str(s)];
      JoinedNext(items[1..], s);
    }
  }

  // ---- Dispatch ----

  function Found(p: Pending, session: nat, otherwise: Large): Large {
    if session in p then p[session] else otherwise
  }

  function Append(l: Large, item: Item): Large {
    l.(items := l.items + [item])
  }

  function Finish(l: Large, session: nat): Delivery {
    match Concat(l.items)
    case Whole(bytes) => Delivered(l.addr, session, bytes, l.push)
    case Mismatch => Invalid(session)
    case NoMemory => Aborted(session)
  }

  /** One unpacked package. */
  function Feed(p: Pending, u: Unpacked): Fed {
    match u
    case Trace(_) => Fed(p, [])
    case Bad => Fed(p, [])
    case Begin(addr, session, size, push) =>
      Fed(p[session := Append(Found(p, session, Large(Some(addr), push, [])), Size(size))], [])
    case Part(session, data, padding) =>
      if padding then Fed(p[session := Append(Found(p, session, Large(None, false, [])), Str(data))], [])
      else if session in p then Fed(p - {session}, [Finish(Append(p[session], Str(data)), session)])
      else Fed(p, [Delivered(None, session, data, false)])
    case Small(addr, session, msg, push) =>
      if session in p then Fed(p - {session}, [Finish(Append(p[session], Str(msg)), session)])
      else Fed(p, [Delivered(Some(addr), session, msg, push)])
  }

  predicate Ends(out: seq<Delivery>) {
    out != [] && out[|out| - 1].Aborted?
  }

  /** Packages one after the other, until the program ends. */
  function FeedAll(p: Pending, ps: seq<seq<Byte>>): Fed
    decreases ps
  {
    if ps == [] then Fed(p, [])
    else if Ends(Feed(p, Unpack(ps[0])).out) then Feed(p, Unpack(ps[0]))
    else
      var one := Feed(p, Unpack(ps[0]));
      var more := FeedAll(one.pending, ps[1..]);
      Fed(more.pending, one.out + more.out)
  }

  lemma {:induction false} FeedAppend(p: Pending, a: seq<seq<Byte>>, b: seq<seq<Byte>>)
    ensures var first := FeedAll(p, a);
            var second := FeedAll(first.pending, b);
            FeedAll(p, a + b) == if Ends(first.out) then first else Fed(second.pending, first.out + second.out)
    decreases a
  {
    hide Unpack, Feed;
    if a == [] {
      assert a + b == b;
    } else {
      assert (a + b)[1..] == a[1..] + b;
      FeedAppend(Feed(p, Unpack(a[0])).pending, a[1..], b);
    }
  }

  // ---- One request ----

  /** What the other side gets of a request: all of it, unless its size is no C `int`. */
  function Outcome(r: Request): Delivery
    requires Packable(r)
  {
    if |r.msg| < TWO31 then Delivered(Some(r.addr), WireSession(r), r.msg, r.push)
    else Aborted(r.session)
  }

  function End(l: Large, session: nat, whole: seq<Byte>, n: nat): Delivery {
    if n >= TWO31 then Aborted(session)
    else if |whole| == n then Delivered(l.addr, session, whole, l.push)
    else Invalid(session)
  }

  /** The parts of a message finish what has been collected. */
  lemma {:induction false} PartsFeed(p: Pending, session: nat, l: Large, strs: seq<Item>, msg: seq<Byte>, n: nat)
    requires session < TWO32 && session in p && p[session] == l && l.items == [Size(n)] + strs && Strings(strs)
    ensures var whole := Joined(strs) + msg;
            FeedAll(p, Parts(session, msg)) == Fed(p - {session},
              [End(l, session, whole, n)])
    decreases |msg|
  {
    if |msg| <= MULTI_PART {
      PartUnpacks(session, true, msg);
      FinishIs(l, session, strs, msg, n);
      assert Parts(session, msg) == [PartOf(session, true, msg)];
      FeedSingle(p, PartOf(session, true, msg));
    } else {
      var data, rest := msg[..MULTI_PART], msg[MULTI_PART..];
      PartUnpacks(session, false, data);
      var l' := Append(l, Str(data));
      var p' := p[session := l'];
      var ps := Parts(session, msg);
      assert ps[0] == PartOf(session, false, data) && ps[1..] == Parts(session, rest);
      assert Feed(p, Unpack(ps[0])) == Fed(p', []);
      assert l'.items == [Size(n)] + (strs + [Str(data)]);
      PartsFeed(p', session, l', strs + [Str(data)], rest, n);
      JoinedNext(strs, data);
      assert Joined(strs) + data + rest == Joined(strs) + msg;
      assert p' - {session} == p - {session};
    }
  }

  lemma {:induction false} FinishIs(l: Large, session: nat, strs: seq<Item>, msg: seq<Byte>, n: nat)
    requires l.items == [Size(n)] + strs && Strings(strs)
    ensures var whole := Joined(strs) + msg;
            Finish(Append(l, Str(msg)), session) == End(l, session, whole, n)
  {
    var items := Append(l, Str(msg)).items;
    assert items[0] == Size(n) && items[1..] == strs + [Str(msg)];
    JoinedNext(strs, msg);
  }

  lemma {:induction false} FeedSingle(p: Pending, s: seq<Byte>)
    ensures FeedAll(p, [s]) == Feed(p, Unpack(s))
  {
    assert [s][1..] == [];
  }

  /** The packages of one request, fed one after the other, come to the request. */
  lemma {:induction false} RequestArrives(p: Pending, r: Request)
    requires Packable(r) && WireSession(r) !in p
    ensures FeedAll(p, Packages(r)) == Fed(p, [Outcome(r)])
  {
    FirstUnpacks(r);
    FeedSingle(p, First(r));
    hide Unpack, First;
    if |r.msg| >= MULTI_PART {
      FeedAppend(p, [First(r)], Parts(r.session, r.msg));
      var l := Large(Some(r.addr), r.push, [Size(|r.msg|)]);
      var p' := p[r.session := l];
      assert Feed(p, Unpack(First(r))) == Fed(p', []) by {
        assert Append(Large(Some(r.addr), r.push, []), Size(|r.msg|)) == l;
      }
      assert l.items == [Size(|r.msg|)] + [];
      PartsFeed(p', r.session, l, [], r.msg, |r.msg|);
      assert p' - {r.session} == p;
      assert Joined([]) + r.msg == r.msg;
    }
  }

  // ---- Many requests ----

  ghost predicate AllOf(rs: seq<Request>, k: nat) {
    forall i :: 0 <= i < |rs| ==> Packable(rs[i]) && WireSession(rs[i]) == k
  }

  ghost function PackagesAll(rs: seq<Request>, k: nat): seq<seq<Byte>>
    requires AllOf(rs, k)
  {
    if rs == [] then [] else Packages(rs[0]) + PackagesAll(rs[1..], k)
  }

  ghost function Outcomes(rs: seq<Request>, k: nat): seq<Delivery>
    requires AllOf(rs, k)
  {
    if rs == [] then [] else [Outcome(rs[0])] + Outcomes(rs[1..], k)
  }

  /** Every message can be counted by a C `int`. */
  ghost predicate Countable(rs: seq<Request>) {
    forall i :: 0 <= i < |rs| ==> |rs[i].msg| < TWO31
  }

  lemma {:induction false} RequestsArrive(rs: seq<Request>, k: nat)
    requires AllOf(rs, k) && Countable(rs)
    ensures FeedAll(map[], PackagesAll(rs, k)) == Fed(map[], Outcomes(rs, k))
  {
    if rs != [] {
      RequestArrives(map[], rs[0]);
      RequestsArrive(rs[1..], k);
      FeedAppend(map[], Packages(rs[0]), PackagesAll(rs[1..], k));
      hide Packages, Outcome;
    }
  }

  // ---- Sessions do not disturb each other ----

  function SessionOf(u: Unpacked): int {
    match u
    case Trace(_) => -1
    case Bad => -1
    case Small(_, session, _, _) => session
    case Begin(_, session, _, _) => session
    case Part(session, _, _) => session
  }

  function PackagesOf(ps: seq<seq<Byte>>, k: nat): seq<seq<Byte>> {
    if ps == [] then []
    else if SessionOf(Unpack(ps[0])) == k then [ps[0]] + PackagesOf(ps[1..], k)
    else PackagesOf(ps[1..], k)
  }

  function DeliveriesOf(out: seq<Delivery>, k: nat): seq<Delivery> {
    if out == [] then []
    else if out[0].session == k then [out[0]] + DeliveriesOf(out[1..], k)
    else DeliveriesOf(out[1..], k)
  }

  function Mine(p: Pending, k: nat): Pending {
    if k in p then map[k := p[k]] else map[]
  }

  // ---- A receiver that goes on ----

  ghost predicate SmallSizes(p: Pending) {
    forall s :: s in p ==> SmallItems(p[s].items)
  }

  ghost predicate SmallItems(items: seq<Item>) {
    forall i :: 0 <= i < |items| && items[i].Size? ==> items[i].n < TWO31
  }

  /** No package announces a size that is no C `int`. */
  ghost predicate Countables(ps: seq<seq<Byte>>) {
    forall i :: 0 <= i < |ps| ==> Announces(Unpack(ps[i]))
  }

  predicate Announces(u: Unpacked) {
    u.Begin? ==> u.size < TWO31
  }

  /** Then the program does not end. */
  lemma {:induction false} FeedGoesOn(p: Pending, u: Unpacked)
    requires SmallSizes(p) && Announces(u)
    ensures SmallSizes(Feed(p, u).pending) && !Ends(Feed(p, u).out)
  {
    hide Joined;
  }

  lemma {:induction false} FeedMine(p: Pending, u: Unpacked, k: nat)
    ensures var all := Feed(p, u);
            var mine := if SessionOf(u) == k then Feed(Mine(p, k), u) else Fed(Mine(p, k), []);
            Mine(all.pending, k) == mine.pending && DeliveriesOf(all.out, k) == mine.out
  {
    hide Concat;
    var all := Feed(p, u);
    assert |all.out| <= 1 && forall i :: 0 <= i < |all.out| ==> all.out[i].session == SessionOf(u);
    assert |all.out| == 1 ==> all.out[1..] == [] && all.out == [all.out[0]];
  }

  lemma {:induction false} DeliveriesAppend(a: seq<Delivery>, b: seq<Delivery>, k: nat)
    ensures DeliveriesOf(a + b, k) == DeliveriesOf(a, k) + DeliveriesOf(b, k)
  {
    if a == [] {
      assert a + b == b;
    } else {
      assert (a + b)[1..] == a[1..] + b;
      DeliveriesAppend(a[1..], b, k);
    }
  }

  /** Feeding everything and looking at one session is feeding that session alone. */
  lemma {:induction false} SessionsIndependent(p: Pending, ps: seq<seq<Byte>>, k: nat)
    requires SmallSizes(p) && Countables(ps)
    ensures DeliveriesOf(FeedAll(p, ps).out, k) == FeedAll(Mine(p, k), PackagesOf(ps, k)).out
    ensures Mine(FeedAll(p, ps).pending, k) == FeedAll(Mine(p, k), PackagesOf(ps, k)).pending
    decreases ps
  {
    if ps != [] {
      var u := Unpack(ps[0]);
      assert Announces(u) && Countables(ps[1..]);
      FeedGoesOn(p, u);
      FeedGoesOn(Mine(p, k), u);
      hide Unpack, Feed, Announces, SmallSizes, Countables;
      var one := Feed(p, u);
      FeedMine(p, u, k);
      SessionsIndependent(one.pending, ps[1..], k);
      DeliveriesAppend(one.out, FeedAll(one.pending, ps[1..]).out, k);
      hide DeliveriesOf, Mine;
      if SessionOf(u) == k {
        assert PackagesOf(ps, k)[0] == ps[0] && PackagesOf(ps, k)[1..] == PackagesOf(ps[1..], k);
      }
    }
  }

  lemma {:induction false} PackagesOfIn(ps: seq<seq<Byte>>, k: nat, x: seq<Byte>)
    requires x in PackagesOf(ps, k)
    ensures x in ps
  {
    hide Unpack;
    if x != ps[0] { PackagesOfIn(ps[1..], k, x); }
  }

  lemma {:induction false} FirstIn(rs: seq<Request>, k: nat, i: nat)
    requires AllOf(rs, k) && i < |rs|
    ensures First(rs[i]) in PackagesAll(rs, k)
  {
    hide First;
    if i > 0 {
      FirstIn(rs[1..], k, i - 1);
    } else {
      assert Packages(rs[0])[0] == First(rs[0]);
      assert PackagesAll(rs, k)[0] == First(rs[0]);
    }
  }

  /** A request that is too large would have announced its size. */
  lemma {:induction false} CountableFrom(ps: seq<seq<Byte>>, rs: seq<Request>, k: nat)
    requires AllOf(rs, k) && PackagesOf(ps, k) == PackagesAll(rs, k) && Countables(ps)
    ensures Countable(rs)
  {
    forall i | 0 <= i < |rs| ensures |rs[i].msg| < TWO31 {
      FirstIn(rs, k, i);
      PackagesOfIn(ps, k, First(rs[i]));
      FirstUnpacks(rs[i]);
      hide First, Unpack;
      assert Announces(Unpack(First(rs[i])));
    }
  }

  /** However the packages of different sessions interleave, every session gets its own requests, in
      order and whole, as long as nobody announces a size that ends the receiver. */
  lemma {:induction false} EveryRequestArrives(ps: seq<seq<Byte>>, rs: seq<Request>, k: nat)
    requires AllOf(rs, k) && PackagesOf(ps, k) == PackagesAll(rs, k) && Countables(ps)
    ensures DeliveriesOf(FeedAll(map[], ps).out, k) == Outcomes(rs, k)
  {
    SessionsIndependent(map[], ps, k);
    CountableFrom(ps, rs, k);
    RequestsArrive(rs, k);
  }

  /** From the sender's packages through any chunks of the byte stream to what is delivered. */
  lemma {:induction false} EndToEnd(events: seq<NetFilter.Event>, fd: NetPack.Fd, ps: seq<seq<Byte>>, rs: seq<Request>, k: nat)
    requires forall i :: 0 <= i < |ps| ==> |ps[i]| < 0x1_0000
    requires NetFilter.BytesOf(events, fd) == Wire(ps) && forall i :: 0 <= i < |events| ==> events[i] != NetFilter.Close(fd)
    requires AllOf(rs, k) && PackagesOf(ps, k) == PackagesAll(rs, k) && Countables(ps)
    ensures DeliveriesOf(FeedAll(map[], NetFilter.Stream(events, fd).packages).out, k) == Outcomes(rs, k)
  {
    NetFilter.ChunksDoNotMatter(events, fd);
    WireSplits(ps);
    EveryRequestArrives(ps, rs, k);
  }

  /** A request arrives as it was sent if and only if its size is a C `int`. */
  lemma {:induction false} ArrivesExactly(r: Request)
    requires Packable(r)
    ensures FeedAll(map[], Packages(r)).out == [Delivered(Some(r.addr), WireSession(r), r.msg, r.push)] <==> |r.msg| < TWO31
  {
    RequestArrives(map[], r);
    hide FeedAll, Packages;
  }
}
