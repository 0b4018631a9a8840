/**
 What happened in a run of one TCP socket (socket_server.c), read off its actions alone: what senders
 handed over, what was refused, what was read. The states agree with it.
 */
module SocketHistory {

  import opened Wrappers
  import opened SocketServer
  import opened SocketSend

  datatype Item = Item(priority: Priority, data: seq<nat>)

  /** What thread `t` last set out to send. */
  function LastItem(acts: seq<Action>, t: Tid): Option<Item> {
    if acts == [] then None
    else
      var a := acts[|acts| - 1];
      if a.BeginHigh? && a.t == t then Some(Item(High, a.data))
      else if a.BeginLow? && a.t == t then Some(Item(Low, a.data))
      else LastItem(acts[..|acts| - 1], t)
  }

  /** The step with which a thread hands its package over: written directly or sent through the pipe. */
  predicate HandsOver(a: Action, t: Tid) {
    (a.WriteDirect? || a.SendRequest?) && a.t == t
  }

  /** What thread `t` handed over, in order. */
  function Handed(acts: seq<Action>, t: Tid): seq<Item> {
    if acts == [] then []
    else
      var before, a := acts[..|acts| - 1], acts[|acts| - 1];
      if HandsOver(a, t) && LastItem(before, t).Some? then Handed(before, t) + [LastItem(before, t).value]
      else Handed(before, t)
  }

  /** The packages of `t` among those issued. */
  function OwnedBy(issued: seq<Package>, t: Tid): seq<Item> {
    if issued == [] then []
    else
      var p := issued[|issued| - 1];
      if p.owner == t then OwnedBy(issued[..|issued| - 1], t) + [Item(p.priority, p.data)]
      else OwnedBy(issued[..|issued| - 1], t)
  }

  /** What a sender has in hand. */
  function InHand(pc: Pc): Option<Item> {
    match pc
    case Out => None
    case Triggering => None
    case Queueing(pr, d) => Some(Item(pr, d))
    case Piping(pr, d) => Some(Item(pr, d))
    case _ => Some(Item(High, pc.data))
  }

  // ---- One step ----

  predicate Begins(a: Action, t: Tid) {
    (a.BeginHigh? || a.BeginLow?) && a.t == t
  }

  lemma {:induction false} SocketLeavesSenders(st: State, a: Action)
    requires Enabled(st, a) && !Sender(st, a)
    ensures Step(st, a).senders == st.senders && Step(st, a).issued == st.issued
  {
    if a.WriteReady? {
      WriteLeavesSenders(st, a);
    } else {
      hide SendBuffer, Cells, HoldsLock, Pkgs, TakeDirect, Shut;
      assert a.FinishClose? ==> Shut(st).senders == st.senders && Shut(st).issued == st.issued by { ShutSenders(st); }
    }
  }

  lemma {:induction false} ShutSenders(st: State)
    ensures Shut(st).senders == st.senders && Shut(st).issued == st.issued
  {
  }

  lemma {:induction false} WriteLeavesSenders(st: State, a: Action)
    requires Enabled(st, a) && a.WriteReady?
    ensures Step(st, a).senders == st.senders && Step(st, a).issued == st.issued
  {
    hide SendBuffer, Pkgs;
    SendBufferPc(TakeDirect(st), a.hs, a.ls);
  }

  /** The steps of a sender under the lock, up to its decision. */
  predicate Looks(a: Action) {
    a.ReadHigh? || a.ReadLow? || a.ReadDirect? || a.ReadSending? || a.ReadHalf? || a.ReadType?
  }

  /** What a step of a sender does to what it has in hand. */
  ghost predicate Carries(st: State, a: Action, senders: map<Tid, Pc>)
    requires Sender(st, a)
  {
    && a.t in senders && senders == st.senders[a.t := senders[a.t]]
    && (InHand(senders[a.t]).Some? ==>
          if a.BeginHigh? then InHand(senders[a.t]) == Some(Item(High, a.data))
          else if a.BeginLow? then InHand(senders[a.t]) == Some(Item(Low, a.data))
          else InHand(st.senders[a.t]) == InHand(senders[a.t]))
  }

  lemma {:induction false} LookInHand(st: State, a: Action)
    requires Enabled(st, a) && Sender(st, a) && Looks(a)
    ensures Carries(st, a, Step(st, a).senders)
  {
    hide SendBuffer, FreeLists, Shut, Append, TakeDirect, Cells, HoldsLock;
  }

  lemma {:induction false} OtherInHand(st: State, a: Action)
    requires Enabled(st, a) && Sender(st, a) && !Looks(a)
    ensures Carries(st, a, Step(st, a).senders)
  {
    hide SendBuffer, FreeLists, Shut, Append, TakeDirect, Cells, HoldsLock;
  }

  lemma {:induction false} SenderInHand(st: State, a: Action)
    requires Enabled(st, a) && Sender(st, a)
    ensures var senders := Step(st, a).senders;
            && a.t in senders && senders == st.senders[a.t := senders[a.t]]
            && (InHand(senders[a.t]).Some? ==>
                  if Begins(a, a.t) then InHand(senders[a.t]) == Some(Item(if a.BeginHigh? then High else Low, a.data))
                  else InHand(st.senders[a.t]) == InHand(senders[a.t]))
  {
    hide Step, Enabled, InHand;
    if Looks(a) { LookInHand(st, a); } else { OtherInHand(st, a); }
  }

  lemma {:induction false} StepInHand(st: State, a: Action, t: Tid)
    requires Enabled(st, a) && t in Step(st, a).senders && InHand(Step(st, a).senders[t]).Some?
    ensures var item := InHand(Step(st, a).senders[t]);
            if Begins(a, t) then item == Some(Item(if a.BeginHigh? then High else Low, a.data))
            else t in st.senders && InHand(st.senders[t]) == item
  {
    assert Begins(a, t) ==> Sender(st, a);
    if Sender(st, a) { SenderInHand(st, a); } else { SocketLeavesSenders(st, a); }
    hide Step, Enabled, InHand;
  }

  lemma {:induction false} StepIssued(st: State, a: Action)
    requires Enabled(st, a)
    ensures if a.WriteDirect? || a.SendRequest?
            then a.t in st.senders && InHand(st.senders[a.t]).Some?
                 && var item := InHand(st.senders[a.t]).value;
                    Step(st, a).issued == st.issued + [Package(a.t, item.priority, |st.issued|, item.data)]
            else Step(st, a).issued == st.issued
  {
    if Sender(st, a) {
      hide SendBuffer, FreeLists, Shut, Append, TakeDirect, Cells, HoldsLock;
    } else {
      SocketLeavesSenders(st, a);
      assert !a.WriteDirect? && !a.SendRequest?;
      hide Step;
    }
  }

  // ---- Runs ----

  lemma {:induction false} Prefix(acts: seq<Action>, i: nat)
    requires i < |acts|
    ensures acts[..i + 1][..i] == acts[..i] && acts[..i + 1][i] == acts[i]
  {
  }

  lemma {:induction false} ItemTold(run: seq<State>, acts: seq<Action>, i: nat, t: Tid)
    requires Execution(run, acts) && i < |run| && t in run[i].senders && InHand(run[i].senders[t]).Some?
    ensures LastItem(acts[..i], t) == InHand(run[i].senders[t])
  {
    hide Step, Enabled;
    if i > 0 {
      StepInHand(run[i - 1], acts[i - 1], t);
      Prefix(acts, i - 1);
      if !Begins(acts[i - 1], t) { ItemTold(run, acts, i - 1, t); }
    }
  }

  lemma {:induction false} OwnedNext(issued: seq<Package>, p: Package, t: Tid)
    ensures OwnedBy(issued + [p], t) == if p.owner == t then OwnedBy(issued, t) + [Item(p.priority, p.data)] else OwnedBy(issued, t)
  {
    assert (issued + [p])[..|issued|] == issued;
  }

  /** In every interleaving the packages issued for a thread are exactly the data and priority it called
      with, in the order in which it handed them over. */
  lemma {:induction false} IssuedIsHanded(run: seq<State>, acts: seq<Action>, i: nat, t: Tid)
    requires Execution(run, acts) && i < |run|
    ensures OwnedBy(run[i].issued, t) == Handed(acts[..i], t)
  {
    hide Step, Enabled;
    if i > 0 {
      IssuedIsHanded(run, acts, i - 1, t);
      var st, a := run[i - 1], acts[i - 1];
      StepIssued(st, a);
      Prefix(acts, i - 1);
      if a.WriteDirect? || a.SendRequest? {
        ItemTold(run, acts, i - 1, a.t);
        var item := InHand(st.senders[a.t]).value;
        OwnedNext(st.issued, Package(a.t, item.priority, |st.issued|, item.data), t);
      }
    }
  }

  // ---- What is refused ----

  /** `send_socket` frees a package instead of queueing it. */
  predicate Refuses(st: State) {
    st.kind.Invalid? || st.kind.HalfWrite? || st.kind.PAccept? || st.closing
  }

  lemma {:induction false} SendersDropNothing(st: State, a: Action)
    requires Enabled(st, a) && Sender(st, a)
    ensures Step(st, a).dropped == st.dropped
  {
    hide SendBuffer, FreeLists, Shut, Append, TakeDirect, Cells, HoldsLock;
  }

  lemma {:induction false} EventsDrop(st: State, a: Action)
    requires Enabled(st, a) && !Sender(st, a) && !a.WriteReady? && !a.TakeSend? && !a.FinishClose? && Step(st, a).dropped != st.dropped
    ensures Tears(st, a)
  {
    hide SendBuffer, Shut, Append, TakeDirect, Cells, HoldsLock, Pkgs;
  }

  /** A package is dropped only by a socket that refuses it when it is taken from the pipe, or when the
      socket closes. */
  lemma {:induction false} DroppedOnly(st: State, a: Action)
    requires Enabled(st, a) && Step(st, a).dropped != st.dropped
    ensures (a.TakeSend? && Refuses(st)) || Tears(st, a) || a.FinishClose? || (a.WriteReady? && Step(st, a).kind.Invalid?)
  {
    if a.WriteReady? {
      hide SendBuffer;
      WriteDrops(TakeDirect(st), a.hs, a.ls);
    } else if a.TakeSend? {
      hide SendBuffer, FreeLists, Shut, TakeDirect, Cells;
    } else if !a.FinishClose? {
      hide Step, Enabled, Tears;
      if Sender(st, a) { SendersDropNothing(st, a); } else { EventsDrop(st, a); }
    }
  }

  lemma {:induction false} WriteDrops(st: State, hs: seq<Outcome>, ls: seq<Outcome>)
    requires Writable(st.high) && Writable(st.low)
    ensures SendBuffer(st, hs, ls).dropped != st.dropped ==> SendBuffer(st, hs, ls).kind.Invalid?
  {
    hide SendList, Pkgs;
  }

  /** A package that is not refused goes to the end of the list of its priority, a low one to the high list
      when both are empty. */
  lemma {:induction false} TakenGoesTo(st: State, a: Action)
    requires Enabled(st, a) && a.TakeSend? && !Refuses(st)
    ensures var p, st' := st.pipe[0].pkg, Step(st, a);
            && st'.dropped == st.dropped
            && (p.priority.High? || (st.high == [] && st.low == []) ==> st'.high == st.high + [WriteBuffer(p, 0)] && st'.low == st.low)
            && (p.priority.Low? && (st.high != [] || st.low != []) ==> st'.low == st.low + [WriteBuffer(p, 0)] && st'.high == st.high)
  {
  }

  // ---- What writing out does ----

  /** Calls of `write` that each take all there is. */
  function FullWrites(list: seq<WriteBuffer>): seq<Outcome>
    requires Writable(list)
  {
    if list == [] then [] else [Wrote(list[0].Left())] + FullWrites(list[1..])
  }

  lemma {:induction false} FullWrite(list: seq<WriteBuffer>, ws: seq<Outcome>)
    requires Writable(list) && list != []
    ensures var r, rest := SendList(list, [Wrote(list[0].Left())] + ws), SendList(list[1..], ws);
            r.list == rest.list && r.failed == rest.failed && r.done == [list[0].pkg] + rest.done
  {
    assert ([Wrote(list[0].Left())] + ws)[1..] == ws;
  }

  /** The first `k` packages went out and the call after them stopped the rest: an error fails, and a short
      write, EAGAIN or an interruption leaves it for later. */
  ghost predicate StopsAt(list: seq<WriteBuffer>, k: nat, o: Outcome, r: SendResult)
    requires k < |list|
  {
    && r.done == Pkgs(list[..k]) && (r.failed <==> o.Failed?)
    && r.list == (if o.Wrote? then [list[k].(sent := list[k].sent + o.n)] + list[k + 1..] else list[k..])
  }

  lemma {:induction false} StopsNext(list: seq<WriteBuffer>, k: nat, o: Outcome, r: SendResult, rest: SendResult)
    requires 0 < k < |list| && StopsAt(list[1..], k - 1, o, rest)
    requires r.list == rest.list && r.failed == rest.failed && r.done == [list[0].pkg] + rest.done
    ensures StopsAt(list, k, o, r)
  {
    var tail := list[1..];
    PkgsCons(list[..k]);
    hide Pkgs;
    assert tail[k - 1] == list[k] && tail[k..] == list[k + 1..] && tail[k - 1..] == list[k..];
    assert list[..k][1..] == tail[..k - 1] && list[..k][0] == list[0];
  }

  /** After full writes of the first `k` packages, one more call decides. */
  lemma {:induction false} SendListStops(list: seq<WriteBuffer>, k: nat, o: Outcome)
    requires Writable(list) && k < |list| && (o.Wrote? ==> o.n < list[k].Left())
    ensures Writable(list[..k]) && StopsAt(list, k, o, SendList(list, FullWrites(list[..k]) + [o]))
    decreases k
  {
    WritablePrefix(list, k);
    if k == 0 {
      NoWrites(list[..0], o);
      OneCall(list, o);
      hide SendList, FullWrites;
      assert list[0..] == list && list[..0] == [];
    } else {
      var tail := list[1..];
      WritableTail(list);
      hide SendList, Writable, FullWrites, StopsAt;
      SendListStops(tail, k - 1, o);
      FullWritesCons(list, k, o);
      var ws := FullWrites(tail[..k - 1]) + [o];
      FullWrite(list, ws);
      StopsNext(list, k, o, SendList(list, FullWrites(list[..k]) + [o]), SendList(tail, ws));
    }
  }

  lemma {:induction false} NoWrites(list: seq<WriteBuffer>, o: Outcome)
    requires list == []
    ensures FullWrites(list) + [o] == [o] && Pkgs(list) == []
  {
  }

  lemma {:induction false} OneCall(list: seq<WriteBuffer>, o: Outcome)
    requires Writable(list) && list != [] && (o.Wrote? ==> o.n < list[0].Left())
    ensures var r := SendList(list, [o]);
            && r.done == [] && (r.failed <==> o.Failed?)
            && r.list == (if o.Wrote? then [list[0].(sent := list[0].sent + o.n)] + list[1..] else list)
  {
    assert [o][1..] == [];
  }

  lemma {:induction false} FullWritesCons(list: seq<WriteBuffer>, k: nat, o: Outcome)
    requires Writable(list) && 0 < k <= |list| && Writable(list[..k]) && Writable(list[1..][..k - 1])
    ensures FullWrites(list[..k]) + [o] == [Wrote(list[0].Left())] + (FullWrites(list[1..][..k - 1]) + [o])
  {
    assert list[..k][1..] == list[1..][..k - 1] && list[..k][0] == list[0];
    assert FullWrites(list[..k]) == [Wrote(list[0].Left())] + FullWrites(list[1..][..k - 1]);
  }

  lemma {:induction false} WritableTail(list: seq<WriteBuffer>)
    requires Writable(list) && list != []
    ensures Writable(list[1..])
  {
  }

  lemma {:induction false} WritablePrefix(list: seq<WriteBuffer>, k: nat)
    requires Writable(list) && k <= |list|
    ensures Writable(list[..k])
  {
  }

  /** A socket that takes everything empties the list. */
  lemma {:induction false} SendListAll(list: seq<WriteBuffer>)
    requires Writable(list)
    ensures var r := SendList(list, FullWrites(list));
            r.list == [] && r.done == Pkgs(list) && !r.failed
  {
    if list != [] {
      assert FullWrites(list)[1..] == FullWrites(list[1..]);
      SendListAll(list[1..]);
    }
  }
}
