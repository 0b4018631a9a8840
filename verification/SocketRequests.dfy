/**
 What becomes of every call and request in a run of one TCP socket (socket_server.c): a call that is
 accepted is handed over exactly once, and the pipe is a queue.
 */
module SocketRequests {

  import opened Wrappers
  import opened SocketServer
  import opened SocketHistory

  // ---- Calls ----

  /** A call that `socket_server_send` or its low-priority form does not refuse. */
  predicate Accepts(st: State, a: Action, t: Tid) {
    Begins(a, t) && t in st.senders && !st.kind.Invalid? && !(a.BeginHigh? && st.closing)
  }

  function ItemOf(a: Action): Item
    requires a.BeginHigh? || a.BeginLow?
  {
    Item(if a.BeginHigh? then High else Low, a.data)
  }

  function Held(st: State, t: Tid): seq<Item> {
    if t in st.senders && InHand(st.senders[t]).Some? then [InHand(st.senders[t]).value] else []
  }

  ghost predicate Keeps(st: State, a: Action, st': State)
    requires Sender(st, a)
  {
    if a.BeginHigh? || a.BeginLow?
    then Held(st, a.t) == [] && Held(st', a.t) == if Accepts(st, a, a.t) then [ItemOf(a)] else []
    else if a.WriteDirect? || a.SendRequest? then Held(st, a.t) != [] && Held(st', a.t) == []
    else Held(st', a.t) == Held(st, a.t)
  }

  lemma {:induction false} LookKeeps(st: State, a: Action)
    requires Enabled(st, a) && Sender(st, a) && Looks(a)
    ensures Keeps(st, a, Step(st, a))
  {
    hide SendBuffer, FreeLists, Shut, Append, TakeDirect, Cells, HoldsLock;
  }

  lemma {:induction false} CallKeeps(st: State, a: Action)
    requires Enabled(st, a) && Sender(st, a) && !Looks(a)
    ensures Keeps(st, a, Step(st, a))
  {
    hide SendBuffer, FreeLists, Shut, Append, TakeDirect, Cells, HoldsLock;
  }

  /** A sender takes up what it is called with, keeps it, and gives it away only by handing it over. */
  lemma {:induction false} SenderKeeps(st: State, a: Action)
    requires Enabled(st, a) && Sender(st, a)
    ensures var st' := Step(st, a);
            if Begins(a, a.t) then Held(st, a.t) == [] && Held(st', a.t) == if Accepts(st, a, a.t) then [ItemOf(a)] else []
            else if HandsOver(a, a.t) then Held(st, a.t) != [] && Held(st', a.t) == []
            else Held(st', a.t) == Held(st, a.t)
  {
    hide Step, Enabled, Held, Accepts;
    if Looks(a) { LookKeeps(st, a); } else { CallKeeps(st, a); }
  }

  lemma {:induction false} OthersKeep(st: State, a: Action, t: Tid)
    requires Enabled(st, a) && !(Sender(st, a) && a.t == t)
    ensures Held(Step(st, a), t) == Held(st, t) && !HandsOver(a, t) && !Accepts(st, a, t)
  {
    assert HandsOver(a, t) || Begins(a, t) ==> Sender(st, a);
    if Sender(st, a) { SenderInHand(st, a); } else { SocketLeavesSenders(st, a); }
    hide Step, Enabled, InHand;
  }

  /** What thread `t` called with, of the calls that were accepted. */
  ghost function Accepted(run: seq<State>, acts: seq<Action>, i: nat, t: Tid): seq<Item>
    requires |run| == |acts| + 1 && i <= |acts|
  {
    if i == 0 then []
    else if Accepts(run[i - 1], acts[i - 1], t) then Accepted(run, acts, i - 1, t) + [ItemOf(acts[i - 1])]
    else Accepted(run, acts, i - 1, t)
  }

  /** In every interleaving every accepted call is handed over once and in order, except the one in hand. */
  lemma {:induction false} AcceptedAreHanded(run: seq<State>, acts: seq<Action>, i: nat, t: Tid)
    requires Execution(run, acts) && i < |run|
    ensures Accepted(run, acts, i, t) == Handed(acts[..i], t) + Held(run[i], t)
  {
    hide Step, Enabled;
    if i > 0 {
      AcceptedAreHanded(run, acts, i - 1, t);
      var st, a := run[i - 1], acts[i - 1];
      Prefix(acts, i - 1);
      if Sender(st, a) && a.t == t {
        SenderKeeps(st, a);
        if Held(st, t) != [] { ItemTold(run, acts, i - 1, t); }
      } else {
        OthersKeep(st, a, t);
      }
      hide Sender, Accepts, InHand, LastItem;
    }
  }

  // ---- The pipe ----

  /** The request a step writes to the pipe. */
  function Puts(st: State, a: Action): Option<Request> {
    if a.Control? then Some(a.r)
    else if a.SendTrigger? then Some(Trigger)
    else if a.SendRequest? && Held(st, a.t) != [] then
      var item := Held(st, a.t)[0];
      Some(Send(Package(a.t, item.priority, |st.issued|, item.data)))
    else None
  }

  predicate Takes(a: Action) {
    a.TakeSend? || a.TakeTrigger? || a.TakeClose? || a.TakeResume? || a.TakePause?
  }

  ghost predicate Pipes(st: State, a: Action, pipe: seq<Request>) {
    if Takes(a) then st.pipe != [] && Puts(st, a).None? && pipe == st.pipe[1..]
    else pipe == if Puts(st, a).Some? then st.pipe + [Puts(st, a).value] else st.pipe
  }

  lemma {:induction false} SenderPipes(st: State, a: Action)
    requires Enabled(st, a) && (Sender(st, a) || a.Control?)
    ensures Pipes(st, a, Step(st, a).pipe)
  {
    hide SendBuffer, FreeLists, Shut, Append, TakeDirect, Cells, HoldsLock;
  }

  lemma {:induction false} ClosePipes(st: State, a: Action)
    requires Enabled(st, a) && a.TakeClose?
    ensures Pipes(st, a, Step(st, a).pipe)
  {
    assert st.pipe != [];
    FreeLeavesPipe(st.(pipe := st.pipe[1..]));
    hide SendBuffer, FreeLists, Shut, Append, TakeDirect, Cells, HoldsLock, Held, MayBeIdle;
  }

  lemma {:induction false} TakePipes(st: State, a: Action)
    requires Enabled(st, a) && Takes(a) && !a.TakeClose?
    ensures Pipes(st, a, Step(st, a).pipe)
  {
    assert st.pipe != [];
    hide SendBuffer, FreeLists, Shut, Append, TakeDirect, Cells, HoldsLock, Held, MayBeIdle;
  }

  lemma {:induction false} FreeLeavesPipe(st: State)
    ensures FreeLists(st).pipe == st.pipe
  {
  }

  lemma {:induction false} EventPipes(st: State, a: Action)
    requires Enabled(st, a) && !Sender(st, a) && !a.Control? && !Takes(a)
    ensures Pipes(st, a, Step(st, a).pipe)
  {
    if a.WriteReady? {
      hide SendBuffer;
      WritePipe(TakeDirect(st), a.hs, a.ls);
    } else {
      hide SendBuffer, TakeDirect, Append, Cells, HoldsLock, Pkgs;
    }
  }

  lemma {:induction false} PipeStep(st: State, a: Action)
    requires Enabled(st, a)
    ensures Pipes(st, a, Step(st, a).pipe)
  {
    hide Step, Enabled, Pipes;
    if Sender(st, a) || a.Control? {
      SenderPipes(st, a);
    } else if a.TakeClose? {
      ClosePipes(st, a);
    } else if Takes(a) {
      TakePipes(st, a);
    } else {
      EventPipes(st, a);
    }
  }

  lemma {:induction false} WritePipe(st: State, hs: seq<Outcome>, ls: seq<Outcome>)
    requires Writable(st.high) && Writable(st.low)
    ensures SendBuffer(st, hs, ls).pipe == st.pipe
  {
    hide SendList, Pkgs;
  }

  ghost function AllPut(run: seq<State>, acts: seq<Action>, i: nat): seq<Request>
    requires |run| == |acts| + 1 && i <= |acts|
  {
    if i == 0 then []
    else
      var p := Puts(run[i - 1], acts[i - 1]);
      if p.Some? then AllPut(run, acts, i - 1) + [p.value] else AllPut(run, acts, i - 1)
  }

  function TakesOf(acts: seq<Action>, i: nat): nat
    requires i <= |acts|
  {
    if i == 0 then 0 else TakesOf(acts, i - 1) + if Takes(acts[i - 1]) then 1 else 0
  }

  /** In every interleaving requests are taken in the order in which they were written, and none is lost:
      the pipe is what was written without as many as were taken. */
  lemma {:induction false} PipeIsQueue(run: seq<State>, acts: seq<Action>, i: nat)
    requires Execution(run, acts) && i < |run|
    ensures TakesOf(acts, i) <= |AllPut(run, acts, i)|
    ensures run[i].pipe == AllPut(run, acts, i)[TakesOf(acts, i)..]
  {
    hide Step, Enabled, Puts, Takes;
    if i > 0 {
      PipeIsQueue(run, acts, i - 1);
      PipeStep(run[i - 1], acts[i - 1]);
    }
  }

  // ---- Getting through ----

  /** The actions lead from one state to the other. */
  ghost predicate Leads(st: State, acts: seq<Action>, last: State)
    decreases |acts|
  {
    if acts == [] then st == last else Enabled(st, acts[0]) && Leads(Step(st, acts[0]), acts[1..], last)
  }

  lemma {:induction false} LeadsFirst(st: State, a: Action, acts: seq<Action>, last: State)
    requires Enabled(st, a) && Leads(Step(st, a), acts, last)
    ensures Leads(st, [a] + acts, last)
  {
    hide Step, Enabled;
    assert ([a] + acts)[1..] == acts;
  }

  lemma {:induction false} LeadsNone(st: State)
    ensures Leads(st, [], st)
  {
  }

  /** A call that finds requests on their way goes to the pipe, */
  lemma {:induction false} QueuesHigh(st: State, t: Tid, data: seq<nat>) returns (acts: seq<Action>, last: State)
    requires t in st.senders && st.senders[t].Out? && !st.kind.Invalid? && !st.closing
    ensures acts == [BeginHigh(t, data), CheckFirst(t, false)] && Leads(st, acts, last)
    ensures last == st.(senders := st.senders[t := Queueing(High, data)])
  {
    hide Leads, SendBuffer, FreeLists, Shut, Append, TakeDirect, Cells, HoldsLock;
    var s1 := Step(st, BeginHigh(t, data));
    assert s1.senders[t] == First(data);
    last := Step(s1, CheckFirst(t, false));
    hide Step, Enabled;
    LeadsNone(last);
    acts := [];
    LeadsFirst(s1, CheckFirst(t, false), acts, last);
    acts := [CheckFirst(t, false)] + acts;
    LeadsFirst(st, BeginHigh(t, data), acts, last);
    acts := [BeginHigh(t, data)] + acts;
  }

  /** and so does every one of low priority. */
  lemma {:induction false} QueuesLow(st: State, t: Tid, data: seq<nat>) returns (acts: seq<Action>, last: State)
    requires t in st.senders && st.senders[t].Out? && !st.kind.Invalid?
    ensures acts == [BeginLow(t, data)] && Leads(st, acts, last)
    ensures last == st.(senders := st.senders[t := Queueing(Low, data)])
  {
    hide Leads, SendBuffer, FreeLists, Shut, Append, TakeDirect, Cells, HoldsLock;
    last := Step(st, BeginLow(t, data));
    hide Step, Enabled;
    LeadsNone(last);
    acts := [];
    LeadsFirst(st, BeginLow(t, data), acts, last);
    acts := [BeginLow(t, data)] + acts;
  }

  /** There its package is written, and counted. */
  lemma {:induction false} Sends(st: State, t: Tid) returns (acts: seq<Action>, last: State)
    requires t in st.senders && st.senders[t].Queueing? && st.sending < 0xFFFF
    ensures acts == [IncSending(t), SendRequest(t)] && Leads(st, acts, last)
    ensures var p := Package(t, st.senders[t].priority, |st.issued|, st.senders[t].data);
            last == st.(sending := st.sending + 1, issued := st.issued + [p], pipe := st.pipe + [Send(p)], senders := st.senders[t := Out])
  {
    hide Leads, SendBuffer, FreeLists, Shut, Append, TakeDirect, Cells, HoldsLock;
    var s1 := Step(st, IncSending(t));
    assert s1.senders[t] == Piping(st.senders[t].priority, st.senders[t].data);
    last := Step(s1, SendRequest(t));
    hide Step, Enabled;
    LeadsNone(last);
    acts := [];
    LeadsFirst(s1, SendRequest(t), acts, last);
    acts := [SendRequest(t)] + acts;
    LeadsFirst(st, IncSending(t), acts, last);
    acts := [IncSending(t)] + acts;
  }

  /** A call that finds none gets the lock if it is free. */
  lemma {:induction false} Locks(st: State, t: Tid, data: seq<nat>) returns (acts: seq<Action>, last: State)
    requires t in st.senders && st.senders[t].Out? && !st.kind.Invalid? && !st.closing && st.sending == 0 && st.lock.None?
    ensures acts == [BeginHigh(t, data), CheckFirst(t, true), TryLock(t, true)] && Leads(st, acts, last)
    ensures last == st.(lock := Some(t), senders := st.senders[t := Locked(data)])
  {
    hide Leads, SendBuffer, FreeLists, Shut, Append, TakeDirect, Cells, HoldsLock;
    var s1 := Step(st, BeginHigh(t, data));
    assert s1.senders[t] == First(data);
    var s2 := Step(s1, CheckFirst(t, true));
    assert s2.senders[t] == Passed(data);
    last := Step(s2, TryLock(t, true));
    hide Step, Enabled;
    LeadsNone(last);
    acts := [];
    LeadsFirst(s2, TryLock(t, true), acts, last);
    acts := [TryLock(t, true)] + acts;
    LeadsFirst(s1, CheckFirst(t, true), acts, last);
    acts := [CheckFirst(t, true)] + acts;
    LeadsFirst(st, BeginHigh(t, data), acts, last);
    acts := [BeginHigh(t, data)] + acts;
  }

  /** If it is not, it goes to the pipe too. */
  lemma {:induction false} FindsBusy(st: State, t: Tid) returns (acts: seq<Action>, last: State)
    requires t in st.senders && st.senders[t].Passed?
    ensures acts == [TryLock(t, false)] && Leads(st, acts, last)
    ensures last == st.(senders := st.senders[t := Queueing(High, st.senders[t].data)])
  {
    hide Leads, SendBuffer, FreeLists, Shut, Append, TakeDirect, Cells, HoldsLock;
    last := Step(st, TryLock(t, false));
    hide Step, Enabled;
    LeadsNone(last);
    acts := [];
    LeadsFirst(st, TryLock(t, false), acts, last);
    acts := [TryLock(t, false)] + acts;
  }

  /** Under the lock it finds that nothing waits, */
  lemma {:induction false} FindsIdle(st: State, t: Tid) returns (acts: seq<Action>, last: State)
    requires t in st.senders && st.senders[t].Locked? && st.high == [] && st.low == [] && st.dw.None?
    ensures acts == [ReadHigh(t), ReadLow(t), ReadDirect(t)] && Leads(st, acts, last)
    ensures last == st.(senders := st.senders[t := SawNoDirect(st.senders[t].data)])
  {
    hide Leads, SendBuffer, FreeLists, Shut, Append, TakeDirect, Cells, HoldsLock;
    var s1 := Step(st, ReadHigh(t));
    assert s1.senders[t] == SawHigh(st.senders[t].data);
    var s2 := Step(s1, ReadLow(t));
    assert s2.senders[t] == SawEmpty(st.senders[t].data);
    last := Step(s2, ReadDirect(t));
    hide Step, Enabled;
    LeadsNone(last);
    acts := [];
    LeadsFirst(s2, ReadDirect(t), acts, last);
    acts := [ReadDirect(t)] + acts;
    LeadsFirst(s1, ReadLow(t), acts, last);
    acts := [ReadLow(t)] + acts;
    LeadsFirst(st, ReadHigh(t), acts, last);
    acts := [ReadHigh(t)] + acts;
  }

  /** not even on its way, and that the socket is connected. */
  lemma {:induction false} GoesDirect(st: State, t: Tid) returns (acts: seq<Action>, last: State)
    requires t in st.senders && st.senders[t].SawNoDirect? && st.sending == 0 && st.kind.Connected?
    ensures acts == [ReadSending(t), ReadType(t)] && Leads(st, acts, last)
    ensures last == st.(senders := st.senders[t := Direct(st.senders[t].data)])
  {
    hide Leads, SendBuffer, FreeLists, Shut, Append, TakeDirect, Cells, HoldsLock;
    var s1 := Step(st, ReadSending(t));
    assert s1.senders[t] == SawIdle(st.senders[t].data);
    last := Step(s1, ReadType(t));
    hide Step, Enabled;
    LeadsNone(last);
    acts := [];
    LeadsFirst(s1, ReadType(t), acts, last);
    acts := [ReadType(t)] + acts;
    LeadsFirst(st, ReadSending(t), acts, last);
    acts := [ReadSending(t)] + acts;
  }

  /** Then what `write` takes is on the wire at once, and the lock is free again. */
  lemma {:induction false} WritesThrough(st: State, t: Tid, n: nat)
    requires t in st.senders && st.senders[t].Direct? && n <= |st.senders[t].data|
    ensures Enabled(st, WriteDirect(t, n))
    ensures var p, st' := Package(t, High, |st.issued|, st.senders[t].data), Step(st, WriteDirect(t, n));
            && st'.wire == st.wire + Cells(p, 0, n) && st'.issued == st.issued + [p] && st'.lock.None?
            && (if n == |p.data| then st'.done == st.done + [p] && st'.dw == st.dw
                else st'.done == st.done && st'.dw == Some(WriteBuffer(p, n)))
  {
    hide SendBuffer, FreeLists, Shut, Append, TakeDirect, Cells, HoldsLock;
  }
}
