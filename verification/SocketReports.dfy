/**
 What a TCP socket (socket_server.c) reports, not only at most but at least: data read on a readable
 socket, the end of a connection, errors of writing.
 */
module SocketReports {

  import opened Wrappers
  import opened SocketServer
  import opened SocketClose

  // ---- Data ----

  /** A read that got bytes on a socket whose end was not reported. */
  predicate Reads(st: State, a: Action) {
    a.ReadReady? && a.result.Got? && !st.kind.HalfRead?
  }

  ghost function DataReads(run: seq<State>, acts: seq<Action>, i: nat): nat
    requires |run| == |acts| + 1 && i <= |acts|
  {
    if i == 0 then 0 else DataReads(run, acts, i - 1) + if Reads(run[i - 1], acts[i - 1]) then 1 else 0
  }

  lemma {:induction false} CountNext(out: seq<Event>, x: Event, e: Event)
    ensures Count(out + [x], e) == Count(out, e) + if x == e then 1 else 0
  {
    assert (out + [x])[..|out|] == out;
  }

  /** At most one event more, data only for a read. */
  ghost predicate Adds(st: State, a: Action, out: seq<Event>) {
    && (out == st.out
        || (|out| == |st.out| + 1 && out == st.out + [out[|st.out|]]
            && (out[|st.out|].DataEvent? ==> Reads(st, a) || (st.sock.Tearing? && st.sock.event == Some(DataEvent)))))
    && (Reads(st, a) ==> out == st.out + [DataEvent])
  }

  predicate FromNetwork(a: Action) {
    a.ReadReady? || a.ErrorReady? || a.EofReady? || a.ConnectReady? || a.FinishClose?
  }

  lemma {:induction false} QuietClose(st: State)
    ensures FreeLists(st).out == st.out && Shut(st).out == st.out
  {
  }

  lemma {:induction false} NetworkOut(st: State, a: Action)
    requires Enabled(st, a) && FromNetwork(a)
    ensures Adds(st, a, Step(st, a).out)
  {
    QuietClose(st);
    hide SendBuffer, TakeDirect, Append, Cells, Pkgs, HoldsLock, FreeLists, Shut;
  }

  lemma {:induction false} PipeOut(st: State, a: Action)
    requires Enabled(st, a) && !Sender(st, a) && !a.WriteReady? && !FromNetwork(a)
    ensures Adds(st, a, Step(st, a).out)
  {
    hide SendBuffer, TakeDirect, Shut, Cells, Pkgs, HoldsLock;
  }

  /** What a step other than a write event adds to the events. */
  lemma {:induction false} StepOut(st: State, a: Action)
    requires Enabled(st, a) && !a.WriteReady?
    ensures Adds(st, a, Step(st, a).out)
  {
    hide Step, Enabled;
    if Sender(st, a) { SenderGone(st, a); } else if FromNetwork(a) { NetworkOut(st, a); } else { PipeOut(st, a); }
  }

  lemma {:induction false} WriteOut(st: State, a: Action)
    requires Enabled(st, a) && a.WriteReady?
    ensures Step(st, a).out == st.out || Step(st, a).out == st.out + [ErrEvent]
  {
    hide SendBuffer;
    SendBufferState(TakeDirect(st), a.hs, a.ls);
  }

  /** Every such read is reported, and nothing else is reported as data. */
  lemma {:induction false} DataReported(run: seq<State>, acts: seq<Action>, i: nat)
    requires Execution(run, acts) && i < |run|
    ensures Count(run[i].out, DataEvent) == DataReads(run, acts, i)
  {
    hide Step, Enabled;
    if i > 0 {
      DataReported(run, acts, i - 1);
      AlwaysInv(run, acts, i - 1);
      var st, a := run[i - 1], acts[i - 1];
      if a.WriteReady? {
        WriteOut(st, a);
        CountNext(st.out, ErrEvent, DataEvent);
      } else {
        StepOut(st, a);
        if run[i].out != st.out { CountNext(st.out, run[i].out[|st.out|], DataEvent); }
      }
    }
  }

  // ---- The end of a connection ----

  /** SOCKET_CLOSE was raised, or will be as soon as the lock is free. */
  predicate Announced(st: State) {
    CloseEvent in st.out || (st.sock.Tearing? && st.sock.event == Some(CloseEvent))
  }

  /** A request to close a live socket, and the end of file on one, are reported. */
  lemma {:induction false} EndAnnounced(st: State, a: Action)
    requires SocketClose.Inv(st) && Enabled(st, a) && !st.kind.Invalid?
    requires a.TakeClose? || a.EofReady? || (a.ReadReady? && a.result.Eof?)
    ensures Announced(Step(st, a))
  {
    hide SendBuffer, TakeDirect, Append, Cells, Pkgs, HoldsLock, CloseIsLast;
    assert CloseEvent in st.out + [CloseEvent];
  }

  lemma {:induction false} StaysAnnounced(st: State, a: Action)
    requires Enabled(st, a) && Announced(st)
    ensures Announced(Step(st, a))
  {
    if a.WriteReady? {
      WriteOut(st, a);
      hide Step;
      assert st.sock.Polling?;
    } else {
      StepOut(st, a);
      hide SendBuffer, TakeDirect, Append, Cells, Pkgs, HoldsLock;
    }
  }

  /** Over runs: once the end was seen it stays announced, and once the socket is gone it was raised. */
  lemma {:induction false} EndReported(run: seq<State>, acts: seq<Action>, i: nat, j: nat)
    requires Execution(run, acts) && i < j < |run| && !run[i].kind.Invalid?
    requires acts[i].TakeClose? || acts[i].EofReady? || (acts[i].ReadReady? && acts[i].result.Eof?)
    ensures Announced(run[j])
    decreases j
  {
    hide Step, Enabled, Announced;
    if j == i + 1 {
      AlwaysInv(run, acts, i);
      EndAnnounced(run[i], acts[i]);
    } else {
      EndReported(run, acts, i, j - 1);
      StaysAnnounced(run[j - 1], acts[j - 1]);
    }
  }

  /** The socket is gone, being torn down, or will go as soon as everything is written. */
  predicate Ending(st: State) {
    st.kind.Invalid? || st.sock.Tearing? || st.closing
  }

  /** A request to close is obeyed, at once when it asks to shut down or nothing is left to write. */
  lemma {:induction false} CloseObeyed(st: State, a: Action)
    requires Enabled(st, a) && a.TakeClose?
    ensures var st' := Step(st, a);
            Ending(st') && (a.idle || st.pipe[0].shutdown ==> st'.kind.Invalid? || st'.sock.Tearing?)
  {
    hide SendBuffer, TakeDirect, Append, Cells, Pkgs, HoldsLock, Shut;
  }

  lemma {:induction false} StaysEnding(st: State, a: Action)
    requires Enabled(st, a) && Ending(st)
    ensures Ending(Step(st, a))
  {
    if a.WriteReady? {
      hide SendBuffer;
      WriteKeepsClosing(TakeDirect(st), a.hs, a.ls);
    } else if Sender(st, a) {
      SenderGone(st, a);
      SenderClosing(st, a);
      hide Step;
    } else {
      hide SendBuffer, TakeDirect, Append, Cells, Pkgs, HoldsLock;
      if a.TakeSend? { AppendKeeps(st, st.pipe[0].pkg); }
    }
  }

  lemma {:induction false} AppendKeeps(st: State, p: Package)
    ensures Append(st, p).kind == st.kind && Append(st, p).closing == st.closing && Append(st, p).sock == st.sock
  {
  }

  lemma {:induction false} SenderClosing(st: State, a: Action)
    requires Enabled(st, a) && Sender(st, a)
    ensures Step(st, a).closing == st.closing
  {
    hide SendBuffer, FreeLists, Shut, Append, TakeDirect, Cells, HoldsLock;
  }

  lemma {:induction false} WriteKeepsClosing(st: State, hs: seq<Outcome>, ls: seq<Outcome>)
    requires Writable(st.high) && Writable(st.low)
    ensures var r := SendBuffer(st, hs, ls);
            (st.kind.Invalid? ==> r.kind.Invalid? || r.closing == st.closing) && (st.closing ==> r.closing || r.kind.Invalid?)
            && r.sock == st.sock
  {
    hide SendList, Pkgs;
  }

  /** In every interleaving a socket that was told to close is on its way to be gone from then on. */
  lemma {:induction false} CloseStands(run: seq<State>, acts: seq<Action>, i: nat, j: nat)
    requires Execution(run, acts) && i < j < |run| && acts[i].TakeClose?
    ensures Ending(run[j])
    decreases j
  {
    hide Step, Enabled, Ending;
    if j == i + 1 {
      CloseObeyed(run[i], acts[i]);
    } else {
      CloseStands(run, acts, i, j - 1);
      StaysEnding(run[j - 1], acts[j - 1]);
    }
  }

  /** Closing ends: the event that was waiting for the lock is raised and the socket is gone. */
  lemma {:induction false} FinishRaises(st: State)
    requires Enabled(st, FinishClose)
    ensures var st' := Step(st, FinishClose);
            && st'.kind.Invalid? && st'.dw.None? && st'.sock.Polling?
            && st'.out == if st.sock.event.Some? then st.out + [st.sock.event.value] else st.out
  {
  }

  function ConnectFailed(acts: seq<Action>): bool {
    acts != [] && (acts[|acts| - 1] == ConnectReady(false) || ConnectFailed(acts[..|acts| - 1]))
  }

  /** A socket that is gone has raised its close, or the error of the connection it never had. */
  ghost predicate GoneInv(st: State, failed: bool) {
    && (st.kind.Invalid? ==> CloseEvent in st.out || (failed && ErrEvent in st.out))
    && (st.sock.Tearing? ==>
          if st.sock.event.None? then CloseEvent in st.out
          else st.sock.event.value.CloseEvent? || (failed && st.sock.event.value.ErrEvent?))
  }

  lemma {:induction false} WriteGone(st: State, a: Action, failed: bool)
    requires SocketClose.Inv(st) && GoneInv(st, failed) && Enabled(st, a) && a.WriteReady?
    ensures GoneInv(Step(st, a), failed)
  {
    hide SendBuffer, CloseIsLast;
    SendBufferState(TakeDirect(st), a.hs, a.ls);
    WriteCloses(TakeDirect(st), a.hs, a.ls);
  }

  /** Writing out closes a socket only when the close was reported. */
  lemma {:induction false} WriteCloses(st: State, hs: seq<Outcome>, ls: seq<Outcome>)
    requires Writable(st.high) && Writable(st.low) && !st.kind.Invalid?
    ensures SendBuffer(st, hs, ls).kind.Invalid? ==> st.closing || st.kind.HalfRead?
  {
    hide SendList, Pkgs;
  }

  lemma {:induction false} StepGone(st: State, a: Action, failed: bool)
    requires SocketClose.Inv(st) && GoneInv(st, failed) && Enabled(st, a) && !a.WriteReady?
    ensures GoneInv(Step(st, a), failed || a == ConnectReady(false))
  {
    if Sender(st, a) {
      SenderGone(st, a);
      hide Step;
    } else {
      StepOut(st, a);
      hide SendBuffer, TakeDirect, Append, Cells, Pkgs, HoldsLock, CloseIsLast;
    }
  }

  lemma {:induction false} SenderGone(st: State, a: Action)
    requires Enabled(st, a) && Sender(st, a)
    ensures Step(st, a).kind == st.kind && Step(st, a).sock == st.sock && Step(st, a).out == st.out
  {
    hide SendBuffer, FreeLists, Shut, Append, TakeDirect, Cells, HoldsLock;
  }

  lemma {:induction false} GoneReported(run: seq<State>, acts: seq<Action>, i: nat)
    requires Execution(run, acts) && i < |run|
    ensures GoneInv(run[i], ConnectFailed(acts[..i]))
  {
    hide Step, Enabled, GoneInv;
    if i > 0 {
      GoneReported(run, acts, i - 1);
      AlwaysInv(run, acts, i - 1);
      var st, a := run[i - 1], acts[i - 1];
      assert acts[..i][..i - 1] == acts[..i - 1] && acts[..i][i - 1] == a;
      if a.WriteReady? { WriteGone(st, a, ConnectFailed(acts[..i - 1])); } else { StepGone(st, a, ConnectFailed(acts[..i - 1])); }
    } else {
      StartGone(run[0]);
    }
  }

  lemma {:induction false} StartGone(st: State)
    requires Start(st)
    ensures GoneInv(st, false)
  {
  }

  // ---- Other events ----

  /** Errors of the connection, of reading and of the poll calls are reported; so is a connection that opens or
      is resumed. */
  lemma {:induction false} Reported(st: State, a: Action)
    requires Enabled(st, a)
    ensures a.ErrorReady? || (a.ReadReady? && a.result.ReadError?) ==> Step(st, a).out == st.out + [ErrEvent]
    ensures a.TakeResume? && (a.fails || st.kind.Invalid?) ==> Step(st, a).out == st.out + [ErrEvent]
    ensures a.TakePause? && a.fails && !st.kind.Invalid? ==> Step(st, a).out == st.out + [ErrEvent]
    ensures a == ConnectReady(true) || (a == TakeResume(false) && (st.kind.PAccept? || st.kind.Connected?)) ==>
              Step(st, a).out == st.out + [OpenEvent] && Step(st, a).kind.Connected?
  {
    hide SendBuffer, TakeDirect, Append, Cells, Pkgs, HoldsLock, FreeLists, Shut;
  }

  // ---- Errors of writing ----

  /** Some call of `write` failed. */
  function WriteFails(st: State, hs: seq<Outcome>, ls: seq<Outcome>): bool
    requires Writable(st.high) && Writable(st.low)
  {
    var s1 := SendHigh(st, hs);
    SendList(st.high, hs).failed || (s1.high == [] && s1.low != [] && SendList(s1.low, ls).failed)
  }

  /** A failed write drops a socket whose end was reported, and otherwise reports the error once and leaves
      the socket half closed; a closing socket that has written everything out is dropped; nothing else
      happens to its state. */
  lemma {:induction false} WriteDecides(st: State, hs: seq<Outcome>, ls: seq<Outcome>)
    requires Writable(st.high) && Writable(st.low)
    ensures var r, fails := SendBuffer(st, hs, ls), WriteFails(st, hs, ls);
            && r.kind == (if fails then (if st.closing || st.kind.HalfRead? then Invalid else HalfWrite)
                          else if FlushPoint(st, hs, ls).Some? && st.closing then Invalid else st.kind)
            && r.out == (if fails && !st.closing && !st.kind.HalfRead? && !st.kind.HalfWrite? then st.out + [ErrEvent] else st.out)
            && (r.kind.Invalid? && !st.kind.Invalid? ==> r.high == [] && r.low == [] && r.dw.None?)
  {
    hide SendList, Pkgs;
  }
}
