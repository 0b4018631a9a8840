/**
 The close state machine of a TCP socket (socket_server.c): SOCKET_CLOSE is raised at most once and
 no data is reported after it, whatever requests, reads, write errors and ends of file come in.
 */
module SocketClose {
  import opened SocketServer

  predicate CloseIsLast(out: seq<Event>) {
    forall i, j :: 0 <= i < j < |out| && out[i].CloseEvent? ==> !out[j].CloseEvent? && !out[j].DataEvent?
  }

  /** A socket that cannot be read any more is one whose close was reported, and conversely. */
  ghost predicate CloseInv(kind: Kind, closing: bool, sock: SocketPc, out: seq<Event>) {
    && CloseIsLast(out)
    && (kind.HalfRead? ==> CloseEvent in out)
    && (closing ==> CloseEvent in out)
    && (CloseEvent in out ==> kind.HalfRead? || kind.Invalid?)
    && (sock.Tearing? && sock.event.Some? ==>
          && !sock.event.value.DataEvent?
          && (sock.event.value.CloseEvent? ==> CloseEvent !in out))
  }

  ghost predicate Inv(st: State) {
    CloseInv(st.kind, st.closing, st.sock, st.out)
  }

  /** All that writing out can do to the close state: nothing, drop the socket, or report an error
      on a socket whose close was not reported. */
  ghost predicate WriteEnds(st: State, r: State) {
    && r.closing == st.closing && r.sock == st.sock
    && (|| (r.kind == st.kind && r.out == st.out)
        || (r.kind.Invalid? && r.out == st.out)
        || (!st.closing && !st.kind.HalfRead? && r.kind.HalfWrite? && r.out == st.out + [ErrEvent]))
  }

  lemma {:induction false} CloseEnds(st: State)
    ensures WriteEnds(st, CloseWrite(st)) && WriteEnds(st, Flushed(st))
  {
    hide Pkgs;
  }

  lemma {:induction false} SendBufferState(st: State, hs: seq<Outcome>, ls: seq<Outcome>)
    requires Writable(st.high) && Writable(st.low)
    ensures WriteEnds(st, SendBuffer(st, hs, ls))
  {
    hide SendList, CloseWrite, Flushed;
    var s1 := SendHigh(st, hs);
    CloseEnds(s1);
    if s1.high == [] && s1.low != [] { CloseEnds(SendLow(s1, ls)); }
  }

  lemma {:induction false} RaiseKeeps(out: seq<Event>, e: Event)
    requires CloseIsLast(out)
    requires e.CloseEvent? || e.DataEvent? ==> CloseEvent !in out
    ensures CloseIsLast(out + [e])
  {
  }

  lemma {:induction false} WriteKeeps(st: State, a: Action)
    requires Inv(st) && Enabled(st, a) && a.WriteReady?
    ensures Inv(Step(st, a))
  {
    hide SendBuffer, SendList;
    SendBufferState(TakeDirect(st), a.hs, a.ls);
    RaiseKeeps(st.out, ErrEvent);
  }

  predicate Takes(a: Action) {
    a.TakeClose? || a.TakeResume? || a.TakePause?
  }

  lemma {:induction false} TakeKeeps(st: State, a: Action)
    requires Inv(st) && Enabled(st, a) && Takes(a)
    ensures Inv(Step(st, a))
  {
    hide SendBuffer, SendList, CloseIsLast, Append;
    var st' := Step(st, a);
    if st'.out != st.out {
      var e := st'.out[|st'.out| - 1];
      assert st'.out == st.out + [e];
      RaiseKeeps(st.out, e);
    }
  }

  lemma {:induction false} OtherKeeps(st: State, a: Action)
    requires Inv(st) && Enabled(st, a) && !a.WriteReady? && !Sender(st, a) && !Takes(a)
    ensures Inv(Step(st, a))
  {
    hide SendBuffer, SendList, CloseIsLast;
    var st' := Step(st, a);
    if st'.out != st.out {
      var e := st'.out[|st'.out| - 1];
      assert st'.out == st.out + [e];
      RaiseKeeps(st.out, e);
    }
  }

  lemma {:induction false} SenderKeeps(st: State, a: Action)
    requires Inv(st) && Enabled(st, a) && Sender(st, a)
    ensures Inv(Step(st, a))
  {
    hide SendBuffer, SendList, CloseIsLast;
  }

  lemma {:induction false} KeepsInv(st: State, a: Action)
    requires Inv(st) && Enabled(st, a)
    ensures Inv(Step(st, a))
  {
    hide *;
    if a.WriteReady? {
      WriteKeeps(st, a);
    } else if Sender(st, a) {
      SenderKeeps(st, a);
    } else if Takes(a) {
      TakeKeeps(st, a);
    } else {
      OtherKeeps(st, a);
    }
  }

  lemma {:induction false} AlwaysInv(run: seq<State>, acts: seq<Action>, i: nat)
    requires Execution(run, acts) && i < |run|
    ensures Inv(run[i])
  {
    hide Inv;
    if i > 0 {
      AlwaysInv(run, acts, i - 1);
      KeepsInv(run[i - 1], acts[i - 1]);
    } else {
      StartInv(run[0]);
    }
  }

  lemma {:induction false} StartInv(st: State)
    requires Start(st)
    ensures Inv(st)
  {
  }

  function Count(out: seq<Event>, e: Event): nat {
    if out == [] then 0 else Count(out[..|out| - 1], e) + if out[|out| - 1] == e then 1 else 0
  }

  lemma {:induction false} AtMostOne(out: seq<Event>)
    requires CloseIsLast(out)
    ensures Count(out, CloseEvent) == if CloseEvent in out then 1 else 0
  {
    if out != [] {
      var init := out[..|out| - 1];
      AtMostOne(init);
      assert out == init + [out[|out| - 1]];
    }
  }

  /** Over one lifetime of the socket. */
  lemma {:induction false} CloseOnce(run: seq<State>, acts: seq<Action>, i: nat)
    requires Execution(run, acts) && i < |run|
    ensures Count(run[i].out, CloseEvent) <= 1
    ensures forall j, k :: 0 <= j < k < |run[i].out| && run[i].out[j].CloseEvent? ==> !run[i].out[k].DataEvent?
    ensures run[i].kind.HalfRead? || run[i].closing ==> Count(run[i].out, CloseEvent) == 1
  {
    hide Execution;
    AlwaysInv(run, acts, i);
    AtMostOne(run[i].out);
  }
}
