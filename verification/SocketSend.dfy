/**
 The send path of a TCP socket (socket_server.c) under every interleaving of the socket thread with
 direct and queued senders: framing of packages on the wire, their order, and the byte count.
 */
module SocketSend {
  import opened Wrappers
  import opened SocketServer

  ghost predicate AllLow(list: seq<WriteBuffer>) {
    forall i :: 0 <= i < |list| ==> list[i].pkg.priority.Low?
  }

  /** The socket is neither closed nor being closed. */
  predicate Alive(st: State) {
    !st.kind.Invalid? && !st.sock.Tearing?
  }

  /** Bytes on the wire of the package that is not complete there. */
  function Unfinished(st: State): seq<Cell> {
    if st.cut.Some? then Cells(st.cut.value.pkg, 0, st.cut.value.sent)
    else if st.dw.Some? then Cells(st.dw.value.pkg, 0, st.dw.value.sent)
    else Begun(st.high)
  }

  /** The wire holds whole packages and at most one unfinished one after them, which is the next to be
      continued unless the socket was closed over it. */
  ghost predicate Framed(st: State) {
    && st.wire == Flat(st.done) + Unfinished(st)
    && (st.cut.Some? && st.dw.Some? ==> st.dw.value.sent == 0)
  }

  ghost predicate ListsInv(st: State) {
    && HeadOnly(st.high) && Unsent(st.low) && AllLow(st.low)
    && (st.dw.Some? ==> st.dw.value.sent < |st.dw.value.pkg.data| && Unsent(st.high))
  }

  ghost predicate LifeInv(st: State) {
    if Alive(st) then
      st.wbSize == Bytes(st.high) + Bytes(st.low) && st.cut.None? && Framed(st)
    else
      st.high == [] && st.low == [] && (st.kind.Invalid? ==> st.dw.None?)
      && (st.cut.Some? ==> st.cut.value.sent > 0 && st.cut.value.pkg in st.dropped)
  }

  ghost predicate LockInv(st: State) {
    && (st.lock.Some? ==> st.lock.value in st.senders)
    && (st.kind.Invalid? && st.lock.Some? ==> !st.senders[st.lock.value].Direct?)
    && forall t :: t in st.senders ==>
         && (HoldsLock(st.senders[t]) <==> st.lock == Some(t))
         && (PastHigh(st.senders[t]) ==> Unsent(st.high))
         && (PastDirect(st.senders[t]) ==> st.dw.None?)
         && (st.senders[t].SawHalf? ==> st.kind.HalfWrite?)
  }

  ghost predicate DataInv(st: State) {
    ListsInv(st) && LifeInv(st) && LockInv(st)
  }

  // ---- Writing out ----

  /** What `send_buffer_` relies on once the direct write buffer was taken over. */
  ghost predicate Good(st: State) {
    && HeadOnly(st.high) && Unsent(st.low) && AllLow(st.low) && st.dw.None? && st.cut.None?
    && st.wbSize == Bytes(st.high) + Bytes(st.low)
    && st.wire == Flat(st.done) + Begun(st.high)
  }

  function Pack(st: State): seq<Package> {
    st.done + Pkgs(st.high) + Pkgs(st.low)
  }

  lemma {:induction false} HeadOnlyWritable(list: seq<WriteBuffer>)
    requires HeadOnly(list)
    ensures Writable(list)
  {
    if list != [] {
      assert forall i :: 0 < i < |list| ==> list[i] == list[1..][i - 1];
    }
  }

  lemma {:induction false} UnsentIsHeadOnly(list: seq<WriteBuffer>)
    requires Unsent(list)
    ensures HeadOnly(list) && Writable(list) && Begun(list) == []
  {
  }

  /** Advancing the wire over one list, whatever was there before. */
  lemma {:induction false} WireAdvances(wire: seq<Cell>, done: seq<Package>, list: seq<WriteBuffer>, ws: seq<Outcome>)
    requires HeadOnly(list) && Writable(list) && wire == Flat(done) + Begun(list)
    ensures var r := SendList(list, ws); wire + r.cells == Flat(done + r.done) + Begun(r.list)
  {
    hide SendList, Flat, Begun, HeadOnly, Writable;
    SendListFrames(list, ws);
    var r := SendList(list, ws);
    FlatAppend(done, r.done);
    assert wire + r.cells == Flat(done) + (Begun(list) + r.cells);
    assert Flat(done) + (Flat(r.done) + Begun(r.list)) == (Flat(done) + Flat(r.done)) + Begun(r.list);
  }

  lemma {:induction false} SendHighGood(st: State, ws: seq<Outcome>)
    requires Good(st)
    ensures Writable(st.high) && Good(SendHigh(st, ws)) && Pack(SendHigh(st, ws)) == Pack(st)
  {
    HeadOnlyWritable(st.high);
    hide SendList, Flat, Begun, HeadOnly, Writable, Unsent, AllLow, Bytes, Pkgs;
    WireAdvances(st.wire, st.done, st.high, ws);
    SendListFrames(st.high, ws);
    var r := SendList(st.high, ws);
    assert (st.done + r.done) + Pkgs(r.list) == st.done + (r.done + Pkgs(r.list));
  }

  /** The state between writing the low list and moving an unfinished head of it up. */
  ghost predicate LowGood(st: State) {
    && st.high == [] && HeadOnly(st.low) && AllLow(st.low) && st.dw.None? && st.cut.None?
    && st.wbSize == Bytes(st.low)
    && st.wire == Flat(st.done) + Begun(st.low)
  }

  lemma {:induction false} SendListAllLow(list: seq<WriteBuffer>, ws: seq<Outcome>)
    requires Writable(list) && AllLow(list)
    ensures AllLow(SendList(list, ws).list)
    decreases |ws|
  {
    if list != [] && ws != [] {
      match ws[0]
      case Interrupted => SendListAllLow(list, ws[1..]);
      case Wrote(n) => if n >= list[0].Left() { SendListAllLow(list[1..], ws[1..]); }
      case _ =>
    }
  }

  lemma {:induction false} FailedUnsent(list: seq<WriteBuffer>, ws: seq<Outcome>)
    requires Writable(list) && Unsent(list)
    ensures SendList(list, ws).failed ==> Unsent(SendList(list, ws).list)
    decreases |ws|
  {
    if list != [] && ws != [] {
      match ws[0]
      case Interrupted => FailedUnsent(list, ws[1..]);
      case Wrote(n) => if n >= list[0].Left() { FailedUnsent(list[1..], ws[1..]); }
      case _ =>
    }
  }

  lemma {:induction false} PackLow(st: State)
    requires st.high == []
    ensures Pack(st) == st.done + Pkgs(st.low)
  {
    assert Pkgs(st.high) == [];
  }

  lemma {:induction false} SendLowGood(st: State, ws: seq<Outcome>)
    requires Good(st) && st.high == []
    ensures Writable(st.low) && LowGood(SendLow(st, ws)) && Pack(SendLow(st, ws)) == Pack(st)
    ensures SendList(st.low, ws).failed ==> Unsent(SendLow(st, ws).low)
  {
    UnsentIsHeadOnly(st.low);
    assert Begun(st.high) == [] && Bytes(st.high) == 0;
    FailedUnsent(st.low, ws);
    SendListAllLow(st.low, ws);
    hide SendList, Flat, Begun, HeadOnly, Writable, Unsent, Bytes, Pkgs, Pack, AllLow;
    WireAdvances(st.wire, st.done, st.low, ws);
    SendListFrames(st.low, ws);
    PackLow(st);
    PackLow(SendLow(st, ws));
    var r := SendList(st.low, ws);
    assert (st.done + r.done) + Pkgs(r.list) == st.done + (r.done + Pkgs(r.list));
  }

  lemma {:induction false} LowUnsentGood(st: State)
    requires LowGood(st) && (st.low == [] || st.low[0].sent == 0 || Unsent(st.low))
    ensures Good(st)
  {
    assert Begun(st.low) == [];
    if st.low != [] && st.low[0].sent == 0 {
      assert st.low == [st.low[0]] + st.low[1..];
    }
  }

  lemma {:induction false} RaiseGood(st: State)
    requires LowGood(st) && st.low != []
    ensures Good(RaiseUncomplete(st)) && Pack(RaiseUncomplete(st)) == Pack(st)
  {
    var r := RaiseUncomplete(st);
    assert r.high[1..] == [];
    assert st.done + [st.low[0].pkg] + Pkgs(st.low[1..]) == st.done + [] + Pkgs(st.low);
  }

  /** Closing drops what is in the lists; a head already begun stays on the wire as it is. */
  ghost predicate Closed(st: State, r: State) {
    && r.kind.Invalid? && r.high == [] && r.low == [] && r.dw.None?
    && r.done == st.done && r.dropped == st.dropped + Pkgs(st.high) + Pkgs(st.low)
    && r.wire == Flat(r.done) + Unfinished(r) && (r.cut.Some? ==> r.cut.value.sent > 0 && st.high != [] && r.cut == Some(st.high[0]))
  }

  lemma {:induction false} CloseGood(st: State)
    requires Good(st)
    ensures Closed(st, ForceClose(st))
  {
  }

  /** The whole of `send_buffer_`: it ends in a good state with the same packages in the same order, or
      it closes the socket and drops what is left. */
  lemma {:induction false} SendBufferGood(st: State, hs: seq<Outcome>, ls: seq<Outcome>) returns (m: State)
    requires Good(st) && !st.kind.Invalid?
    requires Writable(st.high) && Writable(st.low)
    ensures var r := SendBuffer(st, hs, ls);
            && Good(m) && Pack(m) == Pack(st) && m.dropped == st.dropped
            && (if r.kind.Invalid? then Closed(m, r)
                else r.high == m.high && r.low == m.low && Good(r) && Pack(r) == Pack(m) && r.dropped == st.dropped)
  {
    hide Good, LowGood, Pack, SendList, Closed, Writable;
    m := SendHigh(st, hs);
    SendHighGood(st, hs);
    if SendList(st.high, hs).failed {
      CloseWriteGood(m);
    } else if m.high == [] {
      if m.low == [] {
        FlushedGood(m);
      } else {
        var s2 := SendLow(m, ls);
        SendLowGood(m, ls);
        if SendList(m.low, ls).failed {
          LowUnsentGood(s2);
          CloseWriteGood(s2);
        } else if s2.low != [] && s2.low[0].sent > 0 {
          RaiseGood(s2);
          m := RaiseUncomplete(s2);
          return;
        } else {
          LowUnsentGood(s2);
          FlushedGood(s2);
        }
        m := s2;
      }
    }
  }

  /** `send_buffer_` gets to step 4 with both lists written out and `wb_size` zero, and goes on from there. */
  lemma {:induction false} FlushAt(st: State, hs: seq<Outcome>, ls: seq<Outcome>)
    requires Good(st) && !st.kind.Invalid? && Writable(st.high) && Writable(st.low)
    ensures FlushPoint(st, hs, ls).Some? ==>
              var m := FlushPoint(st, hs, ls).value;
              SendBufferEmpty(m) && m.wbSize == 0 && SendBuffer(st, hs, ls) == Flushed(m)
  {
    var m := SendHigh(st, hs);
    SendHighGood(st, hs);
    if !SendList(st.high, hs).failed && m.high == [] && m.low != [] {
      SendLowGood(m, ls);
      if SendLow(m, ls).low == [] { LowUnsentGood(SendLow(m, ls)); }
    }
    hide SendList, Flat, Begun, Pack;
  }

  lemma {:induction false} CloseWriteGood(st: State)
    requires Good(st) && !st.kind.Invalid?
    ensures var r := CloseWrite(st);
            if r.kind.Invalid? then Closed(st, r)
            else r.high == st.high && r.low == st.low && Good(r) && Pack(r) == Pack(st) && r.dropped == st.dropped
  {
    CloseGood(st);
  }

  lemma {:induction false} FlushedGood(st: State)
    requires Good(st) && !st.kind.Invalid?
    ensures var r := Flushed(st);
            if r.kind.Invalid? then Closed(st, r)
            else r.high == st.high && r.low == st.low && Good(r) && Pack(r) == Pack(st) && r.dropped == st.dropped
  {
    CloseGood(st);
  }

  // ---- The line of packages: on the wire, begun, in the lists, in the pipe ----

  function PipePkgs(pipe: seq<Request>): seq<Package> {
    if pipe == [] then []
    else if pipe[0].Send? then [pipe[0].pkg] + PipePkgs(pipe[1..])
    else PipePkgs(pipe[1..])
  }

  function DirectPkgs(st: State): seq<Package> {
    if st.dw.Some? then [st.dw.value.pkg] else []
  }

  /** Packages not yet handed to `write`, in the order they will be. */
  function Rest(st: State): seq<Package> {
    Pkgs(st.high) + Pkgs(st.low) + PipePkgs(st.pipe)
  }

  function Line(st: State): seq<Package> {
    st.done + DirectPkgs(st) + Rest(st)
  }

  /** Packages of one sender and one priority come in the order of their hand-over. */
  ghost predicate Sorted(ps: seq<Package>) {
    forall i, j :: 0 <= i < j < |ps| && ps[i].owner == ps[j].owner && ps[i].priority == ps[j].priority ==>
                     ps[i].no < ps[j].no
  }

  ghost predicate InOrder(st: State) {
    Sorted(Line(st))
  }

  ghost predicate Numbered(issued: seq<Package>) {
    forall i :: 0 <= i < |issued| ==> issued[i].no == i
  }

  /** Every package handed over is in the line or was dropped, once. */
  ghost predicate Accounts(line: seq<Package>, dropped: seq<Package>, issued: seq<Package>) {
    multiset(line) + multiset(dropped) == multiset(issued) && Numbered(issued)
  }

  ghost predicate Conserved(st: State) {
    Accounts(Line(st), st.dropped, st.issued)
  }

  lemma {:induction false} LineIsOlder(line: seq<Package>, dropped: seq<Package>, issued: seq<Package>)
    requires Accounts(line, dropped, issued)
    ensures forall p :: p in line || p in dropped ==> p.no < |issued|
  {
    forall p | p in line || p in dropped ensures p.no < |issued| {
      assert p in multiset(line) + multiset(dropped);
      assert p in multiset(issued);
      assert p in issued;
    }
  }

  lemma {:induction false} SortedAppend(ps: seq<Package>, p: Package)
    requires Sorted(ps) && forall q :: q in ps ==> q.no < p.no
    ensures Sorted(ps + [p])
  {
  }

  lemma {:induction false} SortedDelete(a: seq<Package>, b: seq<Package>, c: seq<Package>)
    requires Sorted(a + b + c)
    ensures Sorted(a + c)
  {
    var x, y := a + b + c, a + c;
    forall i, j | 0 <= i < j < |y| && y[i].owner == y[j].owner && y[i].priority == y[j].priority
      ensures y[i].no < y[j].no
    {
      var i', j' := if i < |a| then i else i + |b|, if j < |a| then j else j + |b|;
      assert x[i'] == y[i] && x[j'] == y[j];
    }
  }

  /** A high package may pass packages of low priority. */
  lemma {:induction false} SortedMove(a: seq<Package>, l: seq<Package>, p: Package, c: seq<Package>)
    requires Sorted(a + l + ([p] + c)) && forall i :: 0 <= i < |l| ==> l[i].priority != p.priority
    ensures Sorted(a + [p] + (l + c))
  {
    var x, y := a + l + ([p] + c), a + [p] + (l + c);
    forall i, j | 0 <= i < j < |y| && y[i].owner == y[j].owner && y[i].priority == y[j].priority
      ensures y[i].no < y[j].no
    {
      var i', j' := Where(|a|, |l|, i), Where(|a|, |l|, j);
      assert x[i'] == y[i] && x[j'] == y[j];
      assert |a| < j <= |a| + |l| ==> y[j] == l[j - |a| - 1];
    }
  }

  function Where(a: nat, l: nat, i: nat): nat {
    if i < a then i else if i == a then a + l else if i <= a + l then i - 1 else i
  }

  /** Putting a new package right after the finished ones keeps the order exactly when none of its
      sender's packages of its priority is behind it. */
  lemma {:induction false} SortedInsert(a: seq<Package>, p: Package, c: seq<Package>)
    requires Sorted(a + c) && forall q :: q in a + c ==> q.no < p.no
    ensures Sorted(a + [p] + c) <==> forall q :: q in c ==> !(q.owner == p.owner && q.priority == p.priority)
  {
    var x, y := a + c, a + [p] + c;
    if forall q :: q in c ==> !(q.owner == p.owner && q.priority == p.priority) {
      forall i, j | 0 <= i < j < |y| && y[i].owner == y[j].owner && y[i].priority == y[j].priority
        ensures y[i].no < y[j].no
      {
        assert j > |a| ==> y[j] == c[j - |a| - 1] && y[j] in c;
        assert i < |a| ==> y[i] == x[i] && x[i] in x;
        assert i != |a| && j != |a| ==> y[i] == x[if i < |a| then i else i - 1] && y[j] == x[if j < |a| then j else j - 1];
      }
    } else {
      var q :| q in c && q.owner == p.owner && q.priority == p.priority;
      var k :| 0 <= k < |c| && c[k] == q;
      assert y[|a|] == p && y[|a| + 1 + k] == q && q in a + c;
    }
  }

  // ---- What each step does to the line ----

  lemma {:induction false} PipeAppend(pipe: seq<Request>, r: Request)
    ensures PipePkgs(pipe + [r]) == if r.Send? then PipePkgs(pipe) + [r.pkg] else PipePkgs(pipe)
  {
    if pipe == [] {
      assert pipe + [r] == [r];
      assert PipePkgs([r][1..]) == [];
    } else {
      assert (pipe + [r])[1..] == pipe[1..] + [r];
      PipeAppend(pipe[1..], r);
      assert PipePkgs(pipe + [r]) ==
             if pipe[0].Send? then [pipe[0].pkg] + PipePkgs(pipe[1..] + [r]) else PipePkgs(pipe[1..] + [r]);
      assert pipe[0].Send? && r.Send? ==>
          [pipe[0].pkg] + (PipePkgs(pipe[1..]) + [r.pkg]) == ([pipe[0].pkg] + PipePkgs(pipe[1..])) + [r.pkg];
    }
  }

  /** The direct write of a sender goes ahead of one of its own packages of the same priority that is
      still in a list or in the pipe. */
  ghost predicate Overtakes(st: State, a: Action) {
    a.WriteDirect? && exists p :: p in Rest(st) && p.owner == a.t && p.priority.High?
  }

  /** Steps that begin to close the socket. */
  predicate Tears(st: State, a: Action)
    requires Enabled(st, a)
  {
    !st.sock.Tearing? && Step(st, a).sock.Tearing?
  }

  predicate Quiet(st: State, a: Action)
    requires Enabled(st, a)
  {
    !a.WriteDirect? && !a.SendRequest? && !a.TakeSend? && !a.WriteReady? && !a.FinishClose? && !Tears(st, a)
  }

  /** Nothing that the send path keeps has changed. */
  ghost predicate Untouched(st: State, st': State) {
    && PipePkgs(st'.pipe) == PipePkgs(st.pipe) && st'.dropped == st.dropped && st'.issued == st.issued
    && st'.high == st.high && st'.low == st.low && st'.dw == st.dw && st'.cut == st.cut
    && st'.wire == st.wire && st'.done == st.done && st'.wbSize == st.wbSize
    && (st'.kind.Invalid? <==> st.kind.Invalid?) && (st'.sock.Tearing? <==> st.sock.Tearing?)
    && (st.kind.HalfWrite? ==> st'.kind.HalfWrite?)
  }

  lemma {:induction false} SenderLine(st: State, a: Action)
    requires Enabled(st, a) && Quiet(st, a) && Sender(st, a)
    ensures Untouched(st, Step(st, a))
  {
    hide SendBuffer, PipePkgs, FreeLists, Shut, Append, TakeDirect;
    PipeAppend(st.pipe, Trigger);
  }

  predicate FromPipe(a: Action) {
    a.TakeTrigger? || a.TakeClose? || a.TakeResume? || a.TakePause?
  }

  lemma {:induction false} PipeLine(st: State, a: Action)
    requires Enabled(st, a) && Quiet(st, a) && FromPipe(a)
    ensures Untouched(st, Step(st, a))
  {
    hide SendBuffer, PipePkgs, Append, Shut, Cells, HoldsLock;
    PipeTake(st.pipe);
  }

  lemma {:induction false} EventLine(st: State, a: Action)
    requires Enabled(st, a) && Quiet(st, a) && !Sender(st, a) && !FromPipe(a)
    ensures Untouched(st, Step(st, a))
  {
    hide SendBuffer, PipePkgs, Append, Shut, Cells, HoldsLock;
    if a.Control? { PipeAppend(st.pipe, a.r); }
  }

  lemma {:induction false} QuietLine(st: State, a: Action)
    requires Enabled(st, a) && Quiet(st, a)
    ensures Untouched(st, Step(st, a))
  {
    hide Step, Enabled, Quiet, Untouched;
    if Sender(st, a) { SenderLine(st, a); } else if FromPipe(a) { PipeLine(st, a); } else { EventLine(st, a); }
  }

  lemma {:induction false} PipeTake(pipe: seq<Request>)
    requires pipe != []
    ensures PipePkgs(pipe) == if pipe[0].Send? then [pipe[0].pkg] + PipePkgs(pipe[1..]) else PipePkgs(pipe[1..])
  {
  }

  /** `st'` is `st` after the first half of `force_close`. */
  ghost predicate Torn(st: State, st': State) {
    && st'.high == [] && st'.low == [] && st'.dw == st.dw && st'.cut == FreeLists(st).cut
    && PipePkgs(st'.pipe) == PipePkgs(st.pipe)
    && st'.dropped == st.dropped + (Pkgs(st.high) + Pkgs(st.low)) && st'.issued == st.issued
    && st'.senders == st.senders && st'.lock == st.lock && st'.kind == st.kind
    && st'.wire == st.wire && st'.done == st.done && !st'.kind.Invalid? && st'.sock.Tearing? && Alive(st)
  }

  lemma {:induction false} OnlyThese(st: State, a: Action)
    requires Enabled(st, a) && Tears(st, a)
    ensures a.TakeClose? || a.ReadReady? || a.EofReady? || a.ConnectReady?
  {
    hide SendBuffer, FreeLists, Shut, Append;
    if a.WriteReady? {
      SendBufferPc(TakeDirect(st), a.hs, a.ls);
    }
  }

  lemma {:induction false} TearsLine(st: State, a: Action)
    requires Enabled(st, a) && Tears(st, a)
    ensures Torn(st, Step(st, a))
  {
    OnlyThese(st, a);
    if a.TakeClose? {
      TearsClose(st, a);
    } else {
      hide SendBuffer, Pkgs, PipePkgs;
    }
  }

  lemma {:induction false} TearsClose(st: State, a: Action)
    requires Enabled(st, a) && Tears(st, a) && a.TakeClose?
    ensures Torn(st, Step(st, a))
  {
    PipeTake(st.pipe);
    hide SendBuffer, Pkgs, PipePkgs;
  }

  /** Fields that writing out leaves alone. */
  ghost predicate SameSenders(st: State, r: State) {
    && r.sock == st.sock && r.senders == st.senders && r.lock == st.lock && r.pipe == st.pipe
    && r.issued == st.issued && r.sending == st.sending
  }

  lemma {:induction false} ClosePc(st: State)
    ensures SameSenders(st, CloseWrite(st)) && SameSenders(st, Flushed(st))
  {
    hide Pkgs;
  }

  lemma {:induction false} SendBufferPc(st: State, hs: seq<Outcome>, ls: seq<Outcome>)
    requires Writable(st.high) && Writable(st.low)
    ensures SameSenders(st, SendBuffer(st, hs, ls))
  {
    hide SendList, CloseWrite, Flushed;
    var s1 := SendHigh(st, hs);
    ClosePc(s1);
    if s1.high == [] && s1.low != [] { ClosePc(SendLow(s1, ls)); }
  }

  lemma {:induction false} DeleteAccounts(a: seq<Package>, b: seq<Package>, c: seq<Package>, dropped: seq<Package>, issued: seq<Package>)
    requires Accounts(a + b + c, dropped, issued)
    ensures Accounts(a + c, dropped + b, issued)
  {
  }

  lemma {:induction false} InsertAccounts(a: seq<Package>, p: Package, c: seq<Package>, dropped: seq<Package>, issued: seq<Package>)
    requires Accounts(a + c, dropped, issued) && p.no == |issued|
    ensures Accounts(a + [p] + c, dropped, issued + [p])
  {
    assert multiset(a + [p] + c) == multiset(a + c) + multiset{p};
  }

  lemma {:induction false} MoveAccounts(a: seq<Package>, l: seq<Package>, p: Package, c: seq<Package>, dropped: seq<Package>, issued: seq<Package>)
    requires Accounts(a + l + ([p] + c), dropped, issued)
    ensures Accounts(a + [p] + (l + c), dropped, issued)
  {
    assert multiset(a + [p] + (l + c)) == multiset(a + l + ([p] + c));
  }

  /** The line cut at its lists. */
  lemma {:induction false} LineParts(st: State)
    ensures Line(st) == (st.done + DirectPkgs(st)) + (Pkgs(st.high) + Pkgs(st.low)) + PipePkgs(st.pipe)
  {
  }

  lemma {:induction false} LineRest(st: State)
    ensures Line(st) == st.done + DirectPkgs(st) + Rest(st)
  {
  }

  lemma {:induction false} TornConserves(st: State, st': State)
    requires Conserved(st) && Torn(st, st')
    ensures Conserved(st') && (InOrder(st) ==> InOrder(st'))
  {
    hide Line, PipePkgs, Accounts, Sorted, Pkgs, Rest;
    LineParts(st);
    LineParts(st');
    NoPkgs();
    var x, y := st.done + DirectPkgs(st), Pkgs(st.high) + Pkgs(st.low);
    assert x + ([] + []) + PipePkgs(st.pipe) == x + PipePkgs(st.pipe);
    DeleteAccounts(x, y, PipePkgs(st.pipe), st.dropped, st.issued);
    if InOrder(st) {
      SortedDelete(x, y, PipePkgs(st.pipe));
    }
  }

  lemma {:induction false} NoPkgs()
    ensures Pkgs([]) == []
  {
  }

  /** `st'` is `st` after the second half of `force_close`. */
  ghost predicate Finished(st: State, st': State) {
    && st'.high == st.high && st'.low == st.low && st'.pipe == st.pipe && st'.done == st.done && st'.dw.None?
    && st'.dropped == st.dropped + DirectPkgs(st) && st'.issued == st.issued && st'.wire == st.wire
    && st'.cut == (if st.dw.Some? && st.dw.value.sent > 0 then st.dw else st.cut)
    && st'.kind.Invalid? && st'.senders == st.senders && st'.lock.None? && st.lock.None? && st'.sock.Polling?
    && st.sock.Tearing?
  }

  lemma {:induction false} FinishFields(st: State, a: Action)
    requires Enabled(st, a) && a.FinishClose?
    ensures Finished(st, Step(st, a))
  {
  }

  lemma {:induction false} FinishedConserves(st: State, st': State)
    requires Conserved(st) && Finished(st, st')
    ensures Conserved(st') && (InOrder(st) ==> InOrder(st'))
  {
    hide Line, PipePkgs, Accounts, Sorted, Pkgs;
    LineRest(st);
    LineRest(st');
    assert st.done + [] + Rest(st) == st.done + Rest(st);
    DeleteAccounts(st.done, DirectPkgs(st), Rest(st), st.dropped, st.issued);
    if InOrder(st) {
      SortedDelete(st.done, DirectPkgs(st), Rest(st));
    }
  }

  lemma {:induction false} RequestFields(st: State, a: Action)
    requires Enabled(st, a) && a.SendRequest?
    ensures var st' := Step(st, a);
            var p := NewPackage(st, a.t, st.senders[a.t].priority, st.senders[a.t].data);
            && st'.high == st.high && st'.low == st.low && st'.done == st.done && st'.dw == st.dw && st'.cut == st.cut
            && PipePkgs(st'.pipe) == PipePkgs(st.pipe) + [p] && st'.dropped == st.dropped
            && st'.issued == st.issued + [p] && st'.wire == st.wire && st'.wbSize == st.wbSize
            && st'.kind == st.kind && st'.sock == st.sock && st'.lock == st.lock && st'.senders == st.senders[a.t := Out]
  {
    var p := NewPackage(st, a.t, st.senders[a.t].priority, st.senders[a.t].data);
    PipeAppend(st.pipe, Send(p));
  }

  /** A package put at the end of the line. */
  lemma {:induction false} AtEndConserves(st: State, st': State, p: Package)
    requires Conserved(st) && p.no == |st.issued| && st'.issued == st.issued + [p] && st'.dropped == st.dropped
    requires st'.high == st.high && st'.low == st.low && st'.done == st.done && st'.dw == st.dw
    requires PipePkgs(st'.pipe) == PipePkgs(st.pipe) + [p]
    ensures Conserved(st') && (InOrder(st) ==> InOrder(st'))
  {
    hide Line, PipePkgs, Accounts, Sorted, Pkgs;
    LineParts(st);
    LineParts(st');
    assert Line(st') == Line(st) + [p];
    assert Line(st) == Line(st) + [] && Line(st') == Line(st) + [p] + [];
    InsertAccounts(Line(st), p, [], st.dropped, st.issued);
    LineIsOlder(Line(st), st.dropped, st.issued);
    if InOrder(st) {
      SortedAppend(Line(st), p);
    }
  }

  lemma {:induction false} RequestConserves(st: State, a: Action)
    requires Conserved(st) && Enabled(st, a) && a.SendRequest?
    ensures Conserved(Step(st, a)) && (InOrder(st) ==> InOrder(Step(st, a)))
  {
    var p := NewPackage(st, a.t, st.senders[a.t].priority, st.senders[a.t].data);
    RequestFields(st, a);
    hide Step, Enabled, PipePkgs, Conserved, InOrder;
    AtEndConserves(st, Step(st, a), p);
  }

  lemma {:induction false} DirectFields(st: State, a: Action)
    requires Enabled(st, a) && a.WriteDirect? && st.dw.None?
    ensures var st' := Step(st, a);
            var p := NewPackage(st, a.t, High, st.senders[a.t].data);
            && st'.high == st.high && st'.low == st.low && st'.pipe == st.pipe && st'.cut == st.cut
            && (if a.n == |p.data| then st'.done == st.done + [p] && st'.dw.None?
                else st'.done == st.done && st'.dw == Some(WriteBuffer(p, a.n)))
            && st'.dropped == st.dropped && st'.issued == st.issued + [p] && st'.wire == st.wire + Cells(p, 0, a.n)
            && st'.wbSize == st.wbSize && st'.kind == st.kind && st'.sock == st.sock && st'.lock.None?
            && st'.senders == st.senders[a.t := if a.n == |p.data| then Out else Triggering]
            && a.n <= |p.data|
  {
  }

  /** A package put between what is out and what waits. */
  lemma {:induction false} InMiddleConserves(st: State, st': State, p: Package)
    requires Conserved(st) && p.no == |st.issued| && st'.issued == st.issued + [p] && st'.dropped == st.dropped
    requires st.dw.None? && Rest(st') == Rest(st) && st'.done + DirectPkgs(st') == st.done + [p]
    ensures Conserved(st')
    ensures InOrder(st) ==> (InOrder(st') <==> forall q :: q in Rest(st) ==> !(q.owner == p.owner && q.priority == p.priority))
  {
    hide Line, Rest, Accounts, Sorted;
    LineRest(st);
    LineRest(st');
    assert Line(st) == st.done + Rest(st);
    assert Line(st') == st.done + [p] + Rest(st);
    InsertAccounts(st.done, p, Rest(st), st.dropped, st.issued);
    LineIsOlder(Line(st), st.dropped, st.issued);
    if InOrder(st) {
      SortedInsert(st.done, p, Rest(st));
    }
  }

  lemma {:induction false} DirectConserves(st: State, a: Action)
    requires Conserved(st) && Enabled(st, a) && a.WriteDirect? && st.dw.None?
    ensures Conserved(Step(st, a))
    ensures InOrder(st) ==> (InOrder(Step(st, a)) <==> !Overtakes(st, a))
  {
    var p := NewPackage(st, a.t, High, st.senders[a.t].data);
    DirectFields(st, a);
    hide Step, Enabled, PipePkgs, Pkgs, Conserved, InOrder;
    var st' := Step(st, a);
    assert st'.done + DirectPkgs(st') == st.done + [p];
    InMiddleConserves(st, st', p);
  }

  /** `st'` is `st` after `send_socket` on the package at the head of the pipe. */
  ghost predicate Taken(st: State, st': State) {
    && st.pipe != [] && st.pipe[0].Send?
    && var p := st.pipe[0].pkg;
       && PipePkgs(st.pipe) == [p] + PipePkgs(st'.pipe)
       && st'.issued == st.issued && st'.wire == st.wire && st'.done == st.done && st'.dw == st.dw && st'.cut == st.cut
       && st'.kind == st.kind && st'.senders == st.senders && st'.lock == st.lock
       && st'.sock.Counting? && st.sock.Polling?
       && (|| (st'.dropped == st.dropped + [p] && st'.high == st.high && st'.low == st.low && st'.wbSize == st.wbSize)
           || (st'.dropped == st.dropped && !st.kind.Invalid? && st'.wbSize == st.wbSize + |p.data|
               && ((st'.high == st.high + [WriteBuffer(p, 0)] && st'.low == st.low && (p.priority.High? || st.low == []))
                   || (st'.high == st.high && st'.low == st.low + [WriteBuffer(p, 0)] && p.priority.Low?))))
  }

  lemma {:induction false} TakeFields(st: State, a: Action)
    requires Enabled(st, a) && a.TakeSend?
    ensures Taken(st, Step(st, a))
  {
    hide PipePkgs;
    PipeTake(st.pipe);
  }

  lemma {:induction false} PkgsOne(list: seq<WriteBuffer>, p: Package)
    ensures Pkgs(list + [WriteBuffer(p, 0)]) == Pkgs(list) + [p]
    ensures Bytes(list + [WriteBuffer(p, 0)]) == Bytes(list) + |p.data|
  {
    var one := [WriteBuffer(p, 0)];
    PkgsAppend(list, one);
    assert one[1..] == [];
    assert Pkgs(one) == [p];
  }

  lemma {:induction false} PkgsPriority(list: seq<WriteBuffer>)
    requires AllLow(list)
    ensures forall i :: 0 <= i < |list| ==> Pkgs(list)[i].priority.Low?
  {
    if list != [] {
      PkgsPriority(list[1..]);
    }
  }

  lemma {:induction false} DropHead(x: seq<Package>, y: seq<Package>, p: Package, c: seq<Package>, dropped: seq<Package>, issued: seq<Package>)
    requires Accounts(x + y + ([p] + c), dropped, issued)
    ensures Accounts(x + y + c, dropped + [p], issued)
    ensures Sorted(x + y + ([p] + c)) ==> Sorted(x + y + c)
  {
    hide Accounts, Sorted;
    assert x + y + ([p] + c) == (x + y) + [p] + c;
    DeleteAccounts(x + y, [p], c, dropped, issued);
    if Sorted(x + y + ([p] + c)) { SortedDelete(x + y, [p], c); }
  }

  lemma {:induction false} PassLow(x: seq<Package>, h: seq<Package>, l: seq<Package>, p: Package, c: seq<Package>, dropped: seq<Package>, issued: seq<Package>)
    requires Accounts(x + (h + l) + ([p] + c), dropped, issued)
    requires forall i :: 0 <= i < |l| ==> l[i].priority != p.priority
    ensures Accounts(x + ((h + [p]) + l) + c, dropped, issued)
    ensures Sorted(x + (h + l) + ([p] + c)) ==> Sorted(x + ((h + [p]) + l) + c)
  {
    hide Accounts, Sorted;
    assert x + (h + l) + ([p] + c) == (x + h) + l + ([p] + c);
    assert x + ((h + [p]) + l) + c == (x + h) + [p] + (l + c);
    MoveAccounts(x + h, l, p, c, dropped, issued);
    if Sorted(x + (h + l) + ([p] + c)) { SortedMove(x + h, l, p, c); }
  }

  lemma {:induction false} JoinLow(x: seq<Package>, h: seq<Package>, l: seq<Package>, p: Package, c: seq<Package>)
    ensures x + (h + (l + [p])) + c == x + (h + l) + ([p] + c)
  {
  }

  lemma {:induction false} TakenLine(st: State, st': State, x: seq<Package>, h: seq<Package>, l: seq<Package>, p: Package, c: seq<Package>)
    requires Taken(st, st') && x == st.done + DirectPkgs(st) && h == Pkgs(st.high) && l == Pkgs(st.low)
    requires p == st.pipe[0].pkg && c == PipePkgs(st'.pipe)
    ensures Line(st) == x + (h + l) + ([p] + c)
    ensures st'.dropped == st.dropped + [p] ==> Line(st') == x + (h + l) + c
    ensures st'.dropped == st.dropped && st'.high != st.high ==> Line(st') == x + ((h + [p]) + l) + c
    ensures st'.dropped == st.dropped && st'.high == st.high ==> Line(st') == x + (h + (l + [p])) + c
  {
    assert DirectPkgs(st') == DirectPkgs(st);
    hide Line, PipePkgs, Pkgs, Rest, DirectPkgs;
    LineParts(st);
    LineParts(st');
    PkgsOne(st.high, p);
    PkgsOne(st.low, p);
  }

  lemma {:induction false} TakenConserves(st: State, st': State)
    requires Conserved(st) && Taken(st, st') && AllLow(st.low)
    ensures Conserved(st') && (InOrder(st) ==> InOrder(st'))
  {
    PkgsPriority(st.low);
    NoPkgs();
    hide Line, PipePkgs, Accounts, Sorted, Pkgs, Rest, AllLow, DirectPkgs;
    var p, c, x := st.pipe[0].pkg, PipePkgs(st'.pipe), st.done + DirectPkgs(st);
    var h, l := Pkgs(st.high), Pkgs(st.low);
    TakenLine(st, st', x, h, l, p, c);
    if st'.dropped != st.dropped {
      DropHead(x, h + l, p, c, st.dropped, st.issued);
    } else if st'.high != st.high {
      PassLow(x, h, l, p, c, st.dropped, st.issued);
    } else {
      JoinLow(x, h, l, p, c);
    }
  }

  /** `st'` is `st` after a write event. */
  ghost predicate WroteOut(st: State, m: State, st': State) {
    && Good(m) && Pack(m) == st.done + DirectPkgs(st) + Pkgs(st.high) + Pkgs(st.low) && m.dropped == st.dropped
    && st'.senders == st.senders && st'.lock == st.lock && st'.pipe == st.pipe && st'.issued == st.issued
    && st'.sock == st.sock && Alive(st) && st.lock.None?
    && if st'.kind.Invalid? then Closed(m, st')
       else Good(st') && Pack(st') == Pack(m) && st'.dropped == st.dropped
  }

  lemma {:induction false} DirectTaken(st: State)
    requires ListsInv(st) && Alive(st) && LifeInv(st)
    ensures var st0 := TakeDirect(st);
            && Good(st0) && Pack(st0) == st.done + DirectPkgs(st) + Pkgs(st.high) + Pkgs(st.low)
            && st0.dropped == st.dropped && !st0.kind.Invalid?
  {
    if st.dw.Some? {
      var st0, d := TakeDirect(st), st.dw.value;
      assert ([d] + st.high)[1..] == st.high;
      assert st.done + ([d.pkg] + Pkgs(st.high)) + Pkgs(st.low) == st.done + [d.pkg] + Pkgs(st.high) + Pkgs(st.low);
    } else {
      assert st.done + [] + Pkgs(st.high) + Pkgs(st.low) == st.done + Pkgs(st.high) + Pkgs(st.low);
    }
  }

  lemma {:induction false} WriteFields(st: State, a: Action) returns (m: State)
    requires Enabled(st, a) && a.WriteReady? && ListsInv(st) && LifeInv(st)
    ensures WroteOut(st, m, Step(st, a))
  {
    hide SendBuffer, SendList, Good, Pack, Closed, LifeInv, ListsInv, Pkgs;
    DirectTaken(st);
    var st0 := TakeDirect(st);
    SendBufferPc(st0, a.hs, a.ls);
    m := SendBufferGood(st0, a.hs, a.ls);
  }

  lemma {:induction false} RegroupPack(a: seq<Package>, h: seq<Package>, l: seq<Package>, c: seq<Package>)
    ensures (a + h + l) + c == a + (h + l) + c
    ensures a + [] == a
    ensures a + ([] + []) + c == a + c
  {
  }

  lemma {:induction false} WroteLine(st: State, m: State, st': State, y: seq<Package>, c: seq<Package>)
    requires WroteOut(st, m, st') && y == Pkgs(m.high) + Pkgs(m.low) && c == PipePkgs(st.pipe)
    ensures Line(st) == m.done + y + c
    ensures st'.kind.Invalid? ==> Line(st') == m.done + c && st'.dropped == st.dropped + y
    ensures !st'.kind.Invalid? ==> Line(st') == m.done + y + c && st'.dropped == st.dropped
  {
    NoPkgs();
    assert DirectPkgs(st') == [];
    hide Line, PipePkgs, Pkgs, Rest, Good, Flat, DirectPkgs, Unfinished;
    LineParts(st);
    LineParts(st');
    RegroupPack(st.done + DirectPkgs(st), Pkgs(st.high), Pkgs(st.low), c);
    RegroupPack(m.done, Pkgs(m.high), Pkgs(m.low), c);
    RegroupPack(st'.done, Pkgs(st'.high), Pkgs(st'.low), c);
  }

  lemma {:induction false} WroteConserves(st: State, m: State, st': State)
    requires Conserved(st) && WroteOut(st, m, st')
    ensures Conserved(st') && (InOrder(st) ==> InOrder(st'))
  {
    var c, y := PipePkgs(st.pipe), Pkgs(m.high) + Pkgs(m.low);
    WroteLine(st, m, st', y, c);
    hide Line, PipePkgs, Accounts, Sorted, Pkgs, Good, Closed, Pack;
    if st'.kind.Invalid? {
      DeleteAccounts(m.done, y, c, st.dropped, st.issued);
      if InOrder(st) { SortedDelete(m.done, y, c); }
    }
  }
}
