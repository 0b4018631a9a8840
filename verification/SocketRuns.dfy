/**
 Whole runs of one TCP socket of skynet (socket_server.c): what every interleaving of senders and
 socket thread keeps, and the one window in which framing can be lost.
 */
module SocketRuns {
  import opened Counting
  import opened Wrappers
  import opened SocketServer
  import opened SocketSend

  // ---- Each kind of step keeps the data invariant ----

  /** What a sender's step does to the lock and to what the sender knows. */
  ghost predicate LockMove(st: State, st': State, t: Tid) {
    && t in st.senders && t in st'.senders && st'.senders == st.senders[t := st'.senders[t]]
    && st'.high == st.high && st'.dw == st.dw && st'.kind == st.kind
    && (st'.lock == st.lock || (st.lock.None? && st'.lock == Some(t)) || (st.lock == Some(t) && st'.lock.None?))
    && var pc, pc' := st.senders[t], st'.senders[t];
       && (HoldsLock(pc') <==> st'.lock == Some(t))
       && (PastHigh(pc') ==> PastHigh(pc) || st.high == [])
       && (PastDirect(pc') ==> PastDirect(pc) || st.dw.None?)
       && (pc'.SawHalf? ==> st.kind.HalfWrite?)
       && (pc'.Direct? ==> st.kind.Connected?)
  }

  /** The reads of the second test. */
  predicate Tests(a: Action) {
    a.ReadHigh? || a.ReadLow? || a.ReadDirect? || a.ReadSending? || a.ReadHalf? || a.ReadType?
  }

  lemma {:induction false} TestLockMove(st: State, a: Action)
    requires Enabled(st, a) && Sender(st, a) && Tests(a)
    requires HoldsLock(st.senders[a.t]) <==> st.lock == Some(a.t)
    requires st.senders[a.t].SawHalf? ==> st.kind.HalfWrite?
    ensures LockMove(st, Step(st, a), a.t)
  {
    hide SendBuffer, FreeLists, Shut, Append, TakeDirect, Cells;
  }

  lemma {:induction false} OtherLockMove(st: State, a: Action)
    requires Enabled(st, a) && Quiet(st, a) && Sender(st, a) && !Tests(a)
    requires HoldsLock(st.senders[a.t]) <==> st.lock == Some(a.t)
    ensures LockMove(st, Step(st, a), a.t)
  {
    hide SendBuffer, FreeLists, Shut, Append, TakeDirect, Cells;
  }

  lemma {:induction false} SenderLockMove(st: State, a: Action)
    requires Enabled(st, a) && Quiet(st, a) && Sender(st, a)
    requires HoldsLock(st.senders[a.t]) <==> st.lock == Some(a.t)
    requires st.senders[a.t].SawHalf? ==> st.kind.HalfWrite?
    ensures LockMove(st, Step(st, a), a.t)
  {
    hide Step, Quiet, LockMove, Tests;
    if Tests(a) { TestLockMove(st, a); } else { OtherLockMove(st, a); }
  }

  lemma {:induction false} LockMoveKeeps(st: State, st': State, t: Tid)
    requires LockInv(st) && LockMove(st, st', t)
    ensures LockInv(st')
  {
    hide HoldsLock, PastHigh, PastDirect;
  }

  lemma {:induction false} SenderLock(st: State, a: Action)
    requires LockInv(st) && Enabled(st, a) && Quiet(st, a) && Sender(st, a)
    ensures LockInv(Step(st, a))
  {
    SenderLockMove(st, a);
    LockMoveKeeps(st, Step(st, a), a.t);
    hide Step, LockInv, LockMove;
  }

  lemma {:induction false} SocketQuiet(st: State, a: Action)
    requires Enabled(st, a) && Quiet(st, a) && !Sender(st, a)
    ensures Step(st, a).senders == st.senders && Step(st, a).lock == st.lock
  {
    hide SendBuffer, FreeLists, Shut, Append;
  }

  lemma {:induction false} QuietLock(st: State, a: Action)
    requires LockInv(st) && Enabled(st, a) && Quiet(st, a) && Untouched(st, Step(st, a))
    ensures LockInv(Step(st, a))
  {
    if Sender(st, a) {
      hide Step, Enabled, Quiet, LockInv, Untouched;
      SenderLock(st, a);
    } else {
      SocketQuiet(st, a);
      UntouchedFields(st, Step(st, a));
      hide Step, Enabled, Quiet, Untouched;
    }
  }

  lemma {:induction false} UntouchedFields(st: State, st': State)
    requires Untouched(st, st')
    ensures st'.high == st.high && st'.dw == st.dw && st'.kind.Invalid? == st.kind.Invalid?
  {
  }

  lemma {:induction false} QuietData(st: State, st': State)
    requires DataInv(st) && Untouched(st, st') && LockInv(st')
    ensures DataInv(st') && (Framed(st') <==> Framed(st))
  {
    hide LockInv;
  }

  lemma {:induction false} TornData(st: State, st': State)
    requires DataInv(st) && Torn(st, st')
    ensures DataInv(st') && Framed(st')
  {
    hide Flat, Pkgs;
    if st.high != [] {
      assert st.high[0].pkg in Pkgs(st.high) by { PkgsHead(st.high); }
    }
  }

  lemma {:induction false} PkgsHead(list: seq<WriteBuffer>)
    requires list != []
    ensures list[0].pkg in Pkgs(list)
  {
  }

  lemma {:induction false} FinishedData(st: State, st': State)
    requires DataInv(st) && Finished(st, st')
    ensures DataInv(st') && (Framed(st) ==> Framed(st'))
  {
    hide Flat;
  }

  lemma {:induction false} RequestData(st: State, a: Action)
    requires DataInv(st) && Enabled(st, a) && a.SendRequest?
    ensures DataInv(Step(st, a)) && (Framed(st) <==> Framed(Step(st, a)))
  {
    RequestFields(st, a);
    assert st.senders[a.t].Piping?;
    hide Step, Enabled, Flat, PipePkgs;
  }

  lemma {:induction false} TakenData(st: State, st': State)
    requires DataInv(st) && Taken(st, st')
    ensures DataInv(st') && (Framed(st) <==> Framed(st'))
  {
    var p := st.pipe[0].pkg;
    PkgsOne(st.high, p);
    PkgsOne(st.low, p);
    hide Flat, Pkgs, PipePkgs, Bytes;
    AppendedUnsent(st.high, p);
    AppendedUnsent(st.low, p);
  }

  lemma {:induction false} AppendedUnsent(list: seq<WriteBuffer>, p: Package)
    ensures HeadOnly(list) ==> HeadOnly(list + [WriteBuffer(p, 0)])
    ensures Unsent(list) ==> Unsent(list + [WriteBuffer(p, 0)])
    ensures Begun(list + [WriteBuffer(p, 0)]) == Begun(list)
  {
    var one := [WriteBuffer(p, 0)];
    if list != [] {
      assert (list + one)[1..] == list[1..] + one;
    } else {
      assert list + one == one;
    }
  }

  lemma {:induction false} WroteData(st: State, m: State, st': State)
    requires DataInv(st) && WroteOut(st, m, st')
    ensures DataInv(st') && Framed(st')
  {
    hide Flat, Pkgs, PipePkgs, Bytes;
    if m.high != [] {
      PkgsHead(m.high);
    }
  }

  // ---- Framing across a direct write ----

  /** A direct write that puts bytes behind a package which the closing of the socket cut short. */
  ghost predicate Garbles(st: State, a: Action) {
    a.WriteDirect? && a.n > 0 && st.cut.Some?
  }

  lemma {:induction false} DirectFramed(st: State, a: Action, p: Package)
    requires DataInv(st) && Enabled(st, a) && a.WriteDirect? && st.dw.None? && Unsent(st.high)
    requires p == NewPackage(st, a.t, High, st.senders[a.t].data)
    requires Framed(st) && !Garbles(st, a)
    ensures Framed(Step(st, a))
  {
    DirectFields(st, a);
    UnsentIsHeadOnly(st.high);
    FlatOne(st.done, p);
    hide Step, Enabled, Flat, LockInv, ListsInv;
    var st' := Step(st, a);
    if st.cut.Some? {
      assert Cells(p, 0, a.n) == [];
      assert st'.wire == st.wire;
    } else {
      assert Unfinished(st) == [] && st.wire == Flat(st.done);
    }
  }

  lemma {:induction false} FlatOne(ps: seq<Package>, p: Package)
    ensures Flat(ps + [p]) == Flat(ps) + Cells(p, 0, |p.data|)
  {
    FlatAppend(ps, [p]);
    assert [p][1..] == [];
    assert Flat([p]) == Cells(p, 0, |p.data|) + Flat([]);
  }

  lemma {:induction false} DirectGarbled(st: State, a: Action, p: Package)
    requires DataInv(st) && Conserved(st) && Enabled(st, a) && Garbles(st, a) && st.dw.None? && Framed(st)
    requires p == NewPackage(st, a.t, High, st.senders[a.t].data)
    ensures !Framed(Step(st, a))
  {
    DirectFields(st, a);
    FlatOne(st.done, p);
    LineIsOlder(Line(st), st.dropped, st.issued);
    assert st.cut.value.pkg != p && st.cut.value.sent > 0;
    hide Step, Enabled, Flat, LockInv, ListsInv, Accounts, Line;
    var st' := Step(st, a);
    if a.n == |p.data| {
      var k := |Flat(st.done)|;
      assert st'.wire[k] == Cell(st.cut.value.pkg, 0);
      assert (Flat(st'.done) + Unfinished(st'))[k] == Cell(p, 0);
    }
  }

  lemma {:induction false} DirectData(st: State, a: Action)
    requires DataInv(st) && Conserved(st) && Enabled(st, a) && a.WriteDirect?
    ensures DataInv(Step(st, a)) && st.dw.None?
    ensures Framed(st) ==> (Framed(Step(st, a)) <==> !Garbles(st, a))
  {
    assert LockInv(st) && st.senders[a.t].Direct? && HoldsLock(st.senders[a.t]);
    assert st.dw.None? && Unsent(st.high) && st.lock == Some(a.t) && !st.kind.Invalid?;
    var p := NewPackage(st, a.t, High, st.senders[a.t].data);
    DirectFields(st, a);
    if Framed(st) {
      if Garbles(st, a) { DirectGarbled(st, a, p); } else { DirectFramed(st, a, p); }
    }
    DirectLock(st, a);
    hide Step, Enabled, Flat, Conserved, Cells, LockInv, Garbles;
  }

  lemma {:induction false} DirectLock(st: State, a: Action)
    requires LockInv(st) && Enabled(st, a) && a.WriteDirect? && st.dw.None? && st.lock == Some(a.t)
    ensures LockInv(Step(st, a))
  {
    DirectFields(st, a);
    hide Step, Enabled;
  }

  // ---- Requests under way are counted ----

  ghost function Pipers(senders: map<Tid, Pc>): set<Tid> {
    set t | t in senders && senders[t].Piping?
  }

  /** `sending` counts the requests of senders about to write to the pipe, in the pipe, and taken from
      it but not yet discounted. */
  ghost predicate CountInv(st: State) {
    st.sending == |Pipers(st.senders)| + |PipePkgs(st.pipe)| + Bit(st.sock.Counting?)
  }

  lemma {:induction false} PipersMove(senders: map<Tid, Pc>, t: Tid, pc: Pc)
    requires t in senders
    ensures |Pipers(senders[t := pc])| == |Pipers(senders)| - Bit(senders[t].Piping?) + Bit(pc.Piping?)
  {
    var a, b := Pipers(senders), Pipers(senders[t := pc]);
    SameBut(a, b, t);
  }

  lemma {:induction false} SenderCount(st: State, a: Action)
    requires CountInv(st) && Enabled(st, a) && Sender(st, a)
    ensures CountInv(Step(st, a))
  {
    hide SendBuffer, Pipers, PipePkgs, Pkgs, FreeLists, Shut, Append, TakeDirect, Cells, HoldsLock;
    var st' := Step(st, a);
    PipersMove(st.senders, a.t, st'.senders[a.t]);
    assert st'.senders == st.senders[a.t := st'.senders[a.t]];
    if |st'.pipe| > |st.pipe| {
      PipeAppend(st.pipe, st'.pipe[|st.pipe|]);
    }
  }

  lemma {:induction false} SocketCount(st: State, a: Action)
    requires CountInv(st) && Enabled(st, a) && !Sender(st, a)
    ensures CountInv(Step(st, a))
  {
    hide SendBuffer, Pipers, PipePkgs, Pkgs;
    var st' := Step(st, a);
    if a.WriteReady? {
      SendBufferPc(TakeDirect(st), a.hs, a.ls);
    } else if a.Control? {
      PipeAppend(st.pipe, a.r);
    } else if st.pipe != [] {
      PipeTake(st.pipe);
    }
  }

  lemma {:induction false} KeepsCount(st: State, a: Action)
    requires CountInv(st) && Enabled(st, a)
    ensures CountInv(Step(st, a))
  {
    hide Step, Enabled, CountInv;
    if Sender(st, a) { SenderCount(st, a); } else { SocketCount(st, a); }
  }

  // ---- A sender never overtakes itself ----

  /** Its first test of `sending` came after its earlier requests had left the pipe, and its later test
      of the lists after they had left those too. */
  predicate PastPipe(pc: Pc) {
    pc.Passed? || HoldsLock(pc)
  }

  ghost predicate NoneOf(ps: seq<Package>, t: Tid) {
    forall i :: 0 <= i < |ps| ==> ps[i].owner != t
  }

  ghost predicate OwnInv(senders: map<Tid, Pc>, high: seq<Package>, low: seq<Package>, pipe: seq<Package>) {
    forall t :: t in senders ==>
      && (PastPipe(senders[t]) ==> NoneOf(pipe, t))
      && (PastHigh(senders[t]) ==> NoneOf(high, t))
      && (PastLow(senders[t]) ==> NoneOf(low, t))
  }

  ghost predicate Own(st: State) {
    OwnInv(st.senders, Pkgs(st.high), Pkgs(st.low), PipePkgs(st.pipe))
  }

  lemma {:induction false} SenderMoves(st: State, a: Action)
    requires Enabled(st, a) && Sender(st, a) && Quiet(st, a) && (st.senders[a.t].SawHalf? ==> st.kind.HalfWrite?)
    ensures var senders, pc, pc' := Step(st, a).senders, st.senders[a.t], Step(st, a).senders[a.t];
            && senders == st.senders[a.t := pc']
            && (PastPipe(pc') ==> PastPipe(pc) || st.sending == 0)
            && (PastHigh(pc') ==> PastHigh(pc) || st.high == [])
            && (PastLow(pc') ==> PastLow(pc) || st.low == [])
  {
    hide SendBuffer, FreeLists, Shut, Append, TakeDirect, Cells;
  }

  lemma {:induction false} SenderOwn(st: State, a: Action)
    requires Own(st) && LockInv(st) && CountInv(st) && Enabled(st, a) && Sender(st, a) && Quiet(st, a)
    ensures Own(Step(st, a))
  {
    SenderMoves(st, a);
    QuietLine(st, a);
    hide Step, Enabled, Quiet, PipePkgs, Pipers, Pkgs, NoneOf, LockInv;
    NoneOwned(a.t);
    NoPkgs();
    MovedOwn(st.senders, Pkgs(st.high), Pkgs(st.low), PipePkgs(st.pipe), a.t, Step(st, a).senders[a.t]);
  }

  lemma {:induction false} NoneOwned(t: Tid)
    ensures NoneOf([], t)
  {
  }

  lemma {:induction false} MovedOwn(senders: map<Tid, Pc>, high: seq<Package>, low: seq<Package>, pipe: seq<Package>, t: Tid, pc: Pc)
    requires OwnInv(senders, high, low, pipe) && t in senders
    requires PastPipe(pc) ==> NoneOf(pipe, t)
    requires PastHigh(pc) ==> NoneOf(high, t)
    requires PastLow(pc) ==> NoneOf(low, t)
    ensures OwnInv(senders[t := pc], high, low, pipe)
  {
  }

  lemma {:induction false} SocketOwnQuiet(st: State, a: Action)
    requires Own(st) && Enabled(st, a) && !Sender(st, a) && Quiet(st, a)
    ensures Own(Step(st, a))
  {
    QuietLine(st, a);
    SocketQuiet(st, a);
    hide Step, Enabled, Quiet, PipePkgs, Pkgs, OwnInv;
  }

  lemma {:induction false} QuietOwn(st: State, a: Action)
    requires Own(st) && LockInv(st) && CountInv(st) && Enabled(st, a) && Quiet(st, a)
    ensures Own(Step(st, a))
  {
    hide Step, Enabled, Quiet, Own, CountInv, LockInv;
    if Sender(st, a) { SenderOwn(st, a); } else { SocketOwnQuiet(st, a); }
  }

  lemma {:induction false} TakenOwn(st: State, st': State)
    requires Own(st) && Taken(st, st')
    ensures Own(st')
  {
    var p := st.pipe[0].pkg;
    PkgsOne(st.high, p);
    PkgsOne(st.low, p);
    assert PipePkgs(st.pipe)[0] == p;
    hide Pkgs, PipePkgs;
    forall t | t in st'.senders
      ensures PastPipe(st'.senders[t]) ==> NoneOf(PipePkgs(st'.pipe), t)
      ensures PastHigh(st'.senders[t]) ==> NoneOf(Pkgs(st'.high), t)
      ensures PastLow(st'.senders[t]) ==> NoneOf(Pkgs(st'.low), t)
    {
      if PastPipe(st.senders[t]) {
        NoneTail(PipePkgs(st.pipe), t);
        assert PipePkgs(st'.pipe) == PipePkgs(st.pipe)[1..];
      }
    }
  }

  lemma {:induction false} NoneTail(ps: seq<Package>, t: Tid)
    requires ps != [] && NoneOf(ps, t)
    ensures NoneOf(ps[1..], t)
  {
  }

  lemma {:induction false} RequestOwn(st: State, a: Action)
    requires Own(st) && Enabled(st, a) && a.SendRequest?
    ensures Own(Step(st, a))
  {
    RequestFields(st, a);
    hide Step, Enabled, PipePkgs, Pkgs;
  }

  lemma {:induction false} DirectOwn(st: State, a: Action)
    requires Own(st) && Enabled(st, a) && a.WriteDirect? && st.dw.None?
    ensures Own(Step(st, a)) && !Overtakes(st, a)
  {
    DirectFields(st, a);
    assert st.senders[a.t].Direct?;
    hide Step, Enabled, PipePkgs, Pkgs;
    assert Rest(st) == Pkgs(st.high) + Pkgs(st.low) + PipePkgs(st.pipe);
    assert NoneOf(Pkgs(st.high), a.t) && NoneOf(Pkgs(st.low), a.t) && NoneOf(PipePkgs(st.pipe), a.t);
  }

  lemma {:induction false} TornOwn(st: State, st': State)
    requires Own(st) && Torn(st, st')
    ensures Own(st')
  {
    NoPkgs();
    hide PipePkgs, Pkgs;
  }

  lemma {:induction false} FinishedOwn(st: State, st': State)
    requires Own(st) && Finished(st, st')
    ensures Own(st')
  {
    hide PipePkgs, Pkgs, OwnInv;
  }

  lemma {:induction false} WroteOwn(st: State, m: State, st': State)
    requires Own(st) && LockInv(st) && WroteOut(st, m, st')
    ensures Own(st')
  {
    hide PipePkgs, Pkgs, Good, Pack, Closed;
  }

  // ---- All together ----

  ghost predicate Inv(st: State) {
    DataInv(st) && Conserved(st) && InOrder(st) && CountInv(st) && Own(st)
  }

  /** A step keeps the invariant, and framing unless it garbles. */
  ghost predicate Keeps(st: State, a: Action)
    requires Enabled(st, a)
  {
    Inv(Step(st, a)) && (Framed(st) ==> (Framed(Step(st, a)) <==> !Garbles(st, a)))
  }

  lemma {:induction false} KeepsDirect(st: State, a: Action)
    requires Inv(st) && Enabled(st, a) && a.WriteDirect?
    ensures Keeps(st, a)
  {
    KeepsCount(st, a);
    assert ListsInv(st) && LifeInv(st) && LockInv(st) && AllLow(st.low);
    hide Step, Enabled, DataInv, ListsInv, LifeInv, LockInv, Conserved, InOrder, CountInv, Own, Framed,
         Untouched, Torn, Finished, Taken, WroteOut, Tears, Quiet, AllLow, Overtakes;
    var st' := Step(st, a);
    DirectData(st, a);
    DirectConserves(st, a);
    DirectOwn(st, a);
  }

  lemma {:induction false} KeepsRequest(st: State, a: Action)
    requires Inv(st) && Enabled(st, a) && a.SendRequest?
    ensures Keeps(st, a)
  {
    KeepsCount(st, a);
    assert ListsInv(st) && LifeInv(st) && LockInv(st) && AllLow(st.low);
    hide Step, Enabled, DataInv, ListsInv, LifeInv, LockInv, Conserved, InOrder, CountInv, Own, Framed,
         Untouched, Torn, Finished, Taken, WroteOut, Tears, Quiet, AllLow, Overtakes;
    var st' := Step(st, a);
    RequestData(st, a);
    RequestConserves(st, a);
    RequestOwn(st, a);
  }

  lemma {:induction false} KeepsTake(st: State, a: Action)
    requires Inv(st) && Enabled(st, a) && a.TakeSend?
    ensures Keeps(st, a)
  {
    KeepsCount(st, a);
    assert ListsInv(st) && LifeInv(st) && LockInv(st) && AllLow(st.low);
    hide Step, Enabled, DataInv, ListsInv, LifeInv, LockInv, Conserved, InOrder, CountInv, Own, Framed,
         Untouched, Torn, Finished, Taken, WroteOut, Tears, Quiet, AllLow, Overtakes;
    var st' := Step(st, a);
    TakeFields(st, a);
    TakenData(st, st');
    TakenConserves(st, st');
    TakenOwn(st, st');
  }

  lemma {:induction false} KeepsWrite(st: State, a: Action)
    requires Inv(st) && Enabled(st, a) && a.WriteReady?
    ensures Keeps(st, a)
  {
    KeepsCount(st, a);
    assert ListsInv(st) && LifeInv(st) && LockInv(st) && AllLow(st.low);
    hide Step, Enabled, DataInv, ListsInv, LifeInv, LockInv, Conserved, InOrder, CountInv, Own, Framed,
         Untouched, Torn, Finished, Taken, WroteOut, Tears, Quiet, AllLow, Overtakes;
    var st' := Step(st, a);
    var m := WriteFields(st, a);
    WroteData(st, m, st');
    WroteConserves(st, m, st');
    WroteOwn(st, m, st');
  }

  lemma {:induction false} KeepsFinish(st: State, a: Action)
    requires Inv(st) && Enabled(st, a) && a.FinishClose?
    ensures Keeps(st, a)
  {
    KeepsCount(st, a);
    assert ListsInv(st) && LifeInv(st) && LockInv(st) && AllLow(st.low);
    hide Step, Enabled, DataInv, ListsInv, LifeInv, LockInv, Conserved, InOrder, CountInv, Own, Framed,
         Untouched, Torn, Finished, Taken, WroteOut, Tears, Quiet, AllLow, Overtakes;
    var st' := Step(st, a);
    FinishFields(st, a);
    FinishedData(st, st');
    FinishedConserves(st, st');
    FinishedOwn(st, st');
  }

  lemma {:induction false} KeepsTearing(st: State, a: Action)
    requires Inv(st) && Enabled(st, a) && !a.WriteDirect? && Tears(st, a)
    ensures Keeps(st, a)
  {
    KeepsCount(st, a);
    assert ListsInv(st) && LifeInv(st) && LockInv(st) && AllLow(st.low);
    hide Step, Enabled, DataInv, ListsInv, LifeInv, LockInv, Conserved, InOrder, CountInv, Own, Framed,
         Untouched, Torn, Finished, Taken, WroteOut, Tears, Quiet, AllLow, Overtakes;
    var st' := Step(st, a);
    TearsLine(st, a);
    TornData(st, st');
    TornConserves(st, st');
    TornOwn(st, st');
  }

  lemma {:induction false} KeepsQuiet(st: State, a: Action)
    requires Inv(st) && Enabled(st, a) && Quiet(st, a)
    ensures Keeps(st, a)
  {
    KeepsCount(st, a);
    assert ListsInv(st) && LifeInv(st) && LockInv(st) && AllLow(st.low);
    hide Step, Enabled, DataInv, ListsInv, LifeInv, LockInv, Conserved, InOrder, CountInv, Own, Framed,
         Untouched, Torn, Finished, Taken, WroteOut, Tears, Quiet, AllLow, Overtakes;
    var st' := Step(st, a);
    QuietLine(st, a);
    QuietLock(st, a);
    QuietData(st, st');
    QuietConserves(st, st');
    QuietOwn(st, a);
  }

  lemma {:induction false} QuietConserves(st: State, st': State)
    requires Conserved(st) && Untouched(st, st')
    ensures Conserved(st') && (InOrder(st) ==> InOrder(st'))
  {
    hide Accounts, Sorted, PipePkgs, Pkgs;
    assert Line(st') == Line(st);
  }

  /** Every step of every thread keeps the invariant. */
  lemma {:induction false} KeepsInv(st: State, a: Action)
    requires Inv(st) && Enabled(st, a)
    ensures Keeps(st, a)
  {
    hide Step, Enabled, Inv, Tears, Keeps;
    if a.WriteDirect? {
      KeepsDirect(st, a);
    } else if a.SendRequest? {
      KeepsRequest(st, a);
    } else if a.TakeSend? {
      KeepsTake(st, a);
    } else if a.WriteReady? {
      KeepsWrite(st, a);
    } else if a.FinishClose? {
      KeepsFinish(st, a);
    } else if Tears(st, a) {
      KeepsTearing(st, a);
    } else {
      KeepsQuiet(st, a);
    }
  }

  lemma {:induction false} StartInv(st: State)
    requires Start(st)
    ensures Inv(st) && Framed(st)
  {
    assert Pipers(st.senders) == {};
  }

  lemma {:induction false} AlwaysInv(run: seq<State>, acts: seq<Action>, i: nat)
    requires Execution(run, acts) && i < |run|
    ensures Inv(run[i])
  {
    hide Inv, Step, Enabled, Framed, Garbles;
    if i > 0 {
      AlwaysInv(run, acts, i - 1);
      KeepsInv(run[i - 1], acts[i - 1]);
    } else {
      StartInv(run[0]);
    }
  }

  // ---- The results ----

  /** In every interleaving: an open socket's wire is whole packages plus at most one unfinished one;
      each sender's packages of one priority keep their order; none is lost or doubled; a write event
      finds no begun package in the low list and, once both lists are written out, nothing left to count,
      as `send_buffer_` asserts, and `dec_sending_ref` finds a count. */
  lemma {:induction false} SendSafety(run: seq<State>, acts: seq<Action>, i: nat)
    requires Execution(run, acts) && i < |run|
    ensures var st := run[i];
            && (Alive(st) ==> Framed(st))
            && InOrder(st) && Conserved(st)
            && (st.low != [] ==> st.low[0].sent == 0)
            && (Alive(st) ==> st.wbSize == Bytes(st.high) + Bytes(st.low))
            && (Alive(st) && SendBufferEmpty(st) ==> st.wbSize == 0)
            && (st.sock.Counting? ==> st.sending > 0)
            && (Evented(st) && st.lock.None? ==> forall hs, ls :: FlushAsserts(st, hs, ls))
  {
    AlwaysInv(run, acts, i);
    var st := run[i];
    if Evented(st) && st.lock.None? {
      NoWriteExcluded(st, [], []);
      forall hs, ls ensures FlushAsserts(st, hs, ls) {
        DirectTaken(st);
        FlushAt(TakeDirect(st), hs, ls);
      }
    }
    hide Execution, Framed, Conserved, InOrder, FlushAsserts, TakeDirect;
  }

  /** The assertions at the beginning and at step 4 of `send_buffer_`, whatever the calls of `write`
      return and whether the socket closes then or not. */
  ghost predicate FlushAsserts(st: State, hs: seq<Outcome>, ls: seq<Outcome>) {
    && Writable(st.high) && Writable(st.low) && (st.dw.Some? ==> st.dw.value.Left() >= 0)
    && Writable(TakeDirect(st).high) && Unsent(st.low)
    && (FlushPoint(TakeDirect(st), hs, ls).Some? ==>
          var m := FlushPoint(TakeDirect(st), hs, ls).value; SendBufferEmpty(m) && m.wbSize == 0)
  }

  /** The guards of a write event beyond its being one say nothing new: no run is left out. */
  lemma {:induction false} NoWriteExcluded(st: State, hs: seq<Outcome>, ls: seq<Outcome>)
    requires Inv(st) && Evented(st) && st.lock.None?
    ensures Enabled(st, WriteReady(hs, ls)) && Writable(TakeDirect(st).high)
  {
    HeadOnlyWritable(st.high);
    UnsentIsHeadOnly(st.low);
    HeadOnlyWritable(st.low);
  }

  lemma {:induction false} FramedUntil(run: seq<State>, acts: seq<Action>, i: nat)
    requires Execution(run, acts) && i < |run|
    requires forall k :: 0 <= k < i ==> !Garbles(run[k], acts[k])
    ensures Framed(run[i])
  {
    hide Inv, Step, Enabled, Framed, Garbles;
    if i > 0 {
      FramedUntil(run, acts, i - 1);
      AlwaysInv(run, acts, i - 1);
      KeepsInv(run[i - 1], acts[i - 1]);
    } else {
      StartInv(run[0]);
    }
  }

  /** Framing holds throughout a run exactly when no direct write slips in between the two halves of
      `force_close` after a package was cut short. */
  lemma {:induction false} FramingExact(run: seq<State>, acts: seq<Action>)
    requires Execution(run, acts)
    ensures (forall i :: 0 <= i < |run| ==> Framed(run[i])) <==> (forall i :: 0 <= i < |acts| ==> !Garbles(run[i], acts[i]))
  {
    hide Inv, Step, Enabled, Framed, Garbles;
    if forall i :: 0 <= i < |acts| ==> !Garbles(run[i], acts[i]) {
      forall i | 0 <= i < |run| ensures Framed(run[i]) { FramedUntil(run, acts, i); }
    } else {
      var k :| 0 <= k < |acts| && Garbles(run[k], acts[k]);
      AlwaysInv(run, acts, k);
      KeepsInv(run[k], acts[k]);
      assert Framed(run[k]) ==> !Framed(run[k + 1]);
    }
  }

  // ---- The window is real ----

  lemma {:induction false} Extend(run: seq<State>, acts: seq<Action>, a: Action, next: State) returns (run': seq<State>, acts': seq<Action>)
    requires Execution(run, acts) && Enabled(run[|run| - 1], a) && Step(run[|run| - 1], a) == next
    ensures Execution(run', acts') && |run'| == |run| + 1 && run'[|run| - 1] == run[|run| - 1] && run'[|run|] == next
    ensures acts' == acts + [a]
  {
    hide Start, Enabled, Step;
    run', acts' := run + [next], acts + [a];
  }

  function Opened(): State {
    State(Connected, false, [], [], 0, None, 0, None, [], map[0 := Out], Polling, [], [], None, [], [], [])
  }

  const FIRST: Package := Package(0, Low, 0, [1, 2])

  /** A package of two bytes waits in the high list. */
  function Queued(): State {
    Opened().(high := [WriteBuffer(FIRST, 0)], wbSize := 2, issued := [FIRST])
  }

  /** One of its bytes was written. */
  function HalfWritten(): State {
    Queued().(high := [WriteBuffer(FIRST, 1)], wbSize := 1, wire := [Cell(FIRST, 0)])
  }

  /** A shutdown request freed the lists and the socket thread has not taken the lock yet. */
  function Window(): State {
    HalfWritten().(high := [], dropped := [FIRST], cut := Some(WriteBuffer(FIRST, 1)), sock := Tearing(Some(CloseEvent)))
  }

  function With(st: State, pc: Pc): State {
    st.(senders := map[0 := pc])
  }

  lemma {:induction false} ReachPiping() returns (run: seq<State>, acts: seq<Action>)
    ensures Execution(run, acts) && run[|run| - 1] == With(Opened(), Piping(Low, [1, 2])).(sending := 1)
  {
    run, acts := [Opened()], [];
    assert Execution(run, acts);
    hide Execution;
    var d := [1, 2];
    run, acts := Extend(run, acts, BeginLow(0, d), With(Opened(), Queueing(Low, d)));
    run, acts := Extend(run, acts, IncSending(0), With(Opened(), Piping(Low, d)).(sending := 1));
  }

  lemma {:induction false} ReachQueued() returns (run: seq<State>, acts: seq<Action>)
    ensures Execution(run, acts) && run[|run| - 1] == Queued()
  {
    run, acts := ReachPiping();
    hide Execution;
    run, acts := Extend(run, acts, SendRequest(0), Opened().(sending := 1, issued := [FIRST], pipe := [Send(FIRST)]));
    run, acts := Extend(run, acts, TakeSend, Queued().(sending := 1, sock := Counting));
    run, acts := Extend(run, acts, DecSending, Queued());
  }

  lemma {:induction false} WriteOne()
    ensures Enabled(Queued(), WriteReady([Wrote(1)], []))
    ensures Step(Queued(), WriteReady([Wrote(1)], [])) == HalfWritten()
  {
    assert SendList(Queued().high, [Wrote(1)]).list == [WriteBuffer(FIRST, 1)];
  }

  lemma {:induction false} ReachHalfWritten() returns (run: seq<State>, acts: seq<Action>)
    ensures Execution(run, acts) && run[|run| - 1] == HalfWritten()
  {
    run, acts := ReachQueued();
    WriteOne();
    hide Execution, Step, Enabled, HalfWritten, Queued;
    run, acts := Extend(run, acts, WriteReady([Wrote(1)], []), HalfWritten());
  }

  lemma {:induction false} ReachWindow() returns (run: seq<State>, acts: seq<Action>)
    ensures Execution(run, acts) && run[|run| - 1] == Window()
  {
    run, acts := ReachHalfWritten();
    hide Execution;
    run, acts := Extend(run, acts, Control(Close(true)), HalfWritten().(pipe := [Close(true)]));
    assert Pkgs([WriteBuffer(FIRST, 1)]) == [FIRST] && Pkgs([]) == [];
    run, acts := Extend(run, acts, TakeClose(false), Window());
  }

  lemma {:induction false} ReachLocked() returns (run: seq<State>, acts: seq<Action>)
    ensures Execution(run, acts)
    ensures run[|run| - 1] == With(Window(), Locked([3])).(lock := Some(0))
  {
    run, acts := ReachWindow();
    var d := [3];
    var w := Window();
    hide Execution;
    run, acts := Extend(run, acts, BeginHigh(0, d), With(w, First(d)));
    run, acts := Extend(run, acts, CheckFirst(0, true), With(w, Passed(d)));
    run, acts := Extend(run, acts, TryLock(0, true), With(w, Locked(d)).(lock := Some(0)));
  }

  lemma {:induction false} ReachEmpty() returns (run: seq<State>, acts: seq<Action>)
    ensures Execution(run, acts) && run[|run| - 1] == With(Window(), SawEmpty([3])).(lock := Some(0))
  {
    run, acts := ReachLocked();
    var d := [3];
    var w := Window();
    hide Execution;
    run, acts := Extend(run, acts, ReadHigh(0), With(w, SawHigh(d)).(lock := Some(0)));
    run, acts := Extend(run, acts, ReadLow(0), With(w, SawEmpty(d)).(lock := Some(0)));
  }

  lemma {:induction false} ReachDirect() returns (run: seq<State>, acts: seq<Action>)
    ensures Execution(run, acts) && |run| == |acts| + 1
    ensures run[|run| - 1] == With(Window(), Direct([3])).(lock := Some(0))
  {
    run, acts := ReachEmpty();
    assert |run| == |acts| + 1;
    var d := [3];
    var w := Window();
    hide Execution;
    run, acts := Extend(run, acts, ReadDirect(0), With(w, SawNoDirect(d)).(lock := Some(0)));
    run, acts := Extend(run, acts, ReadSending(0), With(w, SawIdle(d)).(lock := Some(0)));
    run, acts := Extend(run, acts, ReadType(0), With(w, Direct(d)).(lock := Some(0)));
  }

  /** A run in which a sender, seeing the freed lists as empty ones, writes behind the cut package. */
  lemma {:induction false} GarbledRun() returns (run: seq<State>, acts: seq<Action>)
    ensures Execution(run, acts)
    ensures !Framed(run[|run| - 1])
  {
    run, acts := ReachDirect();
    hide Execution;
    var n, a, st := |acts|, WriteDirect(0, 1), run[|run| - 1];
    assert Framed(st) by {
      assert Flat([]) == [] && Cells(FIRST, 0, 1) == [Cell(FIRST, 0)];
    }
    run, acts := Extend(run, acts, a, Step(st, a));
    LastGarbles(run, acts, n);
  }

  lemma {:induction false} LastGarbles(run: seq<State>, acts: seq<Action>, n: nat)
    requires Execution(run, acts) && |acts| == n + 1 && Garbles(run[n], acts[n]) && Framed(run[n])
    ensures !Framed(run[n + 1])
  {
    hide Inv, Step, Enabled, Framed;
    AlwaysInv(run, acts, n);
    KeepsInv(run[n], acts[n]);
  }
}
