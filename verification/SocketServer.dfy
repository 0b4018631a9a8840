/**
 One TCP socket of skynet's socket server (socket_server.c) over its lifetime: the send path with
 its two priority lists and the direct write of foreign threads, and the close state machine.

 The socket thread and any number of sender threads take steps in any order. System calls are
 arguments of the steps: how much a `write` took, what a `read` returned. Sender threads read the
 socket's fields without the socket thread's consent, so under the lock every field that
 `can_direct_write` reads is a step of its own, and so are the two halves of `force_close`, which frees
 the lists before it takes the lock. Of the first test, without the lock, only the read of `sending`
 matters and the others may come out either way.
 */
module SocketServer {

  import opened Wrappers

  type Tid = nat

  datatype Priority = High | Low

  /** A package as it was handed over; `no` counts hand-overs. */
  datatype Package = Package(owner: Tid, priority: Priority, no: nat, data: seq<nat>)

  /** A `write_buffer`: `ptr` is `sent` bytes past `buffer`. */
  datatype WriteBuffer = WriteBuffer(pkg: Package, sent: nat) {
    function Left(): int {
      |pkg.data| - sent
    }
  }

  /** One byte on the wire, with its origin. */
  datatype Cell = Cell(pkg: Package, off: nat)

  datatype Kind = Connecting | PAccept | Connected | Bind | HalfRead | HalfWrite | Invalid

  datatype Event = CloseEvent | DataEvent | ErrEvent | OpenEvent

  datatype Request = Send(pkg: Package) | Trigger | Close(shutdown: bool) | Resume | Pause

  /** A sender inside `socket_server_send` or `socket_server_send_lowpriority`. */
  datatype Pc =
    | Out
    | First(data: seq<nat>)           // about to evaluate `can_direct_write` without the lock
    | Passed(data: seq<nat>)          // it held: about to `socket_trylock`
    | Locked(data: seq<nat>)          // `socket_trylock` succeeded
    | SawHigh(data: seq<nat>)         // the high list was read as empty
    | SawEmpty(data: seq<nat>)        // the low list, too
    | SawNoDirect(data: seq<nat>)     // `dw_buffer` was read as NULL
    | SawIdle(data: seq<nat>)         // `sending` was read as zero: there was no more data
    | NotIdle(data: seq<nat>)         // one of these failed: about to look for HALFCLOSE_WRITE
    | SawHalf(data: seq<nat>)         // `type` was read as that
    | Direct(data: seq<nat>)          // `type` was read as CONNECTED: about to `write`
    | Triggering                      // about to send the 'W' request
    | Queueing(priority: Priority, data: seq<nat>)   // about to `inc_sending_ref`
    | Piping(priority: Priority, data: seq<nat>)     // about to send the 'D' or 'P' request

  datatype SocketPc =
    | Polling
    | Counting                        // request appended or freed: about to `dec_sending_ref`
    | Tearing(event: Option<Event>)   // `force_close` freed the lists and waits for the lock

  datatype State = State(
    kind: Kind, closing: bool,
    high: seq<WriteBuffer>, low: seq<WriteBuffer>, wbSize: int,
    dw: Option<WriteBuffer>,          // dw_buffer, dw_offset
    sending: int,
    lock: Option<Tid>,
    pipe: seq<Request>,
    senders: map<Tid, Pc>, sock: SocketPc,
    // history
    wire: seq<Cell>, done: seq<Package>, cut: Option<WriteBuffer>, dropped: seq<Package>,
    issued: seq<Package>, out: seq<Event>
  )

  // ---- Writing out a list ----

  datatype Outcome = Wrote(n: nat) | Again | Interrupted | Failed

  datatype SendResult = SendResult(list: seq<WriteBuffer>, cells: seq<Cell>, done: seq<Package>, failed: bool)

  function Cells(p: Package, from: nat, n: nat): seq<Cell> {
    seq(n, i requires 0 <= i < n => Cell(p, from + i))
  }

  predicate Writable(list: seq<WriteBuffer>) {
    forall i :: 0 <= i < |list| ==> list[i].Left() >= 0
  }

  /** `send_list_tcp` for the given results of `write`. */
  function SendList(list: seq<WriteBuffer>, ws: seq<Outcome>): SendResult
    requires Writable(list)
    decreases |ws|
  {
    if list == [] || ws == [] then SendResult(list, [], [], false) else
    var wb := list[0];
    match ws[0]
    case Interrupted => SendList(list, ws[1..])
    case Again => SendResult(list, [], [], false)
    case Failed => SendResult(list, [], [], true)
    case Wrote(n) =>
      if n < wb.Left() then
        SendResult([wb.(sent := wb.sent + n)] + list[1..], Cells(wb.pkg, wb.sent, n), [], false)
      else
        var r := SendList(list[1..], ws[1..]);
        r.(cells := Cells(wb.pkg, wb.sent, wb.Left()) + r.cells, done := [wb.pkg] + r.done)
  }

  function Pkgs(list: seq<WriteBuffer>): (ps: seq<Package>)
    ensures |ps| == |list|
  {
    if list == [] then [] else [list[0].pkg] + Pkgs(list[1..])
  }

  function Bytes(list: seq<WriteBuffer>): int {
    if list == [] then 0 else list[0].Left() + Bytes(list[1..])
  }

  function Flat(ps: seq<Package>): seq<Cell> {
    if ps == [] then [] else Cells(ps[0], 0, |ps[0].data|) + Flat(ps[1..])
  }

  /** The bytes of the list's head that are already on the wire. */
  function Begun(list: seq<WriteBuffer>): seq<Cell> {
    if list == [] then [] else Cells(list[0].pkg, 0, list[0].sent)
  }

  ghost predicate Unsent(list: seq<WriteBuffer>) {
    forall i :: 0 <= i < |list| ==> list[i].sent == 0
  }

  /** Only the head may be partly written. */
  ghost predicate HeadOnly(list: seq<WriteBuffer>) {
    list == [] || (0 <= list[0].sent && (list[0].sent == 0 || list[0].sent < |list[0].pkg.data|) && Unsent(list[1..]))
  }

  lemma {:induction false} CellsLength(p: Package, a: nat, n: nat)
    ensures |Cells(p, a, n)| == n
  {
  }

  lemma {:induction false} CellsJoin(p: Package, a: nat, m: nat, n: nat)
    ensures Cells(p, a, m) + Cells(p, a + m, n) == Cells(p, a, m + n)
  {
  }

  lemma {:induction false} FlatAppend(a: seq<Package>, b: seq<Package>)
    ensures Flat(a + b) == Flat(a) + Flat(b)
  {
    if a == [] {
      assert a + b == b;
    } else {
      assert (a + b)[1..] == a[1..] + b;
      FlatAppend(a[1..], b);
    }
  }

  lemma {:induction false} PkgsAppend(a: seq<WriteBuffer>, b: seq<WriteBuffer>)
    ensures Pkgs(a + b) == Pkgs(a) + Pkgs(b)
    ensures Bytes(a + b) == Bytes(a) + Bytes(b)
  {
    if a == [] {
      assert a + b == b;
    } else {
      assert (a + b)[1..] == a[1..] + b;
      PkgsAppend(a[1..], b);
    }
  }

  /** One package written to its end, then the rest of the list. */
  lemma {:induction false} HeadWritten(list: seq<WriteBuffer>, rest: SendResult)
    requires list != [] && list[0].Left() >= 0 && Begun(list[1..]) == []
    requires Begun(list[1..]) + rest.cells == Flat(rest.done) + Begun(rest.list)
    requires Pkgs(list[1..]) == rest.done + Pkgs(rest.list)
    requires Bytes(list[1..]) == |rest.cells| + Bytes(rest.list)
    ensures var wb := list[0];
            var cells, done := Cells(wb.pkg, wb.sent, wb.Left()) + rest.cells, [wb.pkg] + rest.done;
            && Begun(list) + cells == Flat(done) + Begun(rest.list)
            && Pkgs(list) == done + Pkgs(rest.list)
            && Bytes(list) == |cells| + Bytes(rest.list)
  {
    hide *;
    HeadBegun(list);
    Glue(Begun(list), Cells(list[0].pkg, list[0].sent, list[0].Left()), rest.cells,
         Cells(list[0].pkg, 0, |list[0].pkg.data|), Flat(rest.done), Begun(rest.list), Begun(list[1..]));
    FlatCons(list[0].pkg, rest.done);
    PkgsCons(list);
    CellsLength(list[0].pkg, list[0].sent, list[0].Left());
  }

  lemma {:induction false} Glue(b: seq<Cell>, c: seq<Cell>, x: seq<Cell>, full: seq<Cell>, flat: seq<Cell>, begun: seq<Cell>, nil: seq<Cell>)
    requires b + c == full && nil + x == flat + begun && nil == []
    ensures b + (c + x) == (full + flat) + begun
  {
    assert b + (c + x) == (b + c) + x;
    assert nil + x == x;
  }

  lemma {:induction false} FlatCons(p: Package, ps: seq<Package>)
    ensures Flat([p] + ps) == Cells(p, 0, |p.data|) + Flat(ps)
  {
    assert ([p] + ps)[1..] == ps;
  }

  lemma {:induction false} PkgsCons(list: seq<WriteBuffer>)
    requires list != []
    ensures Pkgs(list) == [list[0].pkg] + Pkgs(list[1..])
    ensures Bytes(list) == list[0].Left() + Bytes(list[1..])
  {
  }

  lemma {:induction false} HeadBegun(list: seq<WriteBuffer>)
    requires list != [] && list[0].Left() >= 0
    ensures Begun(list) + Cells(list[0].pkg, list[0].sent, list[0].Left()) == Cells(list[0].pkg, 0, |list[0].pkg.data|)
  {
    CellsJoin(list[0].pkg, 0, list[0].sent, list[0].Left());
  }

  lemma {:induction false} RestUnsent(list: seq<WriteBuffer>)
    requires list != [] && HeadOnly(list)
    ensures HeadOnly(list[1..]) && Begun(list[1..]) == []
  {
  }

  lemma {:induction false} HeadAdvanced(list: seq<WriteBuffer>, n: nat)
    requires list != [] && HeadOnly(list) && n < list[0].Left()
    ensures var wb := list[0];
            var list' := [wb.(sent := wb.sent + n)] + list[1..];
            && HeadOnly(list') && Begun(list) + Cells(wb.pkg, wb.sent, n) == Begun(list')
            && Pkgs(list') == Pkgs(list) && Bytes(list) == n + Bytes(list')
  {
    var wb := list[0];
    CellsJoin(wb.pkg, 0, wb.sent, n);
    assert ([wb.(sent := wb.sent + n)] + list[1..])[1..] == list[1..];
  }

  /** Writing a list out puts whole packages on the wire and at most starts one more; nothing is lost
      and the byte count is kept. */
  lemma {:induction false} SendListFrames(list: seq<WriteBuffer>, ws: seq<Outcome>)
    requires HeadOnly(list) && Writable(list)
    ensures var r := SendList(list, ws);
            && HeadOnly(r.list)
            && Begun(list) + r.cells == Flat(r.done) + Begun(r.list)
            && Pkgs(list) == r.done + Pkgs(r.list)
            && Bytes(list) == |r.cells| + Bytes(r.list)
    decreases |ws|
  {
    hide Cells, Begun, Unsent, HeadOnly;
    if list != [] && ws != [] {
      var wb := list[0];
      match ws[0]
      case Interrupted => SendListFrames(list, ws[1..]);
      case Again =>
      case Failed =>
      case Wrote(n) =>
        if n < wb.Left() {
          HeadAdvanced(list, n);
          hide Pkgs, Bytes;
          var r := SendList(list, ws);
          assert Flat(r.done) + Begun(r.list) == Begun(r.list);
          assert r.done + Pkgs(r.list) == Pkgs(r.list);
          assert |r.cells| == n by { CellsLength(wb.pkg, wb.sent, n); }
        } else {
          RestUnsent(list);
          SendListFrames(list[1..], ws[1..]);
          HeadWritten(list, SendList(list[1..], ws[1..]));
        }
    }
  }

  // ---- The socket thread ----

  function SendBufferEmpty(st: State): bool {
    st.high == [] && st.low == []
  }

  /** What the socket thread's own `nomore_sending_data` may answer. It reads `dw_buffer` and `sending`
      one after the other while senders change them, so only its lists and `type` bind the answer. */
  predicate MayBeIdle(st: State) {
    SendBufferEmpty(st) || st.kind.HalfWrite?
  }

  function Raise(st: State, e: Event): State {
    st.(out := st.out + [e])
  }

  /** First half of `force_close`: both lists are freed, a partly written head with them. */
  function FreeLists(st: State): State {
    st.(high := [], low := [], dropped := st.dropped + Pkgs(st.high) + Pkgs(st.low),
        cut := if st.high != [] && st.high[0].sent > 0 then Some(st.high[0]) else st.cut)
  }

  /** Second half of `force_close`, under the lock. */
  function Shut(st: State): State {
    st.(kind := Invalid, dw := None,
        dropped := st.dropped + if st.dw.Some? then [st.dw.value.pkg] else [],
        cut := if st.dw.Some? && st.dw.value.sent > 0 then Some(st.dw.value) else st.cut)
  }

  function ForceClose(st: State): State {
    Shut(FreeLists(st))
  }

  /** `send_socket` for a TCP socket. */
  function Append(st: State, p: Package): State {
    if st.kind.Invalid? || st.kind.HalfWrite? || st.kind.PAccept? || st.closing then
      st.(dropped := st.dropped + [p])
    else if SendBufferEmpty(st) || p.priority.High? then
      st.(high := st.high + [WriteBuffer(p, 0)], wbSize := st.wbSize + |p.data|)
    else
      st.(low := st.low + [WriteBuffer(p, 0)], wbSize := st.wbSize + |p.data|)
  }

  /** `close_write`, called under the lock after a failed `write`. */
  function CloseWrite(st: State): State {
    if st.closing || st.kind.HalfRead? then ForceClose(st)
    else if st.kind.HalfWrite? then st
    else Raise(st.(kind := HalfWrite), ErrEvent)
  }

  /** The direct write buffer goes before the head of the high list. */
  function TakeDirect(st: State): State {
    if st.dw.None? then st else
    st.(high := [st.dw.value] + st.high, wbSize := st.wbSize + st.dw.value.Left(), dw := None)
  }

  function SendHigh(st: State, ws: seq<Outcome>): State
    requires Writable(st.high)
  {
    var r := SendList(st.high, ws);
    st.(high := r.list, wbSize := st.wbSize - |r.cells|, wire := st.wire + r.cells, done := st.done + r.done)
  }

  function SendLow(st: State, ws: seq<Outcome>): State
    requires Writable(st.low)
  {
    var r := SendList(st.low, ws);
    st.(low := r.list, wbSize := st.wbSize - |r.cells|, wire := st.wire + r.cells, done := st.done + r.done)
  }

  /** A partly written head of the low list moves to the empty high list. */
  function RaiseUncomplete(st: State): State
    requires st.low != []
  {
    st.(high := [st.low[0]], low := st.low[1..])
  }

  /** `send_buffer_`, with the results of its calls of `write` on either list. */
  function SendBuffer(st: State, hs: seq<Outcome>, ls: seq<Outcome>): State
    requires Writable(st.high) && Writable(st.low)
  {
    var s1 := SendHigh(st, hs);
    if SendList(st.high, hs).failed then CloseWrite(s1)
    else if s1.high != [] then s1
    else if s1.low == [] then Flushed(s1)
    else
      var s2 := SendLow(s1, ls);
      if SendList(s1.low, ls).failed then CloseWrite(s2)
      else if s2.low != [] && s2.low[0].sent > 0 then RaiseUncomplete(s2)
      else if s2.low != [] then s2
      else Flushed(s2)
  }

  /** Step 4 of `send_buffer_`: both lists are empty. */
  function Flushed(st: State): State {
    if st.closing then ForceClose(st) else st
  }

  /** The state at step 4 of `send_buffer_`, if it gets there. */
  function FlushPoint(st: State, hs: seq<Outcome>, ls: seq<Outcome>): Option<State>
    requires Writable(st.high) && Writable(st.low)
  {
    var s1 := SendHigh(st, hs);
    if SendList(st.high, hs).failed || s1.high != [] then None
    else if s1.low == [] then Some(s1)
    else
      var s2 := SendLow(s1, ls);
      if SendList(s1.low, ls).failed || s2.low != [] then None else Some(s2)
  }

  // ---- Steps ----

  datatype ReadResult = ReadError | ReadAgain | Eof | Got

  datatype Action =
    // senders
    | BeginHigh(t: Tid, data: seq<nat>)
    | CheckFirst(t: Tid, passes: bool)   // the read of `sending` in the first test
    | TryLock(t: Tid, got: bool)
    | BeginLow(t: Tid, data: seq<nat>)
    | ReadHigh(t: Tid)
    | ReadLow(t: Tid)
    | ReadDirect(t: Tid)
    | ReadSending(t: Tid)
    | ReadHalf(t: Tid)
    | ReadType(t: Tid)
    | WriteDirect(t: Tid, n: nat)
    | SendTrigger(t: Tid)
    | IncSending(t: Tid)
    | SendRequest(t: Tid)
    | Control(r: Request)             // a close, resume or pause request of any thread
    // the socket thread
    | TakeSend
    | DecSending
    | TakeTrigger
    | TakeClose(idle: bool)
    | TakeResume(fails: bool)
    | TakePause(fails: bool)
    | WriteReady(hs: seq<Outcome>, ls: seq<Outcome>)
    | ReadReady(result: ReadResult, idle: bool)
    | ErrorReady
    | EofReady
    | ConnectReady(ok: bool)
    | FinishClose

  predicate HoldsLock(pc: Pc) {
    pc.Locked? || pc.NotIdle? || pc.SawHalf? || PastHigh(pc)
  }

  /** The thread has read the head of the high list as NULL and goes on from there. */
  predicate PastHigh(pc: Pc) {
    pc.SawHigh? || PastLow(pc)
  }

  predicate PastLow(pc: Pc) {
    pc.SawEmpty? || PastDirect(pc)
  }

  predicate PastDirect(pc: Pc) {
    pc.SawNoDirect? || pc.SawIdle? || pc.Direct?
  }

  predicate Sender(st: State, a: Action) {
    && (a.BeginHigh? || a.CheckFirst? || a.TryLock? || a.BeginLow? || a.ReadHigh? || a.ReadLow? || a.ReadDirect? || a.ReadSending?
        || a.ReadHalf? || a.ReadType? || a.WriteDirect? || a.SendTrigger?
        || a.IncSending? || a.SendRequest?)
    && a.t in st.senders
  }

  predicate Next(st: State, f: Request -> bool) {
    st.sock.Polling? && st.pipe != [] && f(st.pipe[0])
  }

  predicate Evented(st: State) {
    st.sock.Polling? && !st.kind.Invalid? && !st.kind.Connecting?
  }

  predicate Enabled(st: State, a: Action) {
    match a
    case BeginHigh(t, _) => Sender(st, a) && st.senders[t].Out?
    case CheckFirst(t, passes) => Sender(st, a) && st.senders[t].First? && (passes ==> st.sending == 0)
    case TryLock(t, got) => Sender(st, a) && st.senders[t].Passed? && (got ==> st.lock.None?)
    case BeginLow(t, _) => Sender(st, a) && st.senders[t].Out?
    case ReadHigh(t) => Sender(st, a) && st.senders[t].Locked?
    case ReadLow(t) => Sender(st, a) && st.senders[t].SawHigh?
    case ReadDirect(t) => Sender(st, a) && st.senders[t].SawEmpty?
    case ReadSending(t) => Sender(st, a) && st.senders[t].SawNoDirect?
    case ReadHalf(t) => Sender(st, a) && st.senders[t].NotIdle?
    case ReadType(t) => Sender(st, a) && (st.senders[t].SawIdle? || st.senders[t].SawHalf?)
    case WriteDirect(t, n) => Sender(st, a) && st.senders[t].Direct? && n <= |st.senders[t].data|
    case SendTrigger(t) => Sender(st, a) && st.senders[t].Triggering?
    case IncSending(t) => Sender(st, a) && st.senders[t].Queueing? && st.sending < 0xFFFF
    case SendRequest(t) => Sender(st, a) && st.senders[t].Piping?
    case Control(r) => r.Close? || r.Resume? || r.Pause?
    case TakeSend => Next(st, (r: Request) => r.Send?)
    case DecSending => st.sock.Counting?
    case TakeTrigger => Next(st, (r: Request) => r.Trigger?)
    case TakeClose(idle) => Next(st, (r: Request) => r.Close?) && (idle ==> MayBeIdle(st)) && (st.kind.HalfWrite? ==> idle)
    case TakeResume(_) => Next(st, (r: Request) => r.Resume?)
    case TakePause(_) => Next(st, (r: Request) => r.Pause?)
    case WriteReady(_, _) => Evented(st) && st.lock.None? && Writable(st.high) && Writable(st.low)
                             && (st.dw.Some? ==> st.dw.value.Left() >= 0)
    case ReadReady(_, idle) => Evented(st) && (idle ==> MayBeIdle(st)) && (st.kind.HalfWrite? ==> idle)
    case ErrorReady => Evented(st)
    case EofReady => Evented(st)
    case ConnectReady(_) => st.sock.Polling? && st.kind.Connecting?
    case FinishClose => st.sock.Tearing? && st.lock.None?
  }

  function Goto(st: State, t: Tid, pc: Pc): State {
    st.(senders := st.senders[t := pc])
  }

  function Unlock(st: State): State {
    st.(lock := None)
  }

  function NewPackage(st: State, t: Tid, pr: Priority, data: seq<nat>): Package {
    Package(t, pr, |st.issued|, data)
  }

  function Step(st: State, a: Action): State
    requires Enabled(st, a)
  {
    match a
    case BeginHigh(t, data) =>
      if st.kind.Invalid? || st.closing then st else Goto(st, t, First(data))
    case CheckFirst(t, passes) =>
      var data := st.senders[t].data;
      Goto(st, t, if passes then Passed(data) else Queueing(High, data))
    case TryLock(t, got) =>
      var data := st.senders[t].data;
      if got then Goto(st.(lock := Some(t)), t, Locked(data)) else Goto(st, t, Queueing(High, data))
    case BeginLow(t, data) =>
      if st.kind.Invalid? then st else Goto(st, t, Queueing(Low, data))
    case ReadHigh(t) =>
      var data := st.senders[t].data;
      Goto(st, t, if st.high == [] then SawHigh(data) else NotIdle(data))
    case ReadLow(t) =>
      var data := st.senders[t].data;
      Goto(st, t, if st.low == [] then SawEmpty(data) else NotIdle(data))
    case ReadDirect(t) =>
      var data := st.senders[t].data;
      Goto(st, t, if st.dw.None? then SawNoDirect(data) else NotIdle(data))
    case ReadSending(t) =>
      var data := st.senders[t].data;
      Goto(st, t, if st.sending == 0 then SawIdle(data) else NotIdle(data))
    case ReadHalf(t) =>
      var data := st.senders[t].data;
      if st.kind.HalfWrite? then Goto(st, t, SawHalf(data)) else Goto(Unlock(st), t, Queueing(High, data))
    case ReadType(t) =>
      var data := st.senders[t].data;
      if st.kind.Connected? then Goto(st, t, Direct(data)) else Goto(Unlock(st), t, Queueing(High, data))
    case WriteDirect(t, n) =>
      var p := NewPackage(st, t, High, st.senders[t].data);
      var st' := Unlock(st.(issued := st.issued + [p], wire := st.wire + Cells(p, 0, n)));
      if n == |p.data| then Goto(st'.(done := st.done + [p]), t, Out)
      else Goto(st'.(dw := Some(WriteBuffer(p, n))), t, Triggering)
    case SendTrigger(t) => Goto(st.(pipe := st.pipe + [Trigger]), t, Out)
    case IncSending(t) =>
      Goto(st.(sending := st.sending + 1), t, Piping(st.senders[t].priority, st.senders[t].data))
    case SendRequest(t) =>
      var p := NewPackage(st, t, st.senders[t].priority, st.senders[t].data);
      Goto(st.(issued := st.issued + [p], pipe := st.pipe + [Send(p)]), t, Out)
    case Control(r) => st.(pipe := st.pipe + [r])
    case TakeSend => Append(st, st.pipe[0].pkg).(pipe := st.pipe[1..], sock := Counting)
    case DecSending => st.(sending := st.sending - 1, sock := Polling)
    case TakeTrigger => st.(pipe := st.pipe[1..])
    case TakeClose(idle) =>
      var st' := st.(pipe := st.pipe[1..]);
      if st.kind.Invalid? then st'
      else if st.pipe[0].shutdown || idle then
        FreeLists(st').(sock := Tearing(if st.kind.HalfRead? then None else Some(CloseEvent)))
      else if st.kind.HalfRead? then st'.(closing := true)
      else Raise(st'.(closing := true, kind := HalfRead), CloseEvent)
    case TakeResume(fails) =>
      var st' := st.(pipe := st.pipe[1..]);
      if st.kind.Invalid? || st.kind.HalfRead? || fails then Raise(st', ErrEvent)
      else if st.kind.PAccept? || st.kind.Connected? then Raise(st'.(kind := Connected), OpenEvent)
      else st'
    case TakePause(fails) =>
      var st' := st.(pipe := st.pipe[1..]);
      if !st.kind.Invalid? && fails then Raise(st', ErrEvent) else st'
    case WriteReady(hs, ls) =>
      assert Writable(TakeDirect(st).high);
      SendBuffer(TakeDirect(st), hs, ls)
    case ReadReady(r, idle) =>
      (match r
       case ReadError => Raise(st, ErrEvent)
       case ReadAgain => st
       case Eof =>
         if st.closing then (if idle then FreeLists(st).(sock := Tearing(None)) else st)
         else if st.kind.HalfRead? then st
         else if st.kind.HalfWrite? then FreeLists(st).(sock := Tearing(Some(CloseEvent)))
         else Raise(st.(kind := HalfRead), CloseEvent)
       case Got => if st.kind.HalfRead? then st else Raise(st, DataEvent))
    case ErrorReady => Raise(st, ErrEvent)
    case EofReady => FreeLists(st).(sock := Tearing(if st.kind.HalfRead? then None else Some(CloseEvent)))
    case ConnectReady(ok) =>
      if ok then Raise(st.(kind := Connected), OpenEvent)
      else FreeLists(st).(sock := Tearing(Some(ErrEvent)))
    case FinishClose =>
      var st' := Shut(st).(sock := Polling);
      if st.sock.event.Some? then Raise(st', st.sock.event.value) else st'
  }

  ghost predicate Start(st: State) {
    && (st.kind.Connecting? || st.kind.PAccept? || st.kind.Connected? || st.kind.Bind?)
    && !st.closing && st.high == [] && st.low == [] && st.wbSize == 0 && st.dw.None?
    && st.sending == 0 && st.lock.None? && st.pipe == [] && st.sock.Polling?
    && (forall t :: t in st.senders ==> st.senders[t].Out?)
    && st.wire == [] && st.done == [] && st.cut.None? && st.dropped == [] && st.issued == [] && st.out == []
  }

  ghost predicate Execution(run: seq<State>, acts: seq<Action>) {
    && |run| == |acts| + 1 && Start(run[0])
    && forall i :: 0 <= i < |acts| ==> Enabled(run[i], acts[i]) && run[i + 1] == Step(run[i], acts[i])
  }
}
