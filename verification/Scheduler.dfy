/**
 Message queues, service contexts and worker threads of skynet (skynet_mq.c, skynet_server.c) as a
 step system. Every spinlock section and every atomic reference update is one step of one thread.

 A service is a context, its entry in the handle table and its message queue. A thread is a worker
 in `skynet_context_message_dispatch`, a sender in `skynet_context_push`, a creator in
 `skynet_context_new` or a caller of `skynet_handle_retire`; what a callback does while its service
 is being dispatched are steps of further threads.
 */
module Scheduler {

  import opened Counting

  type Tid = nat
  type Sid = nat
  type Message = nat

  datatype Service = Service(
    registered: bool,         // in the handle table
    ref: int,                 // context reference count
    msgs: seq<Message>,       // queue contents, oldest first
    inGlobal: bool,
    release: bool,
    freed: bool,
    pushed: seq<Message>,     // everything ever pushed, consumed and dropped
    consumed: seq<Message>,
    dropped: seq<Message>
  )

  /** What a thread does after it gave a context reference back. */
  datatype Cont =
    | Done
    | Hold(q: Sid)            // go on with queue `q`
    | Launch(q: Sid)          // the end of a successful creation
    | Undo(q: Sid)            // `skynet_handle_retire` after a failed creation
    | Discard(q: Sid)         // `skynet_mq_release` after a failed creation

  datatype Pc =
    | Idle
    | Creating(s: Sid)        // service created, its init function running
    | Marking(s: Sid)         // reference given back, about to write `ctx->init`
    | Launching(q: Sid, ret: bool)   // about to `skynet_globalmq_push`; `ret` if a context is to be returned
    | Reporting(s: Sid)       // about to pass the context to `skynet_error`
    | Undoing(q: Sid)
    | Pushing(s: Sid, m: Message)
    | Releasing(s: Sid, k: Cont)
    | Deleting(s: Sid, k: Cont)   // the count reached zero: `delete_context`
    | Holding(q: Sid)         // dispatch entered with a queue in hand
    | Dispatching(q: Sid)     // context grabbed, about to pop a message
    | Serving(q: Sid)         // running the callback
    | LoopDone(q: Sid)
    | Swapping(q: Sid, nq: Sid)   // another queue popped, `q` about to be pushed back
    | Orphan(q: Sid)          // the handle is gone: `skynet_mq_release`
    | Dropping(q: Sid)
    | Freeing(q: Sid)

  datatype State = State(threads: map<Tid, Pc>, services: map<Sid, Service>, global: seq<Sid>)

  function Resume(k: Cont): Pc {
    match k
    case Done => Idle
    case Hold(q) => Holding(q)
    case Launch(q) => Launching(q, false)
    case Undo(q) => Undoing(q)
    case Discard(q) => Orphan(q)
  }

  /** After a release that left other references: the creator goes on to use the context. */
  function Kept(k: Cont): Pc {
    if k.Launch? then Marking(k.q) else Resume(k)
  }

  predicate ContHolds(k: Cont, q: Sid) {
    !k.Done? && k.q == q
  }

  /** The thread has the queue of `q` in hand: no other thread may touch its messages. */
  predicate HoldsQueue(pc: Pc, q: Sid) {
    match pc
    case Creating(s) => s == q
    case Marking(s) => s == q
    case Launching(s, _) => s == q
    case Undoing(s) => s == q
    case Holding(s) => s == q
    case Dispatching(s) => s == q
    case Serving(s) => s == q
    case LoopDone(s) => s == q
    case Swapping(s, ns) => s == q || ns == q
    case Orphan(s) => s == q
    case Dropping(s) => s == q
    case Freeing(s) => s == q
    case Releasing(_, k) => ContHolds(k, q)
    case Deleting(_, k) => ContHolds(k, q)
    case _ => false
  }

  /** The thread owns one reference to the context of `s`. */
  predicate HoldsRef(pc: Pc, s: Sid) {
    match pc
    case Creating(x) => x == s
    case Pushing(x, _) => x == s
    case Releasing(x, _) => x == s
    case Dispatching(x) => x == s
    case Serving(x) => x == s
    case LoopDone(x) => x == s
    case Swapping(x, _) => x == s
    case _ => false
  }

  predicate Deletes(pc: Pc, s: Sid) {
    pc.Deleting? && pc.s == s
  }

  // ---- Steps ----

  datatype Action =
    | Create(t: Tid, s: Sid)          // skynet_context_new up to the init call
    | InitOk(t: Tid)
    | InitFail(t: Tid)
    | MarkInit(t: Tid)
    | PushLaunched(t: Tid)
    | Report(t: Tid)
    | RetireFailed(t: Tid)
    | Retire(t: Tid, s: Sid)          // skynet_handle_retire
    | ReleaseRef(t: Tid)              // skynet_context_release
    | MarkRelease(t: Tid)             // skynet_mq_mark_release
    | SendGrab(t: Tid, s: Sid, m: Message)
    | Push(t: Tid)                    // skynet_mq_push
    | PopGlobal(t: Tid)
    | Grab(t: Tid)                    // skynet_handle_grab in dispatch
    | Pop(t: Tid)                     // skynet_mq_pop in dispatch
    | Served(t: Tid, more: bool)
    | PopNext(t: Tid)
    | PushBack(t: Tid)
    | ReleaseQueue(t: Tid)            // skynet_mq_release
    | DropOne(t: Tid)
    | Free(t: Tid)

  predicate At(st: State, t: Tid, s: Sid) {
    t in st.threads && s in st.services
  }

  predicate Enabled(st: State, a: Action) {
    a.t in st.threads &&
    var pc := st.threads[a.t];
    match a
    case Create(_, s) => pc.Idle? && s !in st.services
    case InitOk(_) => pc.Creating?
    case InitFail(_) => pc.Creating?
    case MarkInit(_) => pc.Marking?
    case PushLaunched(_) => pc.Launching?
    case Report(_) => pc.Reporting?
    case RetireFailed(_) => pc.Undoing? && pc.q in st.services
    case Retire(_, s) => pc.Idle? && s in st.services && st.services[s].registered
    case ReleaseRef(_) => pc.Releasing? && pc.s in st.services
    case MarkRelease(_) => pc.Deleting? && pc.s in st.services
    case SendGrab(_, s, _) => pc.Idle? && s in st.services && st.services[s].registered
    case Push(_) => pc.Pushing? && pc.s in st.services
    case PopGlobal(_) => pc.Idle? && st.global != []
    case Grab(_) => pc.Holding? && pc.q in st.services
    case Pop(_) => pc.Dispatching? && pc.q in st.services
    case Served(_, _) => pc.Serving?
    case PopNext(_) => pc.LoopDone?
    case PushBack(_) => pc.Swapping?
    case ReleaseQueue(_) => pc.Orphan? && pc.q in st.services
    case DropOne(_) => pc.Dropping? && pc.q in st.services
    case Free(_) => pc.Freeing? && pc.q in st.services
  }

  function Goto(st: State, t: Tid, pc: Pc): State {
    st.(threads := st.threads[t := pc])
  }

  function Set(st: State, s: Sid, v: Service): State {
    st.(services := st.services[s := v])
  }

  function Enqueue(st: State, q: Sid): State {
    st.(global := st.global + [q])
  }

  function Step(st: State, a: Action): State
    requires Enabled(st, a)
  {
    var t, pc := a.t, st.threads[a.t];
    match a
    case Create(_, s) =>
      Goto(Set(st, s, Service(true, 2, [], true, false, false, [], [], [])), t, Creating(s))
    case InitOk(_) => Goto(st, t, Releasing(pc.s, Launch(pc.s)))
    case InitFail(_) => Goto(st, t, Releasing(pc.s, Undo(pc.s)))
    case MarkInit(_) => Goto(st, t, Launching(pc.s, true))
    case PushLaunched(_) => Goto(Enqueue(st, pc.q), t, if pc.ret then Reporting(pc.q) else Idle)
    case Report(_) => Goto(st, t, Idle)
    case RetireFailed(_) =>
      var v := st.services[pc.q];
      if v.registered then Goto(Set(st, pc.q, v.(registered := false)), t, Releasing(pc.q, Discard(pc.q)))
      else Goto(st, t, Orphan(pc.q))
    case Retire(_, s) => Goto(Set(st, s, st.services[s].(registered := false)), t, Releasing(s, Done))
    case ReleaseRef(_) =>
      var v := st.services[pc.s];
      var st' := Set(st, pc.s, v.(ref := v.ref - 1));
      if v.ref == 1 then Goto(st', t, Deleting(pc.s, pc.k)) else Goto(st', t, Kept(pc.k))
    case MarkRelease(_) =>
      var v := st.services[pc.s];
      var st' := Goto(Set(st, pc.s, v.(release := true)), t, Resume(pc.k));
      if v.inGlobal then st' else Enqueue(st', pc.s)
    case SendGrab(_, s, m) =>
      var v := st.services[s];
      Goto(Set(st, s, v.(ref := v.ref + 1)), t, Pushing(s, m))
    case Push(_) =>
      var v := st.services[pc.s];
      var v' := v.(msgs := v.msgs + [pc.m], pushed := v.pushed + [pc.m], inGlobal := true);
      var st' := Goto(Set(st, pc.s, v'), t, Releasing(pc.s, Done));
      if v.inGlobal then st' else Enqueue(st', pc.s)
    case PopGlobal(_) => Goto(st.(global := st.global[1..]), t, Holding(st.global[0]))
    case Grab(_) =>
      var v := st.services[pc.q];
      if v.registered then Goto(Set(st, pc.q, v.(ref := v.ref + 1)), t, Dispatching(pc.q))
      else Goto(st, t, Orphan(pc.q))
    case Pop(_) =>
      var v := st.services[pc.q];
      if v.msgs != [] then
        Goto(Set(st, pc.q, v.(msgs := v.msgs[1..], consumed := v.consumed + [v.msgs[0]])), t, Serving(pc.q))
      else Goto(Set(st, pc.q, v.(inGlobal := false)), t, Releasing(pc.q, Done))
    case Served(_, more) => Goto(st, t, if more then Dispatching(pc.q) else LoopDone(pc.q))
    case PopNext(_) =>
      if st.global == [] then Goto(st, t, Releasing(pc.q, Hold(pc.q)))
      else Goto(st.(global := st.global[1..]), t, Swapping(pc.q, st.global[0]))
    case PushBack(_) => Goto(Enqueue(st, pc.q), t, Releasing(pc.q, Hold(pc.nq)))
    case ReleaseQueue(_) =>
      if st.services[pc.q].release then Goto(st, t, Dropping(pc.q))
      else Goto(Enqueue(st, pc.q), t, Idle)
    case DropOne(_) =>
      var v := st.services[pc.q];
      if v.msgs != [] then
        Goto(Set(st, pc.q, v.(msgs := v.msgs[1..], dropped := v.dropped + [v.msgs[0]])), t, pc)
      else Goto(Set(st, pc.q, v.(inGlobal := false)), t, Freeing(pc.q))
    case Free(_) => Goto(Set(st, pc.q, st.services[pc.q].(freed := true)), t, Idle)
  }

  // ---- The invariant ----

  ghost function QueueHolders(threads: map<Tid, Pc>, s: Sid): set<Tid> {
    set t | t in threads && HoldsQueue(threads[t], s)
  }

  ghost function RefHolders(threads: map<Tid, Pc>, s: Sid): set<Tid> {
    set t | t in threads && HoldsRef(threads[t], s)
  }

  ghost function Deleters(threads: map<Tid, Pc>, s: Sid): set<Tid> {
    set t | t in threads && Deletes(threads[t], s)
  }

  /** In how many places the queue is: in threads' hands and in the global list. */
  ghost function Places(st: State, s: Sid): nat {
    |QueueHolders(st.threads, s)| + multiset(st.global)[s]
  }

  ghost predicate ServiceInv(v: Service, places: nat, refs: nat, deleters: nat) {
    && v.ref == refs + (if v.registered then 1 else 0)
    && places == (if !v.freed && (v.inGlobal || v.release) then 1 else 0)
    && (v.ref > 0 ==> deleters == 0 && !v.release)
    && (v.ref == 0 ==> deleters + (if v.release then 1 else 0) == 1)
    && (!v.inGlobal ==> v.msgs == [])
    && (v.freed ==> v.release && !v.inGlobal)
    && v.pushed == v.consumed + v.dropped + v.msgs
    && (v.dropped != [] ==> v.release)
  }

  ghost predicate PcInv(services: map<Sid, Service>, pc: Pc) {
    && (forall s :: HoldsQueue(pc, s) || HoldsRef(pc, s) || Deletes(pc, s) ==> s in services)
    && (pc.Dropping? || pc.Freeing? ==> services[pc.q].release)
    && (pc.Freeing? ==> !services[pc.q].inGlobal)
    && (pc.Swapping? ==> pc.q != pc.nq)
    && (pc.Reporting? ==> pc.s in services)
  }

  ghost predicate ServicesInv(st: State) {
    forall s :: s in st.services ==>
      ServiceInv(st.services[s], Places(st, s), |RefHolders(st.threads, s)|, |Deleters(st.threads, s)|)
  }

  ghost predicate Inv(st: State) {
    && (forall t :: t in st.threads ==> PcInv(st.services, st.threads[t]))
    && (forall s :: s in st.global ==> s in st.services)
    && ServicesInv(st)
  }

  /** Moving one thread changes each count by that thread's share. */
  lemma {:induction false} Counts(threads: map<Tid, Pc>, t: Tid, pc: Pc, s: Sid)
    requires t in threads
    ensures var threads' := threads[t := pc];
            && |QueueHolders(threads', s)| == |QueueHolders(threads, s)| - Bit(HoldsQueue(threads[t], s)) + Bit(HoldsQueue(pc, s))
            && |RefHolders(threads', s)| == |RefHolders(threads, s)| - Bit(HoldsRef(threads[t], s)) + Bit(HoldsRef(pc, s))
            && |Deleters(threads', s)| == |Deleters(threads, s)| - Bit(Deletes(threads[t], s)) + Bit(Deletes(pc, s))
  {
    hide HoldsQueue, HoldsRef, Deletes;
    var threads' := threads[t := pc];
    SameBut(QueueHolders(threads, s), QueueHolders(threads', s), t);
    SameBut(RefHolders(threads, s), RefHolders(threads', s), t);
    SameBut(Deleters(threads, s), Deleters(threads', s), t);
  }

  /** Change of the number of places of queue `s` when a thread moves and the global list changes. */
  ghost function PlacesAfter(st: State, t: Tid, pc: Pc, g: seq<Sid>, s: Sid): int
    requires t in st.threads
  {
    Places(st, s) - Bit(HoldsQueue(st.threads[t], s)) + Bit(HoldsQueue(pc, s)) - multiset(st.global)[s] + multiset(g)[s]
  }

  ghost function RefsAfter(st: State, t: Tid, pc: Pc, s: Sid): int
    requires t in st.threads
  {
    |RefHolders(st.threads, s)| - Bit(HoldsRef(st.threads[t], s)) + Bit(HoldsRef(pc, s))
  }

  ghost function DeletersAfter(st: State, t: Tid, pc: Pc, s: Sid): int
    requires t in st.threads
  {
    |Deleters(st.threads, s)| - Bit(Deletes(st.threads[t], s)) + Bit(Deletes(pc, s))
  }

  lemma {:induction false} CountsAfter(st: State, st': State, t: Tid, pc: Pc, s: Sid)
    requires t in st.threads && st'.threads == st.threads[t := pc]
    ensures Places(st', s) == PlacesAfter(st, t, pc, st'.global, s)
    ensures |RefHolders(st'.threads, s)| == RefsAfter(st, t, pc, s)
    ensures |Deleters(st'.threads, s)| == DeletersAfter(st, t, pc, s)
  {
    hide HoldsQueue, HoldsRef, Deletes, QueueHolders, RefHolders, Deleters;
    Counts(st.threads, t, pc, s);
  }

  /** No other service notices that thread `t` moves to `pc` and the global list becomes `g`. */
  ghost predicate OthersUntouched(st: State, t: Tid, pc: Pc, g: seq<Sid>, s0: Sid)
    requires t in st.threads
  {
    forall s :: s != s0 ==>
      && Bit(HoldsQueue(pc, s)) + multiset(g)[s] == Bit(HoldsQueue(st.threads[t], s)) + multiset(st.global)[s]
      && HoldsRef(pc, s) == HoldsRef(st.threads[t], s)
      && Deletes(pc, s) == Deletes(st.threads[t], s)
  }

  lemma {:induction false} PcInvKeeps(services: map<Sid, Service>, pc: Pc, s0: Sid, v: Service)
    requires PcInv(services, pc)
    requires s0 in services && services[s0].release ==> v.release && (v.inGlobal ==> services[s0].inGlobal)
    ensures PcInv(services[s0 := v], pc)
  {
    if pc.Dropping? || pc.Freeing? {
      assert HoldsQueue(pc, pc.q);
    }
  }

  /** The one proof scheme of all steps: thread `t` moves to `pc`, service `s0` becomes `v`. */
  lemma {:induction false} StepKeeps(st: State, st': State, t: Tid, pc: Pc, s0: Sid, v: Service)
    requires Inv(st) && t in st.threads
    requires st'.threads == st.threads[t := pc] && st'.services == st.services[s0 := v]
    requires forall s :: s in st'.global ==> s in st'.services
    requires OthersUntouched(st, t, pc, st'.global, s0)
    requires PlacesAfter(st, t, pc, st'.global, s0) >= 0 && RefsAfter(st, t, pc, s0) >= 0 && DeletersAfter(st, t, pc, s0) >= 0
    requires ServiceInv(v, PlacesAfter(st, t, pc, st'.global, s0), RefsAfter(st, t, pc, s0), DeletersAfter(st, t, pc, s0))
    requires PcInv(st'.services, pc)
    requires s0 in st.services && st.services[s0].release ==> v.release && (v.inGlobal ==> st.services[s0].inGlobal)
    ensures Inv(st')
  {
    hide HoldsQueue, HoldsRef, Deletes, QueueHolders, RefHolders, Deleters, ServiceInv, Places, PcInv;
    forall s | s in st'.services
      ensures ServiceInv(st'.services[s], Places(st', s), |RefHolders(st'.threads, s)|, |Deleters(st'.threads, s)|)
    {
      CountsAfter(st, st', t, pc, s);
    }
    forall x | x in st'.threads ensures PcInv(st'.services, st'.threads[x]) {
      if x != t {
        PcInvKeeps(st.services, st.threads[x], s0, v);
      }
    }
  }

  lemma {:induction false} Unknown(st: State, s: Sid)
    requires Inv(st) && s !in st.services
    ensures Places(st, s) == 0 && RefHolders(st.threads, s) == {} && Deleters(st.threads, s) == {}
  {
    forall t | t in st.threads
      ensures !HoldsQueue(st.threads[t], s) && !HoldsRef(st.threads[t], s) && !Deletes(st.threads[t], s)
    {
      assert PcInv(st.services, st.threads[t]);
    }
    assert QueueHolders(st.threads, s) == {};
  }

  lemma {:induction false} InvGlobal(st: State)
    requires Inv(st)
    ensures forall s :: s in st.global ==> s in st.services
  {
  }

  /** What the invariant says about a thread and a service it is concerned with. */
  lemma {:induction false} Own(st: State, t: Tid, s: Sid)
    requires Inv(st) && t in st.threads
    requires s in st.services || HoldsQueue(st.threads[t], s) || HoldsRef(st.threads[t], s) || Deletes(st.threads[t], s)
    ensures s in st.services && PcInv(st.services, st.threads[t])
    ensures ServiceInv(st.services[s], Places(st, s), |RefHolders(st.threads, s)|, |Deleters(st.threads, s)|)
    ensures Bit(HoldsQueue(st.threads[t], s)) + multiset(st.global)[s] <= Places(st, s)
    ensures Bit(HoldsRef(st.threads[t], s)) <= |RefHolders(st.threads, s)|
    ensures Bit(Deletes(st.threads[t], s)) <= |Deleters(st.threads, s)|
    ensures st.services[s := st.services[s]] == st.services
  {
    assert PcInv(st.services, st.threads[t]);
    AtLeastOne(QueueHolders(st.threads, s), t);
    AtLeastOne(RefHolders(st.threads, s), t);
    AtLeastOne(Deleters(st.threads, s), t);
  }

  lemma {:induction false} AtLeastOne(a: set<Tid>, t: Tid)
    ensures Bit(t in a) <= |a|
  {
    if t in a {
      assert |{t}| <= |a| by { assert a == {t} + (a - {t}); }
    }
  }

  lemma {:induction false} FirstOut(g: seq<Sid>, s: Sid)
    requires g != []
    ensures multiset(g)[s] == multiset(g[1..])[s] + Bit(s == g[0])
  {
    assert g == [g[0]] + g[1..];
  }

  lemma {:induction false} KeepsCreate(st: State, a: Action)
    requires Inv(st) && Enabled(st, a) && a.Create?
    ensures Inv(Step(st, a))
  {
    hide Inv, QueueHolders, RefHolders, Deleters, Places;
    InvGlobal(st);
    var st' := Step(st, a);
    var t, pc := a.t, st.threads[a.t];
    Unknown(st, a.s);
    StepKeeps(st, st', t, Creating(a.s), a.s, st'.services[a.s]);
  }

  lemma {:induction false} KeepsInit(st: State, a: Action)
    requires Inv(st) && Enabled(st, a) && (a.InitOk? || a.InitFail?)
    ensures Inv(Step(st, a))
  {
    hide Inv, QueueHolders, RefHolders, Deleters, Places;
    InvGlobal(st);
    var st' := Step(st, a);
    var t, pc := a.t, st.threads[a.t];
    Own(st, t, pc.s);
    StepKeeps(st, st', t, st'.threads[t], pc.s, st.services[pc.s]);
  }

  lemma {:induction false} KeepsPushLaunched(st: State, a: Action)
    requires Inv(st) && Enabled(st, a) && a.PushLaunched?
    ensures Inv(Step(st, a))
  {
    hide Inv, QueueHolders, RefHolders, Deleters, Places;
    InvGlobal(st);
    var st' := Step(st, a);
    var t, pc := a.t, st.threads[a.t];
    Own(st, t, pc.q);
    StepKeeps(st, st', t, st'.threads[t], pc.q, st.services[pc.q]);
  }

  lemma {:induction false} KeepsMarkInit(st: State, a: Action)
    requires Inv(st) && Enabled(st, a) && a.MarkInit?
    ensures Inv(Step(st, a))
  {
    hide Inv, QueueHolders, RefHolders, Deleters, Places;
    InvGlobal(st);
    var st' := Step(st, a);
    var t, pc := a.t, st.threads[a.t];
    Own(st, t, pc.s);
    StepKeeps(st, st', t, Launching(pc.s, true), pc.s, st.services[pc.s]);
  }

  lemma {:induction false} ReportKnown(st: State, t: Tid)
    requires Inv(st) && t in st.threads && st.threads[t].Reporting?
    ensures st.threads[t].s in st.services
  {
    assert PcInv(st.services, st.threads[t]);
  }

  lemma {:induction false} KeepsReport(st: State, a: Action)
    requires Inv(st) && Enabled(st, a) && a.Report?
    ensures Inv(Step(st, a))
  {
    hide Inv, QueueHolders, RefHolders, Deleters, Places;
    InvGlobal(st);
    var st' := Step(st, a);
    var t, pc := a.t, st.threads[a.t];
    ReportKnown(st, t);
    Own(st, t, pc.s);
    StepKeeps(st, st', t, Idle, pc.s, st.services[pc.s]);
  }

  lemma {:induction false} KeepsRetireFailed(st: State, a: Action)
    requires Inv(st) && Enabled(st, a) && a.RetireFailed?
    ensures Inv(Step(st, a))
  {
    hide Inv, QueueHolders, RefHolders, Deleters, Places;
    InvGlobal(st);
    var st' := Step(st, a);
    var t, pc := a.t, st.threads[a.t];
    Own(st, t, pc.q);
    StepKeeps(st, st', t, st'.threads[t], pc.q, st'.services[pc.q]);
  }

  lemma {:induction false} KeepsRetire(st: State, a: Action)
    requires Inv(st) && Enabled(st, a) && a.Retire?
    ensures Inv(Step(st, a))
  {
    hide Inv, QueueHolders, RefHolders, Deleters, Places;
    InvGlobal(st);
    var st' := Step(st, a);
    var t, pc := a.t, st.threads[a.t];
    Own(st, t, a.s);
    StepKeeps(st, st', t, st'.threads[t], a.s, st'.services[a.s]);
  }

  lemma {:induction false} KeepsReleaseRef(st: State, a: Action)
    requires Inv(st) && Enabled(st, a) && a.ReleaseRef?
    ensures Inv(Step(st, a))
  {
    hide Inv, QueueHolders, RefHolders, Deleters, Places;
    InvGlobal(st);
    var st' := Step(st, a);
    var t, pc := a.t, st.threads[a.t];
    Own(st, t, pc.s);
    ResumeHolds(pc.k);
    ResumeKnown(st.services, pc.s, pc.k, st'.services[pc.s]);
    hide Resume, Kept;
    assert st'.threads == st.threads[t := st'.threads[t]] && st'.global == st.global;
    assert st'.services == st.services[pc.s := st.services[pc.s].(ref := st.services[pc.s].ref - 1)];
    hide Step, Enabled;
    StepKeeps(st, st', t, st'.threads[t], pc.s, st'.services[pc.s]);
  }

  lemma {:induction false} KeepsMarked(st: State, st': State, t: Tid, pc: Pc)
    requires Inv(st) && t in st.threads && st.threads[t] == pc && pc.Deleting? && pc.s in st.services
    requires st'.threads == st.threads[t := Resume(pc.k)] && st'.services == st.services[pc.s := st.services[pc.s].(release := true)]
    requires st'.global == if st.services[pc.s].inGlobal then st.global else st.global + [pc.s]
    ensures Inv(st')
  {
    hide Inv, QueueHolders, RefHolders, Deleters, Places;
    InvGlobal(st);
    Own(st, t, pc.s);
    ResumeHolds(pc.k);
    ResumeKnown(st.services, pc.s, pc.k, st'.services[pc.s]);
    hide Resume, Kept;
    StepKeeps(st, st', t, Resume(pc.k), pc.s, st'.services[pc.s]);
  }

  lemma {:induction false} KeepsMarkRelease(st: State, a: Action)
    requires Inv(st) && Enabled(st, a) && a.MarkRelease?
    ensures Inv(Step(st, a))
  {
    hide Inv, Resume;
    KeepsMarked(st, Step(st, a), a.t, st.threads[a.t]);
  }

  lemma {:induction false} KeepsSendGrab(st: State, a: Action)
    requires Inv(st) && Enabled(st, a) && a.SendGrab?
    ensures Inv(Step(st, a))
  {
    hide Inv, QueueHolders, RefHolders, Deleters, Places;
    InvGlobal(st);
    var st' := Step(st, a);
    var t, pc := a.t, st.threads[a.t];
    Own(st, t, a.s);
    StepKeeps(st, st', t, st'.threads[t], a.s, st'.services[a.s]);
  }

  lemma {:induction false} KeepsPush(st: State, a: Action)
    requires Inv(st) && Enabled(st, a) && a.Push?
    ensures Inv(Step(st, a))
  {
    hide Inv, QueueHolders, RefHolders, Deleters, Places;
    InvGlobal(st);
    var st' := Step(st, a);
    var t, pc := a.t, st.threads[a.t];
    Own(st, t, pc.s);
    StepKeeps(st, st', t, st'.threads[t], pc.s, st'.services[pc.s]);
  }

  lemma {:induction false} KeepsPopGlobal(st: State, a: Action)
    requires Inv(st) && Enabled(st, a) && a.PopGlobal?
    ensures Inv(Step(st, a))
  {
    hide Inv, QueueHolders, RefHolders, Deleters, Places;
    InvGlobal(st);
    var st' := Step(st, a);
    var t, pc := a.t, st.threads[a.t];
    var q := st.global[0];
    forall x { FirstOut(st.global, x); }
    Own(st, t, q);
    StepKeeps(st, st', t, Holding(q), q, st.services[q]);
  }

  lemma {:induction false} KeepsGrab(st: State, a: Action)
    requires Inv(st) && Enabled(st, a) && a.Grab?
    ensures Inv(Step(st, a))
  {
    hide Inv, QueueHolders, RefHolders, Deleters, Places;
    InvGlobal(st);
    var st' := Step(st, a);
    var t, pc := a.t, st.threads[a.t];
    Own(st, t, pc.q);
    StepKeeps(st, st', t, st'.threads[t], pc.q, st'.services[pc.q]);
  }

  lemma {:induction false} KeepsPop(st: State, a: Action)
    requires Inv(st) && Enabled(st, a) && a.Pop?
    ensures Inv(Step(st, a))
  {
    hide Inv, QueueHolders, RefHolders, Deleters, Places;
    InvGlobal(st);
    var st' := Step(st, a);
    var t, pc := a.t, st.threads[a.t];
    Own(st, t, pc.q);
    StepKeeps(st, st', t, st'.threads[t], pc.q, st'.services[pc.q]);
  }

  lemma {:induction false} KeepsServed(st: State, a: Action)
    requires Inv(st) && Enabled(st, a) && a.Served?
    ensures Inv(Step(st, a))
  {
    hide Inv, QueueHolders, RefHolders, Deleters, Places;
    InvGlobal(st);
    var st' := Step(st, a);
    var t, pc := a.t, st.threads[a.t];
    Own(st, t, pc.q);
    StepKeeps(st, st', t, st'.threads[t], pc.q, st'.services[pc.q]);
  }

  lemma {:induction false} KeepsPopNext(st: State, a: Action)
    requires Inv(st) && Enabled(st, a) && a.PopNext?
    ensures Inv(Step(st, a))
  {
    hide Inv, QueueHolders, RefHolders, Deleters, Places;
    InvGlobal(st);
    var st' := Step(st, a);
    var t, pc := a.t, st.threads[a.t];
    Own(st, t, pc.q);
    if st.global == [] {
      StepKeeps(st, st', t, st'.threads[t], pc.q, st.services[pc.q]);
    } else {
      var nq := st.global[0];
      forall x { FirstOut(st.global, x); }
      Own(st, t, nq);
      StepKeeps(st, st', t, Swapping(pc.q, nq), nq, st.services[nq]);
    }
  }

  lemma {:induction false} KeepsPushBack(st: State, a: Action)
    requires Inv(st) && Enabled(st, a) && a.PushBack?
    ensures Inv(Step(st, a))
  {
    hide Inv, QueueHolders, RefHolders, Deleters, Places;
    InvGlobal(st);
    var st' := Step(st, a);
    var t, pc := a.t, st.threads[a.t];
    Own(st, t, pc.q);
    StepKeeps(st, st', t, st'.threads[t], pc.q, st.services[pc.q]);
  }

  lemma {:induction false} KeepsOrphan(st: State, st': State, t: Tid, q: Sid)
    requires Inv(st) && t in st.threads && st.threads[t] == Orphan(q) && q in st.services && st'.services == st.services
    requires if st.services[q].release then st'.threads == st.threads[t := Dropping(q)] && st'.global == st.global
             else st'.threads == st.threads[t := Idle] && st'.global == st.global + [q]
    ensures Inv(st')
  {
    hide Inv, QueueHolders, RefHolders, Deleters, Places;
    InvGlobal(st);
    Own(st, t, q);
    StepKeeps(st, st', t, st'.threads[t], q, st.services[q]);
  }

  lemma {:induction false} KeepsReleaseQueue(st: State, a: Action)
    requires Inv(st) && Enabled(st, a) && a.ReleaseQueue?
    ensures Inv(Step(st, a))
  {
    hide Inv;
    KeepsOrphan(st, Step(st, a), a.t, st.threads[a.t].q);
  }

  lemma {:induction false} KeepsDropOne(st: State, a: Action)
    requires Inv(st) && Enabled(st, a) && a.DropOne?
    ensures Inv(Step(st, a))
  {
    hide Inv, QueueHolders, RefHolders, Deleters, Places;
    InvGlobal(st);
    var st' := Step(st, a);
    var t, pc := a.t, st.threads[a.t];
    Own(st, t, pc.q);
    StepKeeps(st, st', t, st'.threads[t], pc.q, st'.services[pc.q]);
  }

  lemma {:induction false} KeepsFree(st: State, a: Action)
    requires Inv(st) && Enabled(st, a) && a.Free?
    ensures Inv(Step(st, a))
  {
    hide Inv, QueueHolders, RefHolders, Deleters, Places;
    InvGlobal(st);
    var st' := Step(st, a);
    var t, pc := a.t, st.threads[a.t];
    Own(st, t, pc.q);
    StepKeeps(st, st', t, Idle, pc.q, st'.services[pc.q]);
  }

  lemma {:induction false} ResumeHolds(k: Cont)
    ensures forall s :: HoldsQueue(Resume(k), s) == ContHolds(k, s)
    ensures forall s :: !HoldsRef(Resume(k), s) && !Deletes(Resume(k), s)
    ensures forall s :: HoldsQueue(Kept(k), s) == ContHolds(k, s)
    ensures forall s :: !HoldsRef(Kept(k), s) && !Deletes(Kept(k), s)
  {
  }

  lemma {:induction false} ResumeKnown(services: map<Sid, Service>, s: Sid, k: Cont, v: Service)
    requires s in services && forall q :: ContHolds(k, q) ==> q in services
    ensures PcInv(services[s := v], Resume(k)) && PcInv(services[s := v], Kept(k)) && PcInv(services[s := v], Deleting(s, k))
  {
  }

  /** Every step of every thread keeps the invariant. */
  lemma {:induction false} KeepsInv(st: State, a: Action)
    requires Inv(st) && Enabled(st, a)
    ensures Inv(Step(st, a))
  {
    hide *;
    match a
    case Create(_, _) => KeepsCreate(st, a);
    case InitOk(_) => KeepsInit(st, a);
    case InitFail(_) => KeepsInit(st, a);
    case MarkInit(_) => KeepsMarkInit(st, a);
    case PushLaunched(_) => KeepsPushLaunched(st, a);
    case Report(_) => KeepsReport(st, a);
    case RetireFailed(_) => KeepsRetireFailed(st, a);
    case Retire(_, _) => KeepsRetire(st, a);
    case ReleaseRef(_) => KeepsReleaseRef(st, a);
    case MarkRelease(_) => KeepsMarkRelease(st, a);
    case SendGrab(_, _, _) => KeepsSendGrab(st, a);
    case Push(_) => KeepsPush(st, a);
    case PopGlobal(_) => KeepsPopGlobal(st, a);
    case Grab(_) => KeepsGrab(st, a);
    case Pop(_) => KeepsPop(st, a);
    case Served(_, _) => KeepsServed(st, a);
    case PopNext(_) => KeepsPopNext(st, a);
    case PushBack(_) => KeepsPushBack(st, a);
    case ReleaseQueue(_) => KeepsReleaseQueue(st, a);
    case DropOne(_) => KeepsDropOne(st, a);
    case Free(_) => KeepsFree(st, a);
  }

  // ---- Executions ----

  ghost predicate Start(st: State) {
    st.services == map[] && st.global == [] && forall t :: t in st.threads ==> st.threads[t].Idle?
  }

  /** Any interleaving of any number of threads, from start-up. */
  ghost predicate Execution(run: seq<State>, acts: seq<Action>) {
    && |run| == |acts| + 1 && Start(run[0])
    && forall i :: 0 <= i < |acts| ==> Enabled(run[i], acts[i]) && run[i + 1] == Step(run[i], acts[i])
  }

  lemma {:induction false} AlwaysInv(run: seq<State>, acts: seq<Action>, i: nat)
    requires Execution(run, acts) && i < |run|
    ensures Inv(run[i])
  {
    if i > 0 {
      AlwaysInv(run, acts, i - 1);
      KeepsInv(run[i - 1], acts[i - 1]);
    }
  }

  /** Where a queue is: with one thread, in the global list, parked idle, or gone. */
  datatype Place = WithThread(t: Tid) | InGlobal | Parked | Gone

  ghost predicate IsAt(st: State, q: Sid, p: Place)
    requires q in st.services
  {
    var v := st.services[q];
    match p
    case WithThread(t) =>
      && t in st.threads && HoldsQueue(st.threads[t], q) && q !in st.global && !v.freed
      && forall x :: x in st.threads && HoldsQueue(st.threads[x], q) ==> x == t
    case InGlobal =>
      && multiset(st.global)[q] == 1 && !v.freed
      && forall x :: x in st.threads ==> !HoldsQueue(st.threads[x], q)
    case Parked =>
      && q !in st.global && !v.freed && !v.inGlobal && !v.release && v.msgs == []
      && forall x :: x in st.threads ==> !HoldsQueue(st.threads[x], q)
    case Gone =>
      && q !in st.global && v.freed && v.msgs == []
      && forall x :: x in st.threads ==> !HoldsQueue(st.threads[x], q)
  }

  lemma {:induction false} Locate(st: State, q: Sid) returns (p: Place)
    requires Inv(st) && q in st.services
    ensures IsAt(st, q, p)
  {
    hide HoldsQueue, HoldsRef, Deletes, RefHolders, Deleters, PcInv;
    var h, v := QueueHolders(st.threads, q), st.services[q];
    assert ServiceInv(v, Places(st, q), |RefHolders(st.threads, q)|, |Deleters(st.threads, q)|);
    assert forall x :: x in st.threads && HoldsQueue(st.threads[x], q) ==> x in h;
    if |h| == 1 {
      var t :| t in h;
      assert h == {t} by { if h != {t} { TwoOfThem(h, t); } }
      p := WithThread(t);
    } else {
      assert h == {};
      p := if multiset(st.global)[q] == 1 then InGlobal else if v.freed then Gone else Parked;
    }
  }

  lemma {:induction false} TwoOfThem(a: set<Tid>, t: Tid)
    requires t in a && a != {t}
    ensures |a| > 1
  {
    assert a == {t} + (a - {t});
    assert a - {t} != {};
  }

  /** In every interleaving each queue is in exactly one place. */
  lemma {:induction false} OnePlace(run: seq<State>, acts: seq<Action>, i: nat, q: Sid)
    requires Execution(run, acts) && i < |run| && q in run[i].services
    ensures exists p :: IsAt(run[i], q, p)
    ensures forall p, p' :: IsAt(run[i], q, p) && IsAt(run[i], q, p') ==> p == p'
  {
    AlwaysInv(run, acts, i);
    var p := Locate(run[i], q);
  }

  /** No two threads have the same queue in hand, so no service runs twice at a time; a launched queue
      with messages is in the global list or in some thread's hands. */
  lemma {:induction false} OneAtATime(run: seq<State>, acts: seq<Action>, i: nat, q: Sid)
    requires Execution(run, acts) && i < |run| && q in run[i].services
    ensures forall t, t' | t in run[i].threads && t' in run[i].threads ::
              HoldsQueue(run[i].threads[t], q) && HoldsQueue(run[i].threads[t'], q) ==> t == t'
    ensures run[i].services[q].msgs != [] ==>
              q in run[i].global || exists t :: t in run[i].threads && HoldsQueue(run[i].threads[t], q)
  {
    hide HoldsQueue;
    AlwaysInv(run, acts, i);
    var p := Locate(run[i], q);
  }

  /** Messages leave in the order they came: first those consumed, then, once the service was
      released, those dropped; none is lost or used twice. */
  lemma {:induction false} MessagesInOrder(run: seq<State>, acts: seq<Action>, i: nat, q: Sid)
    requires Execution(run, acts) && i < |run| && q in run[i].services
    ensures var v := run[i].services[q];
            && v.pushed == v.consumed + v.dropped + v.msgs
            && (v.dropped != [] ==> v.release)
            && (v.freed ==> v.pushed == v.consumed + v.dropped)
  {
    AlwaysInv(run, acts, i);
  }

  /** A thread that owns a reference finds the context alive, and whoever touches a queue finds it
      unfreed; the queue of a dying context is marked once. */
  lemma {:induction false} NoUseAfterFree(run: seq<State>, acts: seq<Action>, i: nat, t: Tid, s: Sid)
    requires Execution(run, acts) && i < |run| && t in run[i].threads
    ensures HoldsQueue(run[i].threads[t], s) || HoldsRef(run[i].threads[t], s) || Deletes(run[i].threads[t], s) ==>
              s in run[i].services && !run[i].services[s].freed
    ensures HoldsRef(run[i].threads[t], s) ==> run[i].services[s].ref > 0 && !run[i].services[s].release
    ensures Deletes(run[i].threads[t], s) ==> run[i].services[s].ref == 0 && !run[i].services[s].release
  {
    hide HoldsQueue, HoldsRef, Deletes, Inv, RefHolders, Deleters, QueueHolders, Places;
    AlwaysInv(run, acts, i);
    var pc := run[i].threads[t];
    if HoldsQueue(pc, s) || HoldsRef(pc, s) || Deletes(pc, s) {
      Own(run[i], t, s);
    }
  }

  /** Nobody is concerned with a freed queue. */
  lemma {:induction false} Untouchable(st: State, t: Tid, s: Sid)
    requires Inv(st) && t in st.threads && s in st.services && st.services[s].freed
    ensures !st.services[s].registered && !HoldsQueue(st.threads[t], s) && !HoldsRef(st.threads[t], s) && !Deletes(st.threads[t], s)
  {
    Own(st, t, s);
    hide Inv, RefHolders, Deleters, QueueHolders, Places, HoldsQueue, HoldsRef, Deletes;
  }

  /** Steps that change messages. */
  predicate Moves(a: Action) {
    a.Push? || a.Pop? || a.DropOne?
  }

  /** Steps that change a service, its messages aside. */
  predicate Changes(a: Action) {
    a.Create? || a.RetireFailed? || a.Retire? || a.ReleaseRef? || a.MarkRelease? || a.SendGrab? || a.Grab? || a.Free?
  }

  lemma {:induction false} OnlyThread(st: State, a: Action)
    requires Enabled(st, a) && !Moves(a) && !Changes(a)
    ensures Step(st, a).services == st.services
  {
  }

  lemma {:induction false} ChangesFrozen(st: State, a: Action, s: Sid)
    requires Enabled(st, a) && (Moves(a) || Changes(a)) && s in st.services && !st.services[s].registered
    requires !HoldsQueue(st.threads[a.t], s) && !HoldsRef(st.threads[a.t], s) && !Deletes(st.threads[a.t], s)
    ensures s in Step(st, a).services && Step(st, a).services[s] == st.services[s]
  {
  }

  lemma {:induction false} MovesHistory(st: State, a: Action, s: Sid)
    requires Enabled(st, a) && Moves(a) && s in st.services
    ensures var v, st' := st.services[s], Step(st, a);
            && s in st'.services
            && var v' := st'.services[s];
               v.pushed <= v'.pushed && v.consumed <= v'.consumed && v.dropped <= v'.dropped
  {
  }

  lemma {:induction false} ChangesHistory(st: State, a: Action, s: Sid)
    requires Enabled(st, a) && Changes(a) && s in st.services
    ensures var v, st' := st.services[s], Step(st, a);
            && s in st'.services
            && var v' := st'.services[s];
               v.pushed == v'.pushed && v.consumed == v'.consumed && v.dropped == v'.dropped
  {
  }

  /** Whatever was pushed, consumed or dropped stays so, and a freed queue is never touched again. */
  lemma {:induction false} StepGrows(st: State, a: Action, s: Sid)
    requires Inv(st) && Enabled(st, a) && s in st.services
    ensures var v, st' := st.services[s], Step(st, a);
            && s in st'.services
            && var v' := st'.services[s];
               && v.pushed <= v'.pushed && v.consumed <= v'.consumed && v.dropped <= v'.dropped
               && (v.freed ==> v' == v)
  {
    assert a.t in st.threads;
    hide Inv, Step, Enabled;
    if st.services[s].freed { Untouchable(st, a.t, s); }
    if Moves(a) || Changes(a) {
      if Moves(a) { MovesHistory(st, a, s); } else { ChangesHistory(st, a, s); }
      if st.services[s].freed { ChangesFrozen(st, a, s); }
    } else {
      OnlyThread(st, a);
    }
  }

  lemma {:induction false} HistoryGrows(run: seq<State>, acts: seq<Action>, i: nat, j: nat, s: Sid)
    requires Execution(run, acts) && i <= j < |run| && s in run[i].services
    ensures s in run[j].services
    ensures var v, v' := run[i].services[s], run[j].services[s];
            && v.pushed <= v'.pushed && v.consumed <= v'.consumed && v.dropped <= v'.dropped
            && (v.freed ==> v' == v)
    decreases j
  {
    hide Inv, Step, Enabled;
    if i < j {
      HistoryGrows(run, acts, i, j - 1, s);
      AlwaysInv(run, acts, j - 1);
      StepGrows(run[j - 1], acts[j - 1], s);
    }
  }
}
