/**
 The spin reader/writer lock of rwlock.h and the reference-counted copies that lua-stm.c keeps under
 it, as a step system. Every atomic operation on `write`, `read`, `copy` and a copy's `reference` is
 one step of one thread; atomics are sequentially consistent.
 */
module SharedCopy {

  import opened Counting
  import opened Wrappers

  type Tid = nat
  type Cid = nat

  datatype Pc =
    | Idle
    // rwlock_rlock inside stm_copy
    | ReadWait                       // spinning on `write`
    | ReadGo                         // saw no writer, about to increment `read`
    | ReadTry                        // `read` incremented, about to look at `write` again
    | ReadBack                       // a writer was there: about to take the increment back
    | ReadIn                         // in the section, about to load `obj->copy`
    | ReadSeen(c: Option<Cid>)       // loaded, about to increment its reference
    | ReadOut(c: Option<Cid>)        // about to rwlock_runlock
    // the rest of lread
    | Compare(c: Option<Cid>)
    | Replace(c: Option<Cid>)        // about to release `lastcopy` and keep `c`
    | Drop(d: Cid)                   // about to stm_releasecopy
    // rwlock_wlock inside stm_update, with the new copy in hand
    | WriteWant(n: Cid)              // spinning on the compare-and-swap of `write`
    | WriteWait(n: Cid)              // `write` is ours, spinning on `read`
    | WriteIn(n: Cid)
    | WriteOut(old_: Option<Cid>)    // about to rwlock_wunlock, then release the old copy
    // rwlock_wlock inside stm_release
    | CloseWant
    | CloseWait
    | CloseIn
    | CloseOut

  /** A thread and, if it is a reader, the copy it read last. */
  datatype Thread = Thread(pc: Pc, last: Option<Cid>)

  datatype State = State(
    write: int, read: int,
    current: Option<Cid>,            // obj->copy
    reference: map<Cid, int>,
    frees: seq<Cid>,                 // copies freed, in order
    threads: map<Tid, Thread>
  )

  // ---- Who is where ----

  /** Threads whose increment of `read` stands. */
  predicate CountedReader(th: Thread) {
    th.pc.ReadTry? || th.pc.ReadBack? || th.pc.ReadIn? || th.pc.ReadSeen? || th.pc.ReadOut?
  }

  predicate ReaderInside(th: Thread) {
    th.pc.ReadIn? || th.pc.ReadSeen? || th.pc.ReadOut?
  }

  /** Threads that have set `write`. */
  predicate Writer(th: Thread) {
    th.pc.WriteWait? || th.pc.CloseWait? || WriterInside(th)
  }

  predicate WriterInside(th: Thread) {
    th.pc.WriteIn? || th.pc.WriteOut? || th.pc.CloseIn? || th.pc.CloseOut?
  }

  /** The thread's program counter carries one counted reference to `c`. */
  predicate Carries(th: Thread, c: Cid) {
    match th.pc
    case ReadOut(x) => x == Some(c)
    case Compare(x) => x == Some(c)
    case Replace(x) => x == Some(c)
    case Drop(x) => x == c
    case WriteWant(x) => x == c
    case WriteWait(x) => x == c
    case WriteIn(x) => x == c
    case WriteOut(x) => x == Some(c)
    case _ => false
  }

  function Carrying(c: Cid): Thread -> bool {
    (th: Thread) => Carries(th, c)
  }

  function Keeping(c: Cid): Thread -> bool {
    (th: Thread) => th.last == Some(c)
  }

  // ---- Steps ----

  datatype Action =
    | BeginRead(t: Tid)
    | SeeNoWriter(t: Tid)
    | IncRead(t: Tid)
    | CheckWrite(t: Tid)
    | UndoRead(t: Tid)
    | LoadCopy(t: Tid)
    | IncReference(t: Tid)
    | UnlockRead(t: Tid)
    | CompareLast(t: Tid)
    | ReplaceLast(t: Tid)
    | ReleaseCopy(t: Tid)
    | BeginUpdate(t: Tid, c: Cid)    // stm_newcopy
    | TakeWrite(t: Tid)
    | SeeNoReader(t: Tid)
    | SwapCopy(t: Tid)
    | UnlockWrite(t: Tid)
    | BeginClose(t: Tid)
    | ReleaseCurrent(t: Tid)         // release the current copy and reset `obj->copy`
    | DeleteReader(t: Tid)

  predicate Known(st: State, c: Option<Cid>) {
    c.Some? ==> c.value in st.reference
  }

  predicate Enabled(st: State, a: Action) {
    a.t in st.threads &&
    var th := st.threads[a.t];
    var pc := th.pc;
    match a
    case BeginRead(_) => pc.Idle?
    case SeeNoWriter(_) => pc.ReadWait? && st.write == 0
    case IncRead(_) => pc.ReadGo?
    case CheckWrite(_) => pc.ReadTry?
    case UndoRead(_) => pc.ReadBack?
    case LoadCopy(_) => pc.ReadIn?
    case IncReference(_) => pc.ReadSeen? && Known(st, pc.c)
    case UnlockRead(_) => pc.ReadOut?
    case CompareLast(_) => pc.Compare?
    case ReplaceLast(_) => pc.Replace? && Known(st, th.last)
    case ReleaseCopy(_) => pc.Drop? && pc.d in st.reference
    case BeginUpdate(_, c) => pc.Idle? && c !in st.reference
    case TakeWrite(_) => (pc.WriteWant? || pc.CloseWant?) && st.write == 0
    case SeeNoReader(_) => (pc.WriteWait? || pc.CloseWait?) && st.read == 0
    case SwapCopy(_) => pc.WriteIn?
    case UnlockWrite(_) => pc.WriteOut? || pc.CloseOut?
    case BeginClose(_) => pc.Idle?
    case ReleaseCurrent(_) => pc.CloseIn? && Known(st, st.current)
    case DeleteReader(_) => pc.Idle? && th.last.Some?
  }

  function Goto(st: State, t: Tid, pc: Pc): State
    requires t in st.threads
  {
    st.(threads := st.threads[t := st.threads[t].(pc := pc)])
  }

  /** `stm_releasecopy`: the last reference frees the copy. */
  function Release(st: State, c: Option<Cid>): State
    requires Known(st, c)
  {
    if c.None? then st else
    var n := st.reference[c.value];
    var st' := st.(reference := st.reference[c.value := n - 1]);
    if n <= 1 then st'.(frees := st.frees + [c.value]) else st'
  }

  function Step(st: State, a: Action): State
    requires Enabled(st, a)
  {
    var t, th := a.t, st.threads[a.t];
    var pc := th.pc;
    match a
    case BeginRead(_) => Goto(st, t, ReadWait)
    case SeeNoWriter(_) => Goto(st, t, ReadGo)
    case IncRead(_) => Goto(st.(read := st.read + 1), t, ReadTry)
    case CheckWrite(_) => Goto(st, t, if st.write != 0 then ReadBack else ReadIn)
    case UndoRead(_) => Goto(st.(read := st.read - 1), t, ReadWait)
    case LoadCopy(_) => Goto(st, t, ReadSeen(st.current))
    case IncReference(_) =>
      if pc.c.None? then Goto(st, t, ReadOut(None))
      else Goto(st.(reference := st.reference[pc.c.value := st.reference[pc.c.value] + 1]), t, ReadOut(pc.c))
    case UnlockRead(_) => Goto(st.(read := st.read - 1), t, Compare(pc.c))
    case CompareLast(_) =>
      if pc.c == th.last then Goto(st, t, if pc.c.Some? then Drop(pc.c.value) else Idle)
      else Goto(st, t, Replace(pc.c))
    case ReplaceLast(_) =>
      Release(st, th.last).(threads := st.threads[t := Thread(Idle, pc.c)])
    case ReleaseCopy(_) => Goto(Release(st, Some(pc.d)), t, Idle)
    case BeginUpdate(_, c) => Goto(st.(reference := st.reference[c := 1]), t, WriteWant(c))
    case TakeWrite(_) => Goto(st.(write := 1), t, if pc.WriteWant? then WriteWait(pc.n) else CloseWait)
    case SeeNoReader(_) => Goto(st, t, if pc.WriteWait? then WriteIn(pc.n) else CloseIn)
    case SwapCopy(_) => Goto(st.(current := Some(pc.n)), t, WriteOut(st.current))
    case UnlockWrite(_) =>
      Goto(st.(write := 0), t, if pc.WriteOut? && pc.old_.Some? then Drop(pc.old_.value) else Idle)
    case BeginClose(_) => Goto(st, t, CloseWant)
    case ReleaseCurrent(_) => Goto(Release(st, st.current).(current := None), t, CloseOut)
    case DeleteReader(_) => st.(threads := st.threads[t := Thread(Drop(th.last.value), None)])
  }

  // ---- Counting threads ----

  ghost function Having(threads: map<Tid, Thread>, f: Thread -> bool): set<Tid> {
    set t | t in threads && f(threads[t])
  }

  ghost function Count(threads: map<Tid, Thread>, f: Thread -> bool): nat {
    |Having(threads, f)|
  }

  lemma {:induction false} CountMove(threads: map<Tid, Thread>, t: Tid, th: Thread, f: Thread -> bool)
    requires t in threads
    ensures Count(threads[t := th], f) == Count(threads, f) - Bit(f(threads[t])) + Bit(f(th))
    ensures Count(threads, f) >= Bit(f(threads[t]))
  {
    SameBut(Having(threads, f), Having(threads[t := th], f), t);
  }

  lemma {:induction false} CountNone(threads: map<Tid, Thread>, f: Thread -> bool)
    requires Count(threads, f) == 0
    ensures forall t :: t in threads ==> !f(threads[t])
  {
    assert Having(threads, f) == {};
    forall t | t in threads ensures !f(threads[t]) {
      assert t !in Having(threads, f);
    }
  }

  lemma {:induction false} CountOne(threads: map<Tid, Thread>, f: Thread -> bool, t: Tid, t': Tid)
    requires Count(threads, f) <= 1 && t in threads && t' in threads && f(threads[t]) && f(threads[t'])
    ensures t == t'
  {
    var a := Having(threads, f);
    assert t in a && t' in a;
    assert a == {t} + (a - {t});
    assert |a - {t}| == 0;
  }

  // ---- Invariants ----

  /** The two counters of the lock say who is where, and a writer inside keeps readers out. */
  ghost predicate LockInv(st: State) {
    && st.read == Count(st.threads, CountedReader)
    && st.write == Count(st.threads, Writer) && st.write <= 1
    && (forall t, t' :: t in st.threads && t' in st.threads ==> !(ReaderInside(st.threads[t]) && WriterInside(st.threads[t'])))
    && (forall t :: t in st.threads && st.threads[t].pc.ReadSeen? ==> st.threads[t].pc.c == st.current)
  }

  /** A copy's reference counts its holders, plus one while it is current. */
  ghost predicate CopyInv(st: State, c: Cid)
    requires c in st.reference
  {
    && st.reference[c] == Count(st.threads, Carrying(c)) + Count(st.threads, Keeping(c)) + Bit(st.current == Some(c))
    && (c in st.frees <==> st.reference[c] == 0)
  }

  ghost predicate KnownInv(st: State) {
    && Known(st, st.current)
    && (forall c :: c in st.frees ==> c in st.reference)
    && forall t, c: Cid | t in st.threads && (Carries(st.threads[t], c) || st.threads[t].last == Some(c)) :: c in st.reference
  }

  ghost predicate Inv(st: State) {
    && LockInv(st) && KnownInv(st)
    && (forall c :: c in st.reference ==> CopyInv(st, c))
    && NoRepeats(st.frees)
  }

  // ---- One thread moves ----

  /** Lock state after thread `t` becomes `th`. */
  lemma {:induction false} LockKeeps(st: State, st': State, t: Tid, th: Thread)
    requires LockInv(st) && t in st.threads && st'.threads == st.threads[t := th]
    requires st'.read == st.read - Bit(CountedReader(st.threads[t])) + Bit(CountedReader(th))
    requires st'.write == st.write - Bit(Writer(st.threads[t])) + Bit(Writer(th)) && st'.write <= 1
    requires ReaderInside(th) ==> ReaderInside(st.threads[t]) || st.write == 0
    requires WriterInside(th) ==> WriterInside(st.threads[t]) || st.read == 0
    requires th.pc.ReadSeen? ==> th.pc.c == st'.current
    requires st'.current != st.current ==> WriterInside(st.threads[t]) && !ReaderInside(th)
    ensures LockInv(st')
  {
    CountMove(st.threads, t, th, CountedReader);
    CountMove(st.threads, t, th, Writer);
    hide Count;
    if st.write == 0 { CountNone(st.threads, Writer); }
    if st.read == 0 { CountNone(st.threads, CountedReader); }
  }

  lemma {:induction false} CopyCounts(st: State, st': State, t: Tid, th: Thread, c: Cid)
    requires t in st.threads && st'.threads == st.threads[t := th]
    ensures Count(st'.threads, Carrying(c)) == Count(st.threads, Carrying(c)) - Bit(Carries(st.threads[t], c)) + Bit(Carries(th, c))
    ensures Count(st'.threads, Keeping(c)) == Count(st.threads, Keeping(c)) - Bit(st.threads[t].last == Some(c)) + Bit(th.last == Some(c))
    ensures Bit(Carries(st.threads[t], c)) <= Count(st.threads, Carrying(c))
    ensures Bit(st.threads[t].last == Some(c)) <= Count(st.threads, Keeping(c))
  {
    CountMove(st.threads, t, th, Carrying(c));
    CountMove(st.threads, t, th, Keeping(c));
  }

  /** References a thread accounts for, of one copy. */
  function Share(th: Thread, c: Cid): nat {
    Bit(Carries(th, c)) + Bit(th.last == Some(c))
  }

  /** Copies after thread `t` becomes `th`: each reference moves by what the thread and the current copy
      account for. */
  ghost predicate Accounted(st: State, st': State, t: Tid, th: Thread, c: Cid)
    requires t in st.threads && c in st.reference && c in st'.reference
  {
    && st'.reference[c] == st.reference[c] - Share(st.threads[t], c) + Share(th, c)
                           - Bit(st.current == Some(c)) + Bit(st'.current == Some(c))
    && (c in st'.frees <==> st'.reference[c] == 0)
  }

  lemma {:induction false} CopyKeeps(st: State, st': State, t: Tid, th: Thread, c: Cid)
    requires t in st.threads && st'.threads == st.threads[t := th]
    requires c in st.reference && c in st'.reference && CopyInv(st, c) && Accounted(st, st', t, th, c)
    ensures CopyInv(st', c)
  {
    CopyCounts(st, st', t, th, c);
    hide Count, Carries;
  }

  ghost predicate NoRepeats(s: seq<Cid>) {
    forall i, j :: 0 <= i < j < |s| ==> s[i] != s[j]
  }

  /** The proof scheme of every step that leaves the set of copies as it is. */
  lemma {:induction false} StepKeeps(st: State, st': State, t: Tid, th: Thread)
    requires Inv(st) && t in st.threads && st'.threads == st.threads[t := th] && LockInv(st')
    requires st'.reference.Keys == st.reference.Keys
    requires forall c :: c in st.reference ==> Accounted(st, st', t, th, c)
    requires Known(st', st'.current) && forall c: Cid :: Carries(th, c) || th.last == Some(c) ==> c in st.reference
    requires NoRepeats(st'.frees) && forall c :: c in st'.frees ==> c in st.reference
    ensures Inv(st')
  {
    hide LockInv, Accounted, CopyInv, Carries;
    forall c | c in st'.reference ensures CopyInv(st', c) {
      CopyKeeps(st, st', t, th, c);
    }
  }

  lemma {:induction false} KeepsLock(st: State, a: Action)
    requires LockInv(st) && Enabled(st, a)
    ensures LockInv(Step(st, a))
  {
    hide LockInv, Release, Count;
    var st' := Step(st, a);
    LockFacts(st, a);
    WriterHolds(st, a.t);
    LockKeeps(st, st', a.t, st'.threads[a.t]);
  }

  lemma {:induction false} WriterHolds(st: State, t: Tid)
    requires LockInv(st) && t in st.threads
    ensures st.write <= 1 && (Writer(st.threads[t]) ==> st.write == 1)
  {
    CountMove(st.threads, t, st.threads[t], Writer);
  }

  lemma {:induction false} LockFacts(st: State, a: Action)
    requires Enabled(st, a)
    ensures var st' := Step(st, a);
            var th, th' := st.threads[a.t], st'.threads[a.t];
            && st'.threads == st.threads[a.t := th']
            && st'.read == st.read - Bit(CountedReader(th)) + Bit(CountedReader(th'))
            && (a.UnlockWrite? || st'.write == st.write - Bit(Writer(th)) + Bit(Writer(th')))
            && (ReaderInside(th') ==> ReaderInside(th) || st.write == 0)
            && (WriterInside(th') ==> WriterInside(th) || st.read == 0)
            && (th'.pc.ReadSeen? ==> th'.pc.c == st'.current)
            && (st'.current != st.current ==> WriterInside(th) && !ReaderInside(th'))
  {
  }

  /** What the invariant says about a thread and a copy it has a share in, or that is current. */
  lemma {:induction false} Alive(st: State, t: Tid, c: Cid)
    requires Inv(st) && t in st.threads && (Share(st.threads[t], c) > 0 || st.current == Some(c))
    ensures c in st.reference && c !in st.frees
    ensures st.reference[c] >= Share(st.threads[t], c) + Bit(st.current == Some(c))
  {
    hide LockInv;
    assert c in st.reference;
    assert CopyInv(st, c);
    CopyCounts(st, st.(threads := st.threads[t := st.threads[t]]), t, st.threads[t], c);
  }

  lemma {:induction false} InvFacts(st: State, t: Tid)
    requires Inv(st) && t in st.threads
    ensures LockInv(st) && Known(st, st.current) && NoRepeats(st.frees) && (forall c :: c in st.frees ==> c in st.reference)
    ensures forall c :: c in st.reference ==> (c in st.frees <==> st.reference[c] == 0)
    ensures forall c: Cid :: Carries(st.threads[t], c) || st.threads[t].last == Some(c) ==> c in st.reference
  {
    hide LockInv;
    assert forall c :: c in st.reference ==> CopyInv(st, c);
  }

  /** References that thread state `th` and the current copy account for together. */
  function Held(th: Thread, current: Option<Cid>, c: Cid): nat {
    Share(th, c) + Bit(current == Some(c))
  }

  lemma {:induction false} HeldKnown(st: State, t: Tid, c: Cid)
    requires Inv(st) && t in st.threads && Held(st.threads[t], st.current, c) > 0
    ensures c in st.reference
  {
    InvFacts(st, t);
  }

  lemma {:induction false} Released(st: State, c: Option<Cid>)
    requires Known(st, c) && (c.Some? ==> st.reference[c.value] > 0 && c.value !in st.frees)
    requires NoRepeats(st.frees) && (forall x :: x in st.frees ==> x in st.reference)
    requires forall x :: x in st.reference ==> (x in st.frees <==> st.reference[x] == 0)
    ensures var r := Release(st, c);
            && r.reference.Keys == st.reference.Keys && NoRepeats(r.frees) && (forall x :: x in r.frees ==> x in st.reference)
            && (forall x :: x in st.reference ==> r.reference[x] == st.reference[x] - Bit(c == Some(x)))
            && (forall x :: x in st.reference ==> (x in r.frees <==> r.reference[x] == 0))
            && r.write == st.write && r.read == st.read && r.current == st.current && r.threads == st.threads
  {
  }

  /** The proof scheme of every step that gives up at most one reference, `c`. */
  lemma {:induction false} GivesUp(st: State, st': State, t: Tid, th': Thread, c: Option<Cid>)
    requires Inv(st) && t in st.threads && st'.threads == st.threads[t := th'] && LockInv(st') && Known(st, c)
    requires forall x: Cid :: Held(th', st'.current, x) == Held(st.threads[t], st.current, x) - Bit(c == Some(x))
    requires st'.reference == Release(st, c).reference && st'.frees == Release(st, c).frees
    ensures Inv(st')
  {
    InvFacts(st, t);
    if c.Some? {
      assert Held(th', st'.current, c.value) == Held(st.threads[t], st.current, c.value) - 1;
      Alive(st, t, c.value);
    }
    Released(st, c);
    hide LockInv, NoRepeats, Release, Carries, Inv, Share;
    HeldStaysKnown(st, st', t, th');
    StepKeeps(st, st', t, th');
  }

  lemma {:induction false} HeldStaysKnown(st: State, st': State, t: Tid, th': Thread)
    requires Inv(st) && t in st.threads && st'.reference.Keys == st.reference.Keys
    requires forall x: Cid :: Held(th', st'.current, x) <= Held(st.threads[t], st.current, x)
    ensures Known(st', st'.current) && forall x: Cid :: Carries(th', x) || th'.last == Some(x) ==> x in st.reference
  {
    hide Inv, Carries;
    forall x: Cid | Held(th', st'.current, x) > 0 ensures x in st.reference {
      HeldKnown(st, t, x);
    }
    assert forall x: Cid :: Carries(th', x) || th'.last == Some(x) ==> Held(th', st'.current, x) > 0;
    assert st'.current.Some? ==> Held(th', st'.current, st'.current.value) > 0;
  }

  /** The reference a step gives up. */
  function GivenUp(st: State, a: Action): Option<Cid>
    requires Enabled(st, a)
  {
    match a
    case ReplaceLast(_) => st.threads[a.t].last
    case ReleaseCopy(_) => Some(st.threads[a.t].pc.d)
    case ReleaseCurrent(_) => st.current
    case _ => None
  }

  /** Steps that take no new reference: all but two. */
  predicate TakesNone(a: Action) {
    !a.IncReference? && !a.BeginUpdate?
  }

  lemma {:induction false} StepHeld(st: State, a: Action, x: Cid)
    requires Enabled(st, a) && TakesNone(a)
    ensures var st' := Step(st, a);
            Held(st'.threads[a.t], st'.current, x)
            == Held(st.threads[a.t], st.current, x) - Bit(GivenUp(st, a) == Some(x))
  {
  }

  lemma {:induction false} StepFields(st: State, a: Action)
    requires Enabled(st, a) && TakesNone(a)
    ensures var st' := Step(st, a);
            && Known(st, GivenUp(st, a)) && st'.threads == st.threads[a.t := st'.threads[a.t]]
            && st'.reference == Release(st, GivenUp(st, a)).reference
            && st'.frees == Release(st, GivenUp(st, a)).frees
  {
  }

  lemma {:induction false} KeepsTakesNone(st: State, a: Action)
    requires Inv(st) && Enabled(st, a) && TakesNone(a)
    ensures Inv(Step(st, a))
  {
    InvFacts(st, a.t);
    KeepsLock(st, a);
    StepFields(st, a);
    forall x: Cid ensures var st' := Step(st, a);
      Held(st'.threads[a.t], st'.current, x) == Held(st.threads[a.t], st.current, x) - Bit(GivenUp(st, a) == Some(x))
    {
      StepHeld(st, a, x);
    }
    hide Inv, LockInv, Step, Enabled, Held, Release, GivenUp;
    var st' := Step(st, a);
    GivesUp(st, st', a.t, st'.threads[a.t], GivenUp(st, a));
  }

  lemma {:induction false} TakesCurrent(st: State, st': State, t: Tid, th': Thread)
    requires Inv(st) && t in st.threads && st'.threads == st.threads[t := th'] && LockInv(st') && Known(st, st.current)
    requires st'.current == st.current && st'.frees == st.frees
    requires forall x: Cid :: Share(th', x) == Share(st.threads[t], x) + Bit(st.current == Some(x))
    requires st'.reference == if st.current.Some? then st.reference[st.current.value := st.reference[st.current.value] + 1] else st.reference
    ensures Inv(st')
  {
    InvFacts(st, t);
    if st.current.Some? { Alive(st, t, st.current.value); }
    ShareKnown(st.threads[t], th', st.current, st.reference);
    hide Inv, LockInv, Count, NoRepeats, Carries, Share;
    StepKeeps(st, st', t, th');
  }

  lemma {:induction false} ShareKnown(th: Thread, th': Thread, current: Option<Cid>, known: map<Cid, int>)
    requires forall x: Cid :: Carries(th, x) || th.last == Some(x) ==> x in known
    requires current.Some? ==> current.value in known
    requires forall x: Cid :: Share(th', x) == Share(th, x) + Bit(current == Some(x))
    ensures forall x: Cid :: Carries(th', x) || th'.last == Some(x) ==> x in known
  {
    hide Carries;
    forall x: Cid | Carries(th', x) || th'.last == Some(x) ensures x in known {
      assert Share(th', x) == Share(th, x) + Bit(current == Some(x));
    }
  }

  lemma {:induction false} IncFields(st: State, a: Action)
    requires Enabled(st, a) && a.IncReference? && st.threads[a.t].pc.c == st.current
    ensures var st' := Step(st, a);
            && st'.threads == st.threads[a.t := st'.threads[a.t]]
            && st'.current == st.current && st'.frees == st.frees && Known(st, st.current)
            && (forall x: Cid :: Share(st'.threads[a.t], x) == Share(st.threads[a.t], x) + Bit(st.current == Some(x)))
            && st'.reference == if st.current.Some? then st.reference[st.current.value := st.reference[st.current.value] + 1] else st.reference
  {
  }

  lemma {:induction false} KeepsIncReference(st: State, a: Action)
    requires Inv(st) && Enabled(st, a) && a.IncReference?
    ensures Inv(Step(st, a))
  {
    KeepsLock(st, a);
    assert LockInv(st) && st.threads[a.t].pc.ReadSeen?;
    IncFields(st, a);
    hide Inv, LockInv, Step, Enabled, Share;
    TakesCurrent(st, Step(st, a), a.t, Step(st, a).threads[a.t]);
  }

  lemma {:induction false} NobodyHas(st: State, c: Cid)
    requires Inv(st) && c !in st.reference
    ensures Count(st.threads, Carrying(c)) == 0 && Count(st.threads, Keeping(c)) == 0
    ensures st.current != Some(c) && c !in st.frees
  {
    hide LockInv, CopyInv;
    assert Having(st.threads, Carrying(c)) == {};
    assert Having(st.threads, Keeping(c)) == {};
  }

  /** A copy nobody had comes in with the one reference that thread state `th` accounts for. */
  lemma {:induction false} AddsCopy(st: State, st': State, t: Tid, th: Thread, n: Cid)
    requires Inv(st) && t in st.threads && st'.threads == st.threads[t := th] && LockInv(st') && n !in st.reference
    requires st'.current == st.current && st'.frees == st.frees && st'.reference == st.reference[n := 1]
    requires forall x: Cid :: Share(th, x) == Share(st.threads[t], x) + Bit(x == n)
    ensures Inv(st')
  {
    InvFacts(st, t);
    NobodyHas(st, n);
    AddsKnown(st, st', t, th, n);
    forall c | c in st'.reference ensures CopyInv(st', c) {
      CopyCounts(st, st', t, th, c);
      assert c in st.reference ==> CopyInv(st, c);
      assert Share(th, c) == Share(st.threads[t], c) + Bit(c == n);
      hide LockInv, KnownInv, Count, Carries, Inv, NoRepeats;
    }
    hide LockInv, KnownInv, CopyInv;
  }

  lemma {:induction false} AddsKnown(st: State, st': State, t: Tid, th: Thread, n: Cid)
    requires KnownInv(st) && t in st.threads && st'.threads == st.threads[t := th]
    requires st'.current == st.current && st'.frees == st.frees && st'.reference == st.reference[n := 1]
    requires forall x: Cid :: Share(th, x) == Share(st.threads[t], x) + Bit(x == n)
    ensures KnownInv(st')
  {
    hide Carries;
    forall u, c: Cid | u in st'.threads && (Carries(st'.threads[u], c) || st'.threads[u].last == Some(c))
      ensures c in st'.reference
    {
      assert Share(th, c) == Share(st.threads[t], c) + Bit(c == n);
    }
  }

  lemma {:induction false} KeepsBeginUpdate(st: State, a: Action)
    requires Inv(st) && Enabled(st, a) && a.BeginUpdate?
    ensures Inv(Step(st, a))
  {
    KeepsLock(st, a);
    var st', th' := Step(st, a), st.threads[a.t].(pc := WriteWant(a.c));
    hide Inv, LockInv;
    AddsCopy(st, st', a.t, th', a.c);
  }

  /** Every step of every thread keeps the invariant. */
  lemma {:induction false} KeepsInv(st: State, a: Action)
    requires Inv(st) && Enabled(st, a)
    ensures Inv(Step(st, a))
  {
    hide Step, Enabled, Inv;
    match a
    case IncReference(_) => KeepsIncReference(st, a);
    case BeginUpdate(_, _) => KeepsBeginUpdate(st, a);
    case _ => KeepsTakesNone(st, a);
  }

  // ---- Executions ----

  /** A new object with one copy and threads that have not read it yet. */
  ghost predicate Start(st: State) {
    && st.write == 0 && st.read == 0 && st.frees == []
    && (exists c: Cid :: st.current == Some(c) && st.reference == map[c := 1])
    && forall t :: t in st.threads ==> st.threads[t] == Thread(Idle, None)
  }

  ghost predicate Execution(run: seq<State>, acts: seq<Action>) {
    && |run| == |acts| + 1 && Start(run[0])
    && forall i :: 0 <= i < |acts| ==> Enabled(run[i], acts[i]) && run[i + 1] == Step(run[i], acts[i])
  }

  lemma {:induction false} StartInv(st: State)
    requires Start(st)
    ensures Inv(st)
  {
    assert Having(st.threads, CountedReader) == {} && Having(st.threads, Writer) == {};
    var c: Cid :| st.current == Some(c) && st.reference == map[c := 1];
    assert Having(st.threads, Carrying(c)) == {} && Having(st.threads, Keeping(c)) == {};
  }

  lemma {:induction false} AlwaysInv(run: seq<State>, acts: seq<Action>, i: nat)
    requires Execution(run, acts) && i < |run|
    ensures Inv(run[i])
  {
    hide Inv, Step, Enabled;
    if i > 0 {
      AlwaysInv(run, acts, i - 1);
      KeepsInv(run[i - 1], acts[i - 1]);
    } else {
      StartInv(run[0]);
    }
  }

  /** In every interleaving a writer in its section excludes every reader and every other writer. */
  lemma {:induction false} MutualExclusion(run: seq<State>, acts: seq<Action>, i: nat, t: Tid, t': Tid)
    requires Execution(run, acts) && i < |run| && t in run[i].threads && t' in run[i].threads
    requires WriterInside(run[i].threads[t])
    ensures !ReaderInside(run[i].threads[t'])
    ensures WriterInside(run[i].threads[t']) ==> t == t'
  {
    hide Execution;
    AlwaysInv(run, acts, i);
    if WriterInside(run[i].threads[t']) {
      CountOne(run[i].threads, Writer, t, t');
    }
  }

  /** A copy that a reader or writer has a share in, or that is current, has not been freed; its count
      is its holders plus one if it is current; no copy is freed twice. */
  lemma {:induction false} CopiesSafe(run: seq<State>, acts: seq<Action>, i: nat, c: Cid)
    requires Execution(run, acts) && i < |run| && c in run[i].reference
    ensures var st := run[i];
            && st.reference[c] == Count(st.threads, Carrying(c)) + Count(st.threads, Keeping(c)) + Bit(st.current == Some(c))
            && (c in st.frees <==> st.reference[c] == 0)
            && (c in st.frees ==> st.current != Some(c) && forall t :: t in st.threads ==> Share(st.threads[t], c) == 0)
            && NoRepeats(st.frees)
  {
    hide Execution;
    AlwaysInv(run, acts, i);
    var st := run[i];
    assert CopyInv(st, c);
    if c in st.frees {
      CountNone(st.threads, Carrying(c));
      CountNone(st.threads, Keeping(c));
      assert forall t :: t in st.threads ==> !Carrying(c)(st.threads[t]) && !Keeping(c)(st.threads[t]);
    }
  }

  /** Copies that thread `t` is about to dereference: the one it loaded but has not counted yet, the ones
      it is about to release. */
  function Touches(st: State, t: Tid): set<Cid>
    requires t in st.threads
  {
    var th := st.threads[t];
    match th.pc
    case ReadSeen(c) => if c.Some? then {c.value} else {}
    case Replace(c) => if th.last.Some? then {th.last.value} else {}
    case Drop(d) => {d}
    case CloseIn => if st.current.Some? then {st.current.value} else {}
    case _ => {}
  }

  /** No thread ever dereferences a freed copy, not even the reader that has loaded `obj->copy` and not
      yet taken its reference: the count it is about to change is positive, as stm_copy asserts. */
  lemma {:induction false} TouchesLive(run: seq<State>, acts: seq<Action>, i: nat, t: Tid, c: Cid)
    requires Execution(run, acts) && i < |run| && t in run[i].threads && c in Touches(run[i], t)
    ensures c in run[i].reference && run[i].reference[c] > 0 && c !in run[i].frees
  {
    hide Execution;
    AlwaysInv(run, acts, i);
    Alive(run[i], t, c);
  }
}
