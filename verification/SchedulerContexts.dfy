/**
 Who reads and writes the memory of a service context (skynet_server.c), and when it is still there.
 */
module SchedulerContexts {

  import opened Scheduler

  /** `delete_context` marks the queue and frees the context in one step. */
  predicate ContextFreed(v: Service) {
    v.release
  }

  /** After it gave its reference back, the creator of a service still uses the context. */
  predicate Unprotected(pc: Pc, s: Sid) {
    (pc.Marking? || pc.Reporting?) && pc.s == s
  }

  /** The thread is about to read or write the context of `s`. */
  predicate Dereferences(pc: Pc, s: Sid) {
    HoldsRef(pc, s) || Deletes(pc, s) || Unprotected(pc, s)
  }

  /** The exact condition of every access: the creator's two are safe if and only if the service is still
      registered, or somebody owns a reference, or its deletion has not come to an end; all others are
      safe in every interleaving. */
  lemma {:induction false} ContextAccess(run: seq<State>, acts: seq<Action>, i: nat, t: Tid, s: Sid)
    requires Execution(run, acts) && i < |run| && t in run[i].threads && Dereferences(run[i].threads[t], s)
    ensures s in run[i].services
    ensures !Unprotected(run[i].threads[t], s) ==> !ContextFreed(run[i].services[s])
    ensures Unprotected(run[i].threads[t], s) ==>
              (!ContextFreed(run[i].services[s]) <==>
                 run[i].services[s].registered
                 || exists x :: x in run[i].threads && (HoldsRef(run[i].threads[x], s) || Deletes(run[i].threads[x], s)))
  {
    AlwaysInv(run, acts, i);
    var st := run[i];
    hide Execution;
    UnprotectedKnown(st, t, s);
    Own(st, t, s);
    Holders(st, s);
    hide Inv, HoldsRef, Deletes, HoldsQueue, QueueHolders, Places;
  }

  lemma {:induction false} UnprotectedKnown(st: State, t: Tid, s: Sid)
    requires Inv(st) && t in st.threads && Dereferences(st.threads[t], s)
    ensures s in st.services
  {
    assert PcInv(st.services, st.threads[t]);
    assert st.threads[t].Marking? && st.threads[t].s == s ==> HoldsQueue(st.threads[t], s);
  }

  lemma {:induction false} Holders(st: State, s: Sid)
    ensures |RefHolders(st.threads, s)| > 0 <==> exists x :: x in st.threads && HoldsRef(st.threads[x], s)
    ensures |Deleters(st.threads, s)| > 0 <==> exists x :: x in st.threads && Deletes(st.threads[x], s)
  {
    hide HoldsRef, Deletes;
    var r, d := RefHolders(st.threads, s), Deleters(st.threads, s);
    if |r| > 0 { var x :| x in r; }
    if |d| > 0 { var x :| x in d; }
    assert forall x :: x in st.threads && HoldsRef(st.threads[x], s) ==> x in r && r != {};
    assert forall x :: x in st.threads && Deletes(st.threads[x], s) ==> x in d && d != {};
  }

  /** Steps that take a service out of the handle table. */
  predicate Unregisters(st: State, a: Action, s: Sid)
    requires Enabled(st, a)
  {
    (a.Retire? && a.s == s) || (a.RetireFailed? && st.threads[a.t].q == s)
  }

  lemma {:induction false} StepRegistered(st: State, a: Action, s: Sid)
    requires Enabled(st, a) && s in st.services && st.services[s].registered && !Unregisters(st, a, s)
    ensures s in Step(st, a).services && Step(st, a).services[s].registered
  {
  }

  /** What a caller can rely on: as long as nobody retires the service, its creator finds the context. */
  lemma {:induction false} SafeUntilRetired(run: seq<State>, acts: seq<Action>, i: nat, j: nat, s: Sid)
    requires Execution(run, acts) && i <= j < |run| && s in run[i].services && run[i].services[s].registered
    requires forall k :: i <= k < j ==> !Unregisters(run[k], acts[k], s)
    ensures s in run[j].services && run[j].services[s].registered && !ContextFreed(run[j].services[s])
    decreases j
  {
    hide Step, Enabled, Inv;
    if i < j {
      SafeUntilRetired(run, acts, i, j - 1, s);
      StepRegistered(run[j - 1], acts[j - 1], s);
    }
    RegisteredLives(run, acts, j, s);
  }

  lemma {:induction false} RegisteredLives(run: seq<State>, acts: seq<Action>, j: nat, s: Sid)
    requires Execution(run, acts) && j < |run| && s in run[j].services && run[j].services[s].registered
    ensures !ContextFreed(run[j].services[s])
  {
    AlwaysInv(run, acts, j);
    assert ServicesInv(run[j]);
    hide Execution, RefHolders, Deleters, Places;
  }

  // ---- The creator's accesses can come too late ----

  function Two(p0: Pc, p1: Pc, v: Service, global: seq<Sid>): State {
    State(map[0 := p0, 1 := p1], map[0 := v], global)
  }

  function Launched(registered: bool, ref: int, release: bool): Service {
    Service(registered, ref, [], true, release, false, [], [], [])
  }

  const R0: State := State(map[0 := Idle, 1 := Idle], map[], [])
  const R1: State := Two(Creating(0), Idle, Launched(true, 2, false), [])
  const R2: State := Two(Releasing(0, Launch(0)), Idle, Launched(true, 2, false), [])
  const R3: State := Two(Marking(0), Idle, Launched(true, 1, false), [])
  const R4: State := Two(Marking(0), Releasing(0, Done), Launched(false, 1, false), [])
  const R5: State := Two(Marking(0), Deleting(0, Done), Launched(false, 0, false), [])
  const R6: State := Two(Marking(0), Idle, Launched(false, 0, true), [])
  const R7: State := Two(Launching(0, true), Idle, Launched(false, 0, true), [])
  const R8: State := Two(Reporting(0), Idle, Launched(false, 0, true), [0])

  lemma {:induction false} Created()
    ensures Enabled(R0, Create(0, 0)) && Step(R0, Create(0, 0)) == R1 && Enabled(R1, InitOk(0)) && Step(R1, InitOk(0)) == R2
  {
  }

  lemma {:induction false} GivenBack()
    ensures Enabled(R2, ReleaseRef(0)) && Step(R2, ReleaseRef(0)) == R3 && Enabled(R3, Retire(1, 0)) && Step(R3, Retire(1, 0)) == R4
  {
  }

  lemma {:induction false} Deleted()
    ensures Enabled(R4, ReleaseRef(1)) && Step(R4, ReleaseRef(1)) == R5 && Enabled(R5, MarkRelease(1)) && Step(R5, MarkRelease(1)) == R6
  {
  }

  lemma {:induction false} Used()
    ensures Enabled(R6, MarkInit(0)) && Step(R6, MarkInit(0)) == R7 && Enabled(R7, PushLaunched(0)) && Step(R7, PushLaunched(0)) == R8
  {
  }

  /** A run in which a service is retired between the creator's release and its two accesses: the first
      thread writes `ctx->init` and reports the launch through a freed context. */
  lemma {:induction false} FreedWhileLaunching() returns (run: seq<State>, acts: seq<Action>)
    ensures Execution(run, acts) && run == [R0, R1, R2, R3, R4, R5, R6, R7, R8]
    ensures Unprotected(R6.threads[0], 0) && ContextFreed(R6.services[0])
    ensures Unprotected(R8.threads[0], 0) && ContextFreed(R8.services[0])
  {
    Created();
    GivenBack();
    Deleted();
    Used();
    assert Start(R0);
    hide Step, Enabled, Start;
    run := [R0, R1, R2, R3, R4, R5, R6, R7, R8];
    acts := [Create(0, 0), InitOk(0), ReleaseRef(0), Retire(1, 0), ReleaseRef(1), MarkRelease(1), MarkInit(0), PushLaunched(0)];
  }
}
