/**
 What happened in a run of the scheduler (skynet_mq.c, skynet_server.c), read off its actions alone:
 which messages were handed over, and which creations succeeded. The states agree with it.
 */
module SchedulerHistory {

  import opened Wrappers
  import opened Scheduler

  datatype Letter = Letter(to: Sid, m: Message)

  /** What thread `t` last set out to send. */
  function LastLetter(acts: seq<Action>, t: Tid): Option<Letter> {
    if acts == [] then None
    else
      var a := acts[|acts| - 1];
      if a.SendGrab? && a.t == t then Some(Letter(a.s, a.m)) else LastLetter(acts[..|acts| - 1], t)
  }

  /** The messages handed over to service `q`, in the order of the pushes. */
  function Handed(acts: seq<Action>, q: Sid): seq<Message> {
    if acts == [] then []
    else
      var before, a := acts[..|acts| - 1], acts[|acts| - 1];
      if a.Push? && LastLetter(before, a.t).Some? && LastLetter(before, a.t).value.to == q
      then Handed(before, q) + [LastLetter(before, a.t).value.m]
      else Handed(before, q)
  }

  /** Whether the creation that thread `t` last ran the init function of succeeded. */
  function LastInit(acts: seq<Action>, t: Tid): Option<bool> {
    if acts == [] then None
    else
      var a := acts[|acts| - 1];
      if (a.InitOk? || a.InitFail?) && a.t == t then Some(a.InitOk?) else LastInit(acts[..|acts| - 1], t)
  }

  // ---- One step ----

  lemma {:induction false} StepLetter(st: State, a: Action, t: Tid)
    requires Enabled(st, a) && t in Step(st, a).threads && Step(st, a).threads[t].Pushing?
    ensures var pc := Step(st, a).threads[t];
            if a.SendGrab? && a.t == t then a.s == pc.s && a.m == pc.m else t in st.threads && st.threads[t] == pc
  {
  }

  lemma {:induction false} StepPushed(st: State, a: Action, q: Sid)
    requires Enabled(st, a)
    ensures q in st.services ==> q in Step(st, a).services
    ensures q in Step(st, a).services ==>
              Step(st, a).services[q].pushed
              == if q !in st.services then []
                 else if a.Push? && st.threads[a.t].s == q then st.services[q].pushed + [st.threads[a.t].m]
                 else st.services[q].pushed
    ensures q !in Step(st, a).services ==> !(a.Push? && st.threads[a.t].s == q)
  {
  }

  /** The thread goes on from a successful creation. */
  predicate Launches(pc: Pc) {
    pc.Marking? || pc.Launching? || pc.Reporting? || ((pc.Releasing? || pc.Deleting?) && pc.k.Launch?)
  }

  /** The thread takes a failed creation back. */
  predicate Undoes(pc: Pc) {
    pc.Undoing? || ((pc.Releasing? || pc.Deleting?) && (pc.k.Undo? || pc.k.Discard?))
  }

  lemma {:induction false} StepInit(st: State, a: Action, t: Tid)
    requires Enabled(st, a) && t in Step(st, a).threads
    ensures var pc := Step(st, a).threads[t];
            && (Launches(pc) ==> if (a.InitOk? || a.InitFail?) && a.t == t then a.InitOk? else t in st.threads && Launches(st.threads[t]))
            && (Undoes(pc) ==> if (a.InitOk? || a.InitFail?) && a.t == t then a.InitFail? else t in st.threads && Undoes(st.threads[t]))
  {
  }

  // ---- Runs ----

  lemma {:induction false} Prefix(acts: seq<Action>, i: nat)
    requires i < |acts|
    ensures acts[..i + 1][..i] == acts[..i] && acts[..i + 1][i] == acts[i]
  {
  }

  lemma {:induction false} LetterTold(run: seq<State>, acts: seq<Action>, i: nat, t: Tid)
    requires Execution(run, acts) && i < |run| && t in run[i].threads && run[i].threads[t].Pushing?
    ensures LastLetter(acts[..i], t) == Some(Letter(run[i].threads[t].s, run[i].threads[t].m))
  {
    hide Step, Enabled;
    if i > 0 {
      StepLetter(run[i - 1], acts[i - 1], t);
      Prefix(acts, i - 1);
      if !(acts[i - 1].SendGrab? && acts[i - 1].t == t) { LetterTold(run, acts, i - 1, t); }
    }
  }

  /** In every interleaving what was pushed to a service is exactly what senders handed over to it, in the
      order of their pushes. With `MessagesInOrder` this is what it consumes and drops. */
  lemma {:induction false} PushedIsHanded(run: seq<State>, acts: seq<Action>, i: nat, q: Sid)
    requires Execution(run, acts) && i < |run|
    ensures if q in run[i].services then run[i].services[q].pushed == Handed(acts[..i], q) else Handed(acts[..i], q) == []
  {
    hide Step, Enabled;
    if i > 0 {
      PushedIsHanded(run, acts, i - 1, q);
      var st, a := run[i - 1], acts[i - 1];
      StepPushed(st, a, q);
      Prefix(acts, i - 1);
      if a.Push? {
        PushEnabled(st, a);
        LetterTold(run, acts, i - 1, a.t);
      }
    }
  }

  lemma {:induction false} PushEnabled(st: State, a: Action)
    requires Enabled(st, a) && a.Push?
    ensures a.t in st.threads && st.threads[a.t].Pushing? && st.threads[a.t].s in st.services
  {
  }

  /** Whoever launches a service ran its init function with success; whoever takes it back, without. */
  lemma {:induction false} InitTold(run: seq<State>, acts: seq<Action>, i: nat, t: Tid)
    requires Execution(run, acts) && i < |run| && t in run[i].threads
    ensures Launches(run[i].threads[t]) ==> LastInit(acts[..i], t) == Some(true)
    ensures Undoes(run[i].threads[t]) ==> LastInit(acts[..i], t) == Some(false)
  {
    hide Step, Enabled;
    if i > 0 {
      StepInit(run[i - 1], acts[i - 1], t);
      Prefix(acts, i - 1);
      if t in run[i - 1].threads { InitTold(run, acts, i - 1, t); }
    }
  }

  /** Together: the messages a service got are those handed over to it. */
  lemma {:induction false} ServiceGets(run: seq<State>, acts: seq<Action>, i: nat, q: Sid)
    requires Execution(run, acts) && i < |run| && q in run[i].services
    ensures var v := run[i].services[q];
            Handed(acts[..i], q) == v.consumed + v.dropped + v.msgs
  {
    PushedIsHanded(run, acts, i, q);
    MessagesInOrder(run, acts, i, q);
    hide Handed, Execution;
  }

  // ---- The global list ----

  predicate TakesFirst(st: State, a: Action) {
    st.global != [] && (a.PopGlobal? || a.PopNext?)
  }

  /** A step takes the first queue of the list or puts one at its end. */
  lemma {:induction false} GlobalStep(st: State, a: Action)
    requires Enabled(st, a)
    ensures TakesFirst(st, a) ==> Step(st, a).global == st.global[1..] && a.t in Step(st, a).threads
                                  && HoldsQueue(Step(st, a).threads[a.t], st.global[0])
    ensures !TakesFirst(st, a) ==> st.global <= Step(st, a).global && |Step(st, a).global| <= |st.global| + 1
  {
  }

  ghost function Taken(run: seq<State>, acts: seq<Action>, i: nat, j: nat): nat
    requires |run| == |acts| + 1 && i <= j <= |acts|
  {
    if j == i then 0 else Taken(run, acts, i, j - 1) + if TakesFirst(run[j - 1], acts[j - 1]) then 1 else 0
  }

  /** In every interleaving the global list is served in order: after `n` queues were taken, those behind them
      stand in front, as they stood. */
  lemma {:induction false} FirstInFirstOut(run: seq<State>, acts: seq<Action>, i: nat, j: nat)
    requires Execution(run, acts) && i <= j < |run| && Taken(run, acts, i, j) <= |run[i].global|
    ensures run[i].global[Taken(run, acts, i, j)..] <= run[j].global
    decreases j
  {
    hide Step, Enabled;
    if i < j {
      FirstInFirstOut(run, acts, i, j - 1);
      GlobalStep(run[j - 1], acts[j - 1]);
      hide TakesFirst;
    }
  }

  // ---- What an idle worker does next ----

  /** A worker that finds a registered service with messages first in the global list hands it the oldest. */
  lemma {:induction false} ServesNext(st: State, t: Tid, q: Sid)
    requires t in st.threads && st.threads[t].Idle? && st.global != [] && st.global[0] == q
    requires q in st.services && st.services[q].registered && st.services[q].msgs != []
    ensures Enabled(st, PopGlobal(t))
    ensures var s1 := Step(st, PopGlobal(t));
            && s1.global == st.global[1..] && Enabled(s1, Grab(t))
            && var s2 := Step(s1, Grab(t));
               && Enabled(s2, Pop(t))
               && var s3 := Step(s2, Pop(t));
                  && s3.threads[t] == Serving(q) && q in s3.services
                  && s3.services[q].consumed == st.services[q].consumed + [st.services[q].msgs[0]]
                  && s3.services[q].msgs == st.services[q].msgs[1..]
  {
  }

  /** As long as its batch lasts a worker goes on with the next message. */
  lemma {:induction false} ServesOn(st: State, t: Tid, q: Sid)
    requires t in st.threads && st.threads[t] == Serving(q) && q in st.services && st.services[q].msgs != []
    ensures Enabled(st, Served(t, true)) && Enabled(Step(st, Served(t, true)), Pop(t))
    ensures var s2 := Step(Step(st, Served(t, true)), Pop(t));
            && s2.threads[t] == Serving(q) && q in s2.services
            && s2.services[q].consumed == st.services[q].consumed + [st.services[q].msgs[0]]
  {
  }

  /** After its batch a worker gives way: it goes on with the first queue of the global list, and its own goes
      to the end; only with nobody waiting it keeps its own. */
  lemma {:induction false} GivesWay(st: State, t: Tid, q: Sid)
    requires t in st.threads && st.threads[t] == LoopDone(q)
    ensures Enabled(st, PopNext(t))
    ensures var s1 := Step(st, PopNext(t));
            if st.global == [] then s1.global == [] && s1.threads[t] == Releasing(q, Hold(q))
            else Enabled(s1, PushBack(t))
                 && Step(s1, PushBack(t)).global == st.global[1..] + [q]
                 && Step(s1, PushBack(t)).threads[t] == Releasing(q, Hold(st.global[0]))
  {
  }

  /** A worker that finds a retired and released service drops its messages one by one and frees it. */
  lemma {:induction false} Discards(st: State, t: Tid, q: Sid) returns (acts: seq<Action>, last: State)
    requires t in st.threads && st.threads[t] == Dropping(q) && q in st.services
    ensures Leads(st, acts, last) && t in last.threads && last.threads[t].Idle?
    ensures q in last.services && last.services[q].freed && last.services[q].msgs == []
    ensures last.services[q].dropped == st.services[q].dropped + st.services[q].msgs
    decreases |st.services[q].msgs|
  {
    var next := Step(st, DropOne(t));
    if st.services[q].msgs == [] {
      last := Step(next, Free(t));
      acts := [DropOne(t), Free(t)];
      assert acts[1..] == [Free(t)] && [Free(t)][1..] == [];
    } else {
      var more: seq<Action>;
      more, last := Discards(next, t, q);
      acts := [DropOne(t)] + more;
      assert acts[1..] == more;
    }
  }

  /** The actions lead from one state to the other. */
  ghost predicate Leads(st: State, acts: seq<Action>, last: State)
    decreases |acts|
  {
    if acts == [] then st == last else Enabled(st, acts[0]) && Leads(Step(st, acts[0]), acts[1..], last)
  }

  lemma {:induction false} LeadsFirst(st: State, a: Action, acts: seq<Action>, last: State)
    requires Enabled(st, a) && Leads(Step(st, a), acts, last)
    ensures Leads(st, [a] + acts, last)
  {
    hide Step, Enabled;
    assert ([a] + acts)[1..] == acts;
  }

  lemma {:induction false} LeadsNone(st: State)
    ensures Leads(st, [], st)
  {
  }
}
