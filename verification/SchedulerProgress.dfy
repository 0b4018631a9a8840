/**
 What creating, sending to and retiring a service (skynet_server.c) come to when no other thread steps in
 between: the steps lead through.
 */
module SchedulerProgress {

  import opened Scheduler
  import opened SchedulerHistory

  /** A creation whose init function succeeds leaves a registered service with an empty queue, */
  lemma {:induction false} LaunchStarts(st: State, t: Tid, s: Sid) returns (acts: seq<Action>, last: State)
    requires t in st.threads && st.threads[t].Idle? && s !in st.services
    ensures acts == [Create(t, s), InitOk(t), ReleaseRef(t)] && Leads(st, acts, last)
    ensures last == st.(services := st.services[s := Service(true, 1, [], true, false, false, [], [], [])], threads := st.threads[t := Marking(s)])
  {
    hide Leads;
    var s1 := Step(st, Create(t, s));
    assert s1.threads[t] == Creating(s);
    var s2 := Step(s1, InitOk(t));
    assert s2.threads[t] == Releasing(s, Launch(s));
    last := Step(s2, ReleaseRef(t));
    hide Step, Enabled;
    LeadsNone(last);
    acts := [];
    LeadsFirst(s2, ReleaseRef(t), acts, last);
    acts := [ReleaseRef(t)] + acts;
    LeadsFirst(s1, InitOk(t), acts, last);
    acts := [InitOk(t)] + acts;
    LeadsFirst(st, Create(t, s), acts, last);
    acts := [Create(t, s)] + acts;
  }

  /** which goes to the end of the global list. */
  lemma {:induction false} LaunchEnds(st: State, t: Tid, s: Sid) returns (acts: seq<Action>, last: State)
    requires t in st.threads && st.threads[t] == Marking(s)
    ensures acts == [MarkInit(t), PushLaunched(t), Report(t)] && Leads(st, acts, last)
    ensures last == st.(global := st.global + [s], threads := st.threads[t := Idle])
  {
    hide Leads;
    var s1 := Step(st, MarkInit(t));
    assert s1.threads[t] == Launching(s, true);
    var s2 := Step(s1, PushLaunched(t));
    assert s2.threads[t] == Reporting(s);
    last := Step(s2, Report(t));
    hide Step, Enabled;
    LeadsNone(last);
    acts := [];
    LeadsFirst(s2, Report(t), acts, last);
    acts := [Report(t)] + acts;
    LeadsFirst(s1, PushLaunched(t), acts, last);
    acts := [PushLaunched(t)] + acts;
    LeadsFirst(st, MarkInit(t), acts, last);
    acts := [MarkInit(t)] + acts;
  }

  /** Sending puts the message behind the others and, if nobody works on the queue, the queue behind the others. */
  lemma {:induction false} SendThrough(st: State, t: Tid, s: Sid, m: Message) returns (acts: seq<Action>, last: State)
    requires t in st.threads && st.threads[t].Idle? && s in st.services && st.services[s].registered && st.services[s].ref >= 1
    ensures acts == [SendGrab(t, s, m), Push(t), ReleaseRef(t)] && Leads(st, acts, last)
    ensures var v := st.services[s];
            && last.services == st.services[s := v.(msgs := v.msgs + [m], pushed := v.pushed + [m], inGlobal := true)]
            && last.global == (if v.inGlobal then st.global else st.global + [s]) && last.threads == st.threads[t := Idle]
  {
    hide Leads;
    var s1 := Step(st, SendGrab(t, s, m));
    assert s1.threads[t] == Pushing(s, m);
    var s2 := Step(s1, Push(t));
    assert s2.threads[t] == Releasing(s, Done);
    last := Step(s2, ReleaseRef(t));
    hide Step, Enabled;
    LeadsNone(last);
    acts := [];
    LeadsFirst(s2, ReleaseRef(t), acts, last);
    acts := [ReleaseRef(t)] + acts;
    LeadsFirst(s1, Push(t), acts, last);
    acts := [Push(t)] + acts;
    LeadsFirst(st, SendGrab(t, s, m), acts, last);
    acts := [SendGrab(t, s, m)] + acts;
  }

  /** Retiring a service that nobody uses marks its queue for release and sees to it that somebody finds it. */
  lemma {:induction false} RetireThrough(st: State, t: Tid, s: Sid) returns (acts: seq<Action>, last: State)
    requires t in st.threads && st.threads[t].Idle? && s in st.services && st.services[s].registered && st.services[s].ref == 1
    ensures acts == [Retire(t, s), ReleaseRef(t), MarkRelease(t)] && Leads(st, acts, last)
    ensures var v := st.services[s];
            && last.services == st.services[s := v.(registered := false, ref := 0, release := true)]
            && last.global == (if v.inGlobal then st.global else st.global + [s]) && last.threads == st.threads[t := Idle]
  {
    hide Leads;
    var s1 := Step(st, Retire(t, s));
    assert s1.threads[t] == Releasing(s, Done);
    var s2 := Step(s1, ReleaseRef(t));
    assert s2.threads[t] == Deleting(s, Done);
    last := Step(s2, MarkRelease(t));
    hide Step, Enabled;
    LeadsNone(last);
    acts := [];
    LeadsFirst(s2, MarkRelease(t), acts, last);
    acts := [MarkRelease(t)] + acts;
    LeadsFirst(s1, ReleaseRef(t), acts, last);
    acts := [ReleaseRef(t)] + acts;
    LeadsFirst(st, Retire(t, s), acts, last);
    acts := [Retire(t, s)] + acts;
  }

  /** A creation whose init function fails is taken back: */
  lemma {:induction false} FailStarts(st: State, t: Tid, s: Sid) returns (acts: seq<Action>, last: State)
    requires t in st.threads && st.threads[t].Idle? && s !in st.services
    ensures acts == [Create(t, s), InitFail(t), ReleaseRef(t)] && Leads(st, acts, last)
    ensures last == st.(services := st.services[s := Service(true, 1, [], true, false, false, [], [], [])], threads := st.threads[t := Undoing(s)])
  {
    hide Leads;
    var s1 := Step(st, Create(t, s));
    assert s1.threads[t] == Creating(s);
    var s2 := Step(s1, InitFail(t));
    assert s2.threads[t] == Releasing(s, Undo(s));
    last := Step(s2, ReleaseRef(t));
    hide Step, Enabled;
    LeadsNone(last);
    acts := [];
    LeadsFirst(s2, ReleaseRef(t), acts, last);
    acts := [ReleaseRef(t)] + acts;
    LeadsFirst(s1, InitFail(t), acts, last);
    acts := [InitFail(t)] + acts;
    LeadsFirst(st, Create(t, s), acts, last);
    acts := [Create(t, s)] + acts;
  }

  /** the service is retired and its context goes with the last reference, */
  lemma {:induction false} FailRetires(st: State, t: Tid, s: Sid) returns (acts: seq<Action>, last: State)
    requires t in st.threads && st.threads[t] == Undoing(s) && s in st.services
    requires st.services[s].registered && st.services[s].ref == 1 && st.services[s].inGlobal
    ensures acts == [RetireFailed(t), ReleaseRef(t), MarkRelease(t)] && Leads(st, acts, last)
    ensures last == st.(services := st.services[s := st.services[s].(registered := false, ref := 0, release := true)],
                       threads := st.threads[t := Orphan(s)])
  {
    hide Leads;
    var s1 := Step(st, RetireFailed(t));
    assert s1.threads[t] == Releasing(s, Discard(s));
    var s2 := Step(s1, ReleaseRef(t));
    assert s2.threads[t] == Deleting(s, Discard(s));
    last := Step(s2, MarkRelease(t));
    hide Step, Enabled;
    LeadsNone(last);
    acts := [];
    LeadsFirst(s2, MarkRelease(t), acts, last);
    acts := [MarkRelease(t)] + acts;
    LeadsFirst(s1, ReleaseRef(t), acts, last);
    acts := [ReleaseRef(t)] + acts;
    LeadsFirst(st, RetireFailed(t), acts, last);
    acts := [RetireFailed(t)] + acts;
  }

  /** and then its queue (`Discards`). */
  lemma {:induction false} FailDrops(st: State, t: Tid, s: Sid) returns (acts: seq<Action>, last: State)
    requires t in st.threads && st.threads[t] == Orphan(s) && s in st.services && st.services[s].release
    ensures acts == [ReleaseQueue(t)] && Leads(st, acts, last)
    ensures last == st.(threads := st.threads[t := Dropping(s)])
  {
    hide Leads;
    last := Step(st, ReleaseQueue(t));
    hide Step, Enabled;
    LeadsNone(last);
    acts := [];
    LeadsFirst(st, ReleaseQueue(t), acts, last);
    acts := [ReleaseQueue(t)] + acts;
  }
}
