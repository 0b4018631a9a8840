/**
 What updates, reads and closings of a shared copy (lua-stm.c) come to: no update is lost, and a thread
 that nobody is in the way of gets through.
 */
module SharedCopyProgress {

  import opened Wrappers
  import opened SharedCopy
  import opened SharedCopyHistory

  // ---- Updates ----

  /** The copies thread `t` made for its updates, in order. */
  function Begun(acts: seq<Action>, t: Tid): seq<Cid> {
    if acts == [] then []
    else
      var before, a := acts[..|acts| - 1], acts[|acts| - 1];
      if a.BeginUpdate? && a.t == t then Begun(before, t) + [a.c] else Begun(before, t)
  }

  /** The copies thread `t` made current, in order. */
  function Published(acts: seq<Action>, t: Tid): seq<Cid> {
    if acts == [] then []
    else
      var before, a := acts[..|acts| - 1], acts[|acts| - 1];
      if a.SwapCopy? && a.t == t && LastNew(before, t).Some? then Published(before, t) + [LastNew(before, t).value]
      else Published(before, t)
  }

  function Brought(st: State, t: Tid): seq<Cid> {
    if t in st.threads && Bringing(st.threads[t].pc).Some? then [Bringing(st.threads[t].pc).value] else []
  }

  lemma {:induction false} StepBrings(st: State, a: Action, t: Tid)
    requires Enabled(st, a)
    ensures var now, next := Brought(st, t), Brought(Step(st, a), t);
            if a.t != t then next == now
            else if a.BeginUpdate? then now == [] && next == [a.c]
            else if a.SwapCopy? then now != [] && next == []
            else next == now
  {
  }

  /** In every interleaving every update is published once and in order, except the one in hand. */
  lemma {:induction false} UpdatesNotLost(run: seq<State>, acts: seq<Action>, i: nat, t: Tid)
    requires Execution(run, acts) && i < |run|
    ensures Begun(acts[..i], t) == Published(acts[..i], t) + Brought(run[i], t)
  {
    hide Step, Enabled;
    if i > 0 {
      UpdatesNotLost(run, acts, i - 1, t);
      StepBrings(run[i - 1], acts[i - 1], t);
      Prefix(acts, i - 1);
      if Brought(run[i - 1], t) != [] { NewTold(run, acts, i - 1, t); }
      hide LastNew, Bringing;
    } else {
      StartBrings(run[0], t);
    }
  }

  lemma {:induction false} StartBrings(st: State, t: Tid)
    requires Start(st)
    ensures Brought(st, t) == []
  {
  }

  // ---- Getting through ----

  /** The actions lead from one state to the other. */
  ghost predicate Leads(st: State, acts: seq<Action>, last: State)
    decreases |acts|
  {
    if acts == [] then st == last else Enabled(st, acts[0]) && Leads(Step(st, acts[0]), acts[1..], last)
  }

  lemma {:induction false} LeadsFirst(st: State, a: Action, acts: seq<Action>, last: State)
    requires Enabled(st, a) && Leads(Step(st, a), acts, last)
    ensures Leads(st, [a] + acts, last)
  {
    hide Step, Enabled;
    assert ([a] + acts)[1..] == acts;
  }

  lemma {:induction false} LeadsNone(st: State)
    ensures Leads(st, [], st)
  {
  }

  /** An update with no other writer and no reader gets into the section with its new copy. */
  lemma {:induction false} UpdateEnters(st: State, t: Tid, c: Cid) returns (acts: seq<Action>, last: State)
    requires t in st.threads && st.threads[t].pc.Idle? && c !in st.reference && st.write == 0 && st.read == 0
    ensures acts == [BeginUpdate(t, c), TakeWrite(t), SeeNoReader(t)] && Leads(st, acts, last)
    ensures last == st.(write := 1, reference := st.reference[c := 1], threads := st.threads[t := Thread(WriteIn(c), st.threads[t].last)])
  {
    hide Leads;
    var s1 := Step(st, BeginUpdate(t, c));
    assert s1.threads[t].pc == WriteWant(c);
    var s2 := Step(s1, TakeWrite(t));
    assert s2.threads[t].pc == WriteWait(c);
    last := Step(s2, SeeNoReader(t));
    hide Step, Enabled;
    LeadsNone(last);
    acts := [];
    LeadsFirst(s2, SeeNoReader(t), acts, last);
    acts := [SeeNoReader(t)] + acts;
    LeadsFirst(s1, TakeWrite(t), acts, last);
    acts := [TakeWrite(t)] + acts;
    LeadsFirst(st, BeginUpdate(t, c), acts, last);
    acts := [BeginUpdate(t, c)] + acts;
  }

  /** There it makes that copy the current one, and leaves to release the old one. */
  lemma {:induction false} UpdateSwaps(st: State, t: Tid) returns (acts: seq<Action>, last: State)
    requires t in st.threads && st.threads[t].pc.WriteIn?
    ensures acts == [SwapCopy(t), UnlockWrite(t)] && Leads(st, acts, last)
    ensures last.current == Some(st.threads[t].pc.n) && last.write == 0 && t in last.threads
    ensures last.threads[t].pc == if st.current.Some? then Drop(st.current.value) else Idle
  {
    hide Leads;
    var s1 := Step(st, SwapCopy(t));
    assert s1.threads[t].pc == WriteOut(st.current);
    last := Step(s1, UnlockWrite(t));
    hide Step, Enabled;
    LeadsNone(last);
    acts := [];
    LeadsFirst(s1, UnlockWrite(t), acts, last);
    acts := [UnlockWrite(t)] + acts;
    LeadsFirst(st, SwapCopy(t), acts, last);
    acts := [SwapCopy(t)] + acts;
  }

  /** A reader with no writer gets into the section. */
  lemma {:induction false} ReadEnters(st: State, t: Tid) returns (acts: seq<Action>, last: State)
    requires t in st.threads && st.threads[t].pc.Idle? && st.write == 0
    ensures acts == [BeginRead(t), SeeNoWriter(t), IncRead(t), CheckWrite(t)] && Leads(st, acts, last)
    ensures last == st.(read := st.read + 1, threads := st.threads[t := Thread(ReadIn, st.threads[t].last)])
  {
    hide Leads;
    var s1 := Step(st, BeginRead(t));
    assert s1.threads[t].pc == ReadWait;
    var s2 := Step(s1, SeeNoWriter(t));
    assert s2.threads[t].pc == ReadGo;
    var s3 := Step(s2, IncRead(t));
    assert s3.threads[t].pc == ReadTry;
    last := Step(s3, CheckWrite(t));
    hide Step, Enabled;
    LeadsNone(last);
    acts := [];
    LeadsFirst(s3, CheckWrite(t), acts, last);
    acts := [CheckWrite(t)] + acts;
    LeadsFirst(s2, IncRead(t), acts, last);
    acts := [IncRead(t)] + acts;
    LeadsFirst(s1, SeeNoWriter(t), acts, last);
    acts := [SeeNoWriter(t)] + acts;
    LeadsFirst(st, BeginRead(t), acts, last);
    acts := [BeginRead(t)] + acts;
  }

  /** There it gets the current copy, and leaves. */
  lemma {:induction false} ReadLoads(st: State, t: Tid) returns (acts: seq<Action>, last: State)
    requires t in st.threads && st.threads[t].pc.ReadIn? && Known(st, st.current)
    ensures acts == [LoadCopy(t), IncReference(t), UnlockRead(t)] && Leads(st, acts, last)
    ensures t in last.threads && last.threads[t] == Thread(Compare(st.current), st.threads[t].last)
    ensures last.read == st.read - 1 && last.reference.Keys == st.reference.Keys
  {
    hide Leads;
    var s1 := Step(st, LoadCopy(t));
    assert s1.threads[t].pc == ReadSeen(st.current);
    var s2 := Step(s1, IncReference(t));
    assert s2.threads[t].pc == ReadOut(st.current);
    last := Step(s2, UnlockRead(t));
    hide Step, Enabled;
    LeadsNone(last);
    acts := [];
    LeadsFirst(s2, UnlockRead(t), acts, last);
    acts := [UnlockRead(t)] + acts;
    LeadsFirst(s1, IncReference(t), acts, last);
    acts := [IncReference(t)] + acts;
    LeadsFirst(st, LoadCopy(t), acts, last);
    acts := [LoadCopy(t)] + acts;
  }

  /** A reader that had another copy then keeps the new one instead. */
  lemma {:induction false} ReadKeeps(st: State, t: Tid) returns (acts: seq<Action>, last: State)
    requires t in st.threads && st.threads[t].pc.Compare? && Known(st, st.threads[t].last) && st.threads[t].pc.c != st.threads[t].last
    ensures acts == [CompareLast(t), ReplaceLast(t)] && Leads(st, acts, last)
    ensures t in last.threads && last.threads[t] == Thread(Idle, st.threads[t].pc.c)
  {
    hide Leads;
    var s1 := Step(st, CompareLast(t));
    assert s1.threads[t].pc == Replace(st.threads[t].pc.c);
    last := Step(s1, ReplaceLast(t));
    hide Step, Enabled;
    LeadsNone(last);
    acts := [];
    LeadsFirst(s1, ReplaceLast(t), acts, last);
    acts := [ReplaceLast(t)] + acts;
    LeadsFirst(st, CompareLast(t), acts, last);
    acts := [CompareLast(t)] + acts;
  }

  /** Deleting the writer gets into the section in the same way, */
  lemma {:induction false} CloseEnters(st: State, t: Tid) returns (acts: seq<Action>, last: State)
    requires t in st.threads && st.threads[t].pc.Idle? && st.write == 0 && st.read == 0
    ensures acts == [BeginClose(t), TakeWrite(t), SeeNoReader(t)] && Leads(st, acts, last)
    ensures last == st.(write := 1, threads := st.threads[t := Thread(CloseIn, st.threads[t].last)])
  {
    hide Leads;
    var s1 := Step(st, BeginClose(t));
    assert s1.threads[t].pc == CloseWant;
    var s2 := Step(s1, TakeWrite(t));
    assert s2.threads[t].pc == CloseWait;
    last := Step(s2, SeeNoReader(t));
    hide Step, Enabled;
    LeadsNone(last);
    acts := [];
    LeadsFirst(s2, SeeNoReader(t), acts, last);
    acts := [SeeNoReader(t)] + acts;
    LeadsFirst(s1, TakeWrite(t), acts, last);
    acts := [TakeWrite(t)] + acts;
    LeadsFirst(st, BeginClose(t), acts, last);
    acts := [BeginClose(t)] + acts;
  }

  /** and leaves no current copy. */
  lemma {:induction false} CloseClears(st: State, t: Tid) returns (acts: seq<Action>, last: State)
    requires t in st.threads && st.threads[t].pc.CloseIn? && Known(st, st.current)
    ensures acts == [ReleaseCurrent(t), UnlockWrite(t)] && Leads(st, acts, last)
    ensures last.current == None && last.write == 0 && t in last.threads && last.threads[t].pc.Idle?
  {
    hide Leads;
    var s1 := Step(st, ReleaseCurrent(t));
    assert s1.threads[t].pc == CloseOut;
    last := Step(s1, UnlockWrite(t));
    hide Step, Enabled;
    LeadsNone(last);
    acts := [];
    LeadsFirst(s1, UnlockWrite(t), acts, last);
    acts := [UnlockWrite(t)] + acts;
    LeadsFirst(st, ReleaseCurrent(t), acts, last);
    acts := [ReleaseCurrent(t)] + acts;
  }

  /** A reader that had this copy already gives the new reference back. */
  lemma {:induction false} ReadSame(st: State, t: Tid, d: Cid) returns (acts: seq<Action>, last: State)
    requires t in st.threads && st.threads[t] == Thread(Compare(Some(d)), Some(d)) && d in st.reference
    ensures acts == [CompareLast(t), ReleaseCopy(t)] && Leads(st, acts, last)
    ensures last.threads == st.threads[t := Thread(Idle, Some(d))]
    ensures last.reference == st.reference[d := st.reference[d] - 1] && last.frees == if st.reference[d] <= 1 then st.frees + [d] else st.frees
  {
    hide Leads;
    var s1 := Step(st, CompareLast(t));
    assert s1.threads[t].pc == Drop(d);
    last := Step(s1, ReleaseCopy(t));
    hide Step, Enabled;
    LeadsNone(last);
    acts := [];
    LeadsFirst(s1, ReleaseCopy(t), acts, last);
    acts := [ReleaseCopy(t)] + acts;
    LeadsFirst(st, CompareLast(t), acts, last);
    acts := [CompareLast(t)] + acts;
  }

  /** A reader that is deleted gives its reference back; the last one frees the copy. */
  lemma {:induction false} DeleteThrough(st: State, t: Tid, d: Cid) returns (acts: seq<Action>, last: State)
    requires t in st.threads && st.threads[t] == Thread(Idle, Some(d)) && d in st.reference
    ensures acts == [DeleteReader(t), ReleaseCopy(t)] && Leads(st, acts, last)
    ensures last.threads == st.threads[t := Thread(Idle, None)]
    ensures last.reference == st.reference[d := st.reference[d] - 1] && last.frees == if st.reference[d] <= 1 then st.frees + [d] else st.frees
  {
    hide Leads;
    var s1 := Step(st, DeleteReader(t));
    assert s1.threads[t].pc == Drop(d);
    last := Step(s1, ReleaseCopy(t));
    hide Step, Enabled;
    LeadsNone(last);
    acts := [];
    LeadsFirst(s1, ReleaseCopy(t), acts, last);
    acts := [ReleaseCopy(t)] + acts;
    LeadsFirst(st, DeleteReader(t), acts, last);
    acts := [DeleteReader(t)] + acts;
  }

  /** A reader that meets a writer takes its increment back and waits again. */
  lemma {:induction false} BacksOff(st: State, t: Tid) returns (acts: seq<Action>, last: State)
    requires t in st.threads && st.threads[t].pc.ReadTry? && st.write != 0
    ensures acts == [CheckWrite(t), UndoRead(t)] && Leads(st, acts, last)
    ensures last == st.(read := st.read - 1, threads := st.threads[t := Thread(ReadWait, st.threads[t].last)])
  {
    hide Leads;
    var s1 := Step(st, CheckWrite(t));
    assert s1.threads[t].pc == ReadBack;
    last := Step(s1, UndoRead(t));
    hide Step, Enabled;
    LeadsNone(last);
    acts := [];
    LeadsFirst(s1, UndoRead(t), acts, last);
    acts := [UndoRead(t)] + acts;
    LeadsFirst(st, CheckWrite(t), acts, last);
    acts := [CheckWrite(t)] + acts;
  }
}
