/**
 Which copy is current and which copy a reader gets (lua-stm.c), read off the actions of a run alone.
 */
module SharedCopyHistory {

  import opened Wrappers
  import opened SharedCopy

  /** The copy that thread `t` last made for an update. */
  function LastNew(acts: seq<Action>, t: Tid): Option<Cid> {
    if acts == [] then None
    else
      var a := acts[|acts| - 1];
      if a.BeginUpdate? && a.t == t then Some(a.c) else LastNew(acts[..|acts| - 1], t)
  }

  /** The current copy: that of the last update, none after the writer was deleted, the first one before. */
  function CurrentOf(acts: seq<Action>, start: Option<Cid>): Option<Cid> {
    if acts == [] then start
    else
      var before, a := acts[..|acts| - 1], acts[|acts| - 1];
      if a.SwapCopy? then LastNew(before, a.t)
      else if a.ReleaseCurrent? then None
      else CurrentOf(before, start)
  }

  /** When thread `t` last loaded `obj->copy`. */
  function LastLoad(acts: seq<Action>, t: Tid): Option<nat> {
    if acts == [] then None
    else
      var k := |acts| - 1;
      if acts[k].LoadCopy? && acts[k].t == t then Some(k) else LastLoad(acts[..k], t)
  }

  // ---- One step ----

  /** The new copy a writer has in hand. */
  function Bringing(pc: Pc): Option<Cid> {
    match pc
    case WriteWant(n) => Some(n)
    case WriteWait(n) => Some(n)
    case WriteIn(n) => Some(n)
    case _ => None
  }

  /** The copy a reader has loaded. */
  function Loaded(pc: Pc): Option<Option<Cid>> {
    match pc
    case ReadSeen(c) => Some(c)
    case ReadOut(c) => Some(c)
    case Compare(c) => Some(c)
    case Replace(c) => Some(c)
    case _ => None
  }

  lemma {:induction false} StepBringing(st: State, a: Action, t: Tid)
    requires Enabled(st, a) && t in Step(st, a).threads
    ensures t in st.threads
    ensures Bringing(Step(st, a).threads[t].pc).Some? ==>
              if a.BeginUpdate? && a.t == t then Bringing(Step(st, a).threads[t].pc) == Some(a.c)
              else Bringing(st.threads[t].pc) == Bringing(Step(st, a).threads[t].pc)
    ensures Loaded(Step(st, a).threads[t].pc).Some? ==>
              if a.LoadCopy? && a.t == t then Loaded(Step(st, a).threads[t].pc) == Some(st.current)
              else Loaded(st.threads[t].pc) == Loaded(Step(st, a).threads[t].pc)
  {
  }

  lemma {:induction false} StepCurrent(st: State, a: Action)
    requires Enabled(st, a)
    ensures Step(st, a).current == if a.SwapCopy? then Bringing(st.threads[a.t].pc)
                                   else if a.ReleaseCurrent? then None else st.current
    ensures a.SwapCopy? ==> Bringing(st.threads[a.t].pc).Some?
  {
  }

  // ---- Runs ----

  lemma {:induction false} Prefix(acts: seq<Action>, i: nat)
    requires i < |acts|
    ensures acts[..i + 1][..i] == acts[..i] && acts[..i + 1][i] == acts[i]
  {
  }

  lemma {:induction false} NewTold(run: seq<State>, acts: seq<Action>, i: nat, t: Tid)
    requires Execution(run, acts) && i < |run| && t in run[i].threads && Bringing(run[i].threads[t].pc).Some?
    ensures LastNew(acts[..i], t) == Bringing(run[i].threads[t].pc)
  {
    hide Step, Enabled;
    if i > 0 {
      StepBringing(run[i - 1], acts[i - 1], t);
      Prefix(acts, i - 1);
      if !(acts[i - 1].BeginUpdate? && acts[i - 1].t == t) { NewTold(run, acts, i - 1, t); }
    }
  }

  /** In every interleaving the current copy is the one of the last update. */
  lemma {:induction false} CurrentIs(run: seq<State>, acts: seq<Action>, i: nat)
    requires Execution(run, acts) && i < |run|
    ensures run[i].current == CurrentOf(acts[..i], run[0].current)
  {
    if i > 0 {
      CurrentIs(run, acts, i - 1);
      var st, a := run[i - 1], acts[i - 1];
      StepCurrent(st, a);
      Prefix(acts, i - 1);
      assert a.t in st.threads;
      hide Step, Enabled;
      if a.SwapCopy? { NewTold(run, acts, i - 1, a.t); }
    }
  }

  lemma {:induction false} LoadTold(run: seq<State>, acts: seq<Action>, i: nat, t: Tid)
    requires Execution(run, acts) && i < |run| && t in run[i].threads && Loaded(run[i].threads[t].pc).Some?
    ensures LastLoad(acts[..i], t).Some? && LastLoad(acts[..i], t).value < i
    ensures Loaded(run[i].threads[t].pc) == Some(run[LastLoad(acts[..i], t).value].current)
  {
    hide Step, Enabled;
    if i > 0 {
      StepBringing(run[i - 1], acts[i - 1], t);
      Prefix(acts, i - 1);
      if !(acts[i - 1].LoadCopy? && acts[i - 1].t == t) { LoadTold(run, acts, i - 1, t); }
    }
  }

  /** The end of a read: the reader keeps a new copy, or finds that it has it already. */
  predicate EndsRead(st: State, a: Action)
    requires Enabled(st, a)
  {
    a.ReplaceLast? || (a.CompareLast? && !Step(st, a).threads[a.t].pc.Replace?)
  }

  lemma {:induction false} StepLast(st: State, a: Action)
    requires Enabled(st, a) && EndsRead(st, a)
    ensures a.t in st.threads && Loaded(st.threads[a.t].pc) == Some(Step(st, a).threads[a.t].last)
  {
  }

  /** A reader ends with the copy that was current when it loaded `obj->copy`: the one of the last update
      before that. */
  lemma {:induction false} ReaderGets(run: seq<State>, acts: seq<Action>, i: nat) returns (k: nat)
    requires Execution(run, acts) && i < |acts| && EndsRead(run[i], acts[i])
    ensures k < i && acts[k] == LoadCopy(acts[i].t) && acts[i].t in run[i + 1].threads
    ensures run[i + 1].threads[acts[i].t].last == run[k].current == CurrentOf(acts[..k], run[0].current)
  {
    var t := acts[i].t;
    StepLast(run[i], acts[i]);
    StepThreads(run[i], acts[i]);
    hide Step, Enabled;
    LoadTold(run, acts, i, t);
    LastLoadIs(acts[..i], t);
    k := LastLoad(acts[..i], t).value;
    CurrentIs(run, acts, k);
  }

  lemma {:induction false} StepThreads(st: State, a: Action)
    requires Enabled(st, a)
    ensures a.t in Step(st, a).threads
  {
  }

  lemma {:induction false} LastLoadIs(acts: seq<Action>, t: Tid)
    requires LastLoad(acts, t).Some?
    ensures var k := LastLoad(acts, t).value; k < |acts| && acts[k] == LoadCopy(t)
  {
    var n := |acts| - 1;
    if !(acts[n].LoadCopy? && acts[n].t == t) { LastLoadIs(acts[..n], t); }
  }
}
