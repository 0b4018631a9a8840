/**
 Whole runs of the timer wheel of skynet_timer.c, compared with a log of requests and ticks that
 knows nothing of slots, levels or the width of the clock.
 */
module TimerRuns {
  import opened TimerWheel

  datatype Entry = Added(request: Request) | Ticked

  /** Number of ticks in a log. */
  function Ticks(log: seq<Entry>): nat {
    if log == [] then 0 else Ticks(log[..|log| - 1]) + if log[|log| - 1].Ticked? then 1 else 0
  }

  /** Ticks that came after entry `i`. */
  function TicksSince(log: seq<Entry>, i: nat): int
    requires i < |log|
  {
    Ticks(log) - Ticks(log[..i])
  }

  predicate Waiting(log: seq<Entry>, i: nat)
    requires i < |log|
  {
    log[i].Added? && TicksSince(log, i) < log[i].request.delay
  }

  /** The last entry of the log is the tick that request `i` asked for. */
  predicate DueNow(log: seq<Entry>, i: nat)
    requires i < |log|
  {
    log[i].Added? && log[|log| - 1].Ticked? && TicksSince(log, i) == log[i].request.delay
  }

  /** Requests dispatched by the last entry, among the first `n`, oldest first. */
  function DueIndices(log: seq<Entry>, n: nat): (ids: seq<nat>)
    requires n <= |log|
    ensures forall k :: 0 <= k < |ids| ==> ids[k] < n && DueNow(log, ids[k])
  {
    if n == 0 then [] else if DueNow(log, n - 1) then DueIndices(log, n - 1) + [n - 1] else DueIndices(log, n - 1)
  }

  function EventsAt(log: seq<Entry>, ids: seq<nat>): seq<Event>
    requires forall k :: 0 <= k < |ids| ==> ids[k] < |log| && log[ids[k]].Added?
  {
    if ids == [] then [] else EventsAt(log, ids[..|ids| - 1]) + [log[ids[|ids| - 1]].request.event]
  }

  lemma {:induction false} DueIndicesExact(log: seq<Entry>, n: nat)
    requires n <= |log|
    ensures forall i: nat :: i in DueIndices(log, n) <==> i < n && DueNow(log, i)
    ensures forall a, b :: 0 <= a < b < |DueIndices(log, n)| ==> DueIndices(log, n)[a] < DueIndices(log, n)[b]
  {
    if n > 0 {
      DueIndicesExact(log, n - 1);
      var prev, cur := DueIndices(log, n - 1), DueIndices(log, n);
      forall i: nat ensures i in cur <==> i in prev || (i == n - 1 && DueNow(log, n - 1)) {}
    }
  }

  /** What the last tick of the log must dispatch, in this order. */
  function Dispatch(log: seq<Entry>): seq<Event> {
    EventsAt(log, DueIndices(log, |log|))
  }

  /** One list of events for every tick of the log. */
  function Expected(log: seq<Entry>): seq<seq<Event>> {
    if log == [] then [] else
    if log[|log| - 1].Ticked? then Expected(log[..|log| - 1]) + [Dispatch(log)] else Expected(log[..|log| - 1])
  }

  /** One event for every index, in their order. */
  lemma {:induction false} EventsAtIndex(log: seq<Entry>, ids: seq<nat>)
    requires forall k :: 0 <= k < |ids| ==> ids[k] < |log| && log[ids[k]].Added?
    ensures |EventsAt(log, ids)| == |ids|
    ensures forall k :: 0 <= k < |ids| ==> EventsAt(log, ids)[k] == log[ids[k]].request.event
  {
    if ids != [] { EventsAtIndex(log, ids[..|ids| - 1]); }
  }

  /** `list` are the events of the requests `ids`: exactly those made before the tick at `p` whose delay
      that tick completes, oldest first. */
  ghost predicate ServedBy(log: seq<Entry>, p: nat, list: seq<Event>, ids: seq<nat>)
    requires p < |log|
  {
    && |ids| == |list|
    && (forall a, b :: 0 <= a < b < |ids| ==> ids[a] < ids[b])
    && (forall i: nat :: i in ids <==> i < p && log[i].Added? && Ticks(log[..p + 1]) - Ticks(log[..i]) == log[i].request.delay)
    && (forall k :: 0 <= k < |ids| ==> ids[k] < |log| && log[ids[k]].Added? && list[k] == log[ids[k]].request.event)
  }

  ghost predicate Served(log: seq<Entry>, p: nat, list: seq<Event>)
    requires p < |log|
  {
    exists ids: seq<nat> :: ServedBy(log, p, list, ids)
  }

  lemma {:induction false} DispatchServes(log: seq<Entry>)
    requires log != [] && log[|log| - 1].Ticked?
    ensures Served(log, |log| - 1, Dispatch(log))
  {
    var ids := DueIndices(log, |log|);
    DueIndicesExact(log, |log|);
    EventsAtIndex(log, ids);
    assert log[..|log|] == log;
    hide Ticks;
    assert ServedBy(log, |log| - 1, Dispatch(log), ids);
  }

  /** The list of every tick of a log. */
  lemma {:induction false} ExpectedServes(log: seq<Entry>, p: nat)
    requires p < |log| && log[p].Ticked?
    ensures |Expected(log)| == Ticks(log) && Ticks(log[..p]) < Ticks(log)
    ensures Served(log, p, Expected(log)[Ticks(log[..p])])
    decreases |log|
  {
    var init := log[..|log| - 1];
    ExpectedLength(init);
    if p == |log| - 1 {
      DispatchServes(log);
    } else {
      ExpectedServes(init, p);
      assert log[..p] == init[..p];
      ServedLater(init, log, p, Expected(log)[Ticks(log[..p])]);
    }
  }

  lemma {:induction false} ExpectedLength(log: seq<Entry>)
    ensures |Expected(log)| == Ticks(log)
  {
    if log != [] { ExpectedLength(log[..|log| - 1]); }
  }

  lemma {:induction false} ServedLater(init: seq<Entry>, log: seq<Entry>, p: nat, list: seq<Event>)
    requires p < |init| <= |log| && log[..|init|] == init && Served(init, p, list)
    ensures Served(log, p, list)
  {
    var ids: seq<nat> :| ServedBy(init, p, list, ids);
    assert log[..p + 1] == init[..p + 1];
    assert forall i :: 0 <= i < p ==> log[..i] == init[..i] && log[i] == init[i];
    hide Ticks;
    assert ServedBy(log, p, list, ids);
  }

  predicate Completes(log: seq<Entry>, p: nat, i: nat)
    requires i < p < |log|
  {
    log[i].Added? && Ticks(log[..p + 1]) - Ticks(log[..i]) == log[i].request.delay
  }

  lemma {:induction false} PlaceOf(ids: seq<nat>, i: nat, j: nat) returns (a: nat, b: nat)
    requires (forall a, b :: 0 <= a < b < |ids| ==> ids[a] < ids[b]) && i in ids && j in ids && i < j
    ensures a < b < |ids| && ids[a] == i && ids[b] == j
  {
    a :| 0 <= a < |ids| && ids[a] == i;
    b :| 0 <= b < |ids| && ids[b] == j;
  }

  /** Of two requests that one tick serves, the earlier one's event comes first. */
  lemma {:induction false} EarlierFirst(log: seq<Entry>, p: nat, list: seq<Event>, i: nat, j: nat) returns (a: nat, b: nat)
    requires i < j < p < |log| && Served(log, p, list) && Completes(log, p, i) && Completes(log, p, j)
    ensures a < b < |list| && list[a] == log[i].request.event && list[b] == log[j].request.event
  {
    hide Ticks;
    var ids: seq<nat> :| ServedBy(log, p, list, ids);
    assert i in ids && j in ids;
    a, b := PlaceOf(ids, i, j);
  }

  // ---- The reference itself: exactly once, at the requested tick ----

  lemma {:induction false} TicksAppend(log: seq<Entry>, e: Entry)
    ensures Ticks(log + [e]) == Ticks(log) + if e.Ticked? then 1 else 0
  {
    assert (log + [e])[..|log|] == log;
  }

  lemma {:induction false} TicksMonotone(log: seq<Entry>, i: nat)
    requires i <= |log|
    ensures Ticks(log[..i]) <= Ticks(log)
    decreases |log|
  {
    if i < |log| {
      assert log[..i] == log[..|log| - 1][..i];
      TicksMonotone(log[..|log| - 1], i);
    } else {
      assert log[..i] == log;
    }
  }

  /** How many ticks of the log dispatch request `i`. */
  function Dispatches(log: seq<Entry>, i: nat): nat {
    if i >= |log| then 0 else
    Dispatches(log[..|log| - 1], i) + if DueNow(log, i) then 1 else 0
  }

  /** In every log a request is dispatched once if its delay has passed and not at all before. */
  lemma {:induction false} DispatchedExactlyOnce(log: seq<Entry>, i: nat)
    requires i < |log| && log[i].Added?
    ensures Dispatches(log, i) == if TicksSince(log, i) >= log[i].request.delay then 1 else 0
    decreases |log|
  {
    var init := log[..|log| - 1];
    if i == |log| - 1 {
      assert log[..i] == init;
    } else {
      assert init[..i] == log[..i];
      DispatchedExactlyOnce(init, i);
    }
  }

  // ---- The wheel against the reference ----

  /** What a 32-bit counter shows after `n` ticks from zero. */
  function Clock32(n: nat): Time {
    n % WRAP
  }

  function NodeAt(log: seq<Entry>, i: nat): TimerNode
    requires i < |log| && log[i].Added?
  {
    TimerNode(log[i].request.event, Clock32(Ticks(log[..i]) + log[i].request.delay))
  }

  function Outstanding(log: seq<Entry>, n: nat): seq<TimerNode>
    requires n <= |log|
  {
    if n == 0 then [] else if Waiting(log, n - 1) then Outstanding(log, n - 1) + [NodeAt(log, n - 1)] else Outstanding(log, n - 1)
  }

  function DueNodes(log: seq<Entry>, n: nat): seq<TimerNode>
    requires n <= |log|
  {
    if n == 0 then [] else if DueNow(log, n - 1) then DueNodes(log, n - 1) + [NodeAt(log, n - 1)] else DueNodes(log, n - 1)
  }

  function Events(ns: seq<TimerNode>): (es: seq<Event>) {
    if ns == [] then [] else Events(ns[..|ns| - 1]) + [ns[|ns| - 1].event]
  }

  lemma {:induction false} EventsIndex(ns: seq<TimerNode>)
    ensures |Events(ns)| == |ns| && forall k :: 0 <= k < |ns| ==> Events(ns)[k] == ns[k].event
  {
    if ns != [] { EventsIndex(ns[..|ns| - 1]); }
  }

  lemma {:induction false} DueNodesAreDispatched(log: seq<Entry>, n: nat)
    requires n <= |log|
    ensures Events(DueNodes(log, n)) == EventsAt(log, DueIndices(log, n))
  {
    if n > 0 {
      DueNodesAreDispatched(log, n - 1);
      if DueNow(log, n - 1) {
        assert DueNodes(log, n)[..|DueNodes(log, n - 1)|] == DueNodes(log, n - 1);
        assert DueIndices(log, n)[..|DueIndices(log, n - 1)|] == DueIndices(log, n - 1);
      }
    }
  }

  lemma {:induction false} OutstandingAfterAdd(log: seq<Entry>, r: Request, n: nat)
    requires n <= |log|
    ensures Outstanding(log + [Added(r)], n) == Outstanding(log, n)
  {
    if n > 0 {
      OutstandingAfterAdd(log, r, n - 1);
      var log' := log + [Added(r)];
      assert log'[..|log|] == log;
      assert log'[..n - 1] == log[..n - 1];
    }
  }

  lemma {:induction false} DueArithmetic(c: nat, ci: nat, d: Delay)
    requires ci <= c < ci + d
    ensures Clock32(ci + d) == Clock32(c + 1) <==> c + 1 - ci == d
  {
  }

  lemma {:induction false} AgeAfterTick(log: seq<Entry>, i: nat)
    requires i < |log| && log[i].Added?
    ensures var log', now := log + [Ticked], Clock32(Ticks(log + [Ticked]));
            && log'[i] == log[i] && NodeAt(log', i) == NodeAt(log, i)
            && (Waiting(log, i) <==> Waiting(log', i) || DueNow(log', i))
            && !(Waiting(log', i) && DueNow(log', i))
            && (Waiting(log, i) ==> (DueNow(log', i) <==> NodeAt(log, i).expire == now))
  {
    hide Clock32, Ticks;
    var log' := log + [Ticked];
    assert log'[..i] == log[..i];
    TicksAppend(log, Ticked);
    TicksMonotone(log, i);
    if Waiting(log, i) {
      DueArithmetic(Ticks(log), Ticks(log[..i]), log[i].request.delay);
    }
  }

  /** Splitting the outstanding nodes by their 32-bit deadline is splitting the requests by their age. */
  lemma {:induction false} OutstandingAfterTick(log: seq<Entry>, n: nat, now: Time)
    requires n <= |log|
    requires now == Clock32(Ticks(log + [Ticked]))
    ensures Keep(Outstanding(log, n), DueAt(now)) == DueNodes(log + [Ticked], n)
    ensures Keep(Outstanding(log, n), NotDueAt(now)) == Outstanding(log + [Ticked], n)
  {
    if n > 0 {
      hide Ticks, Keep, TicksSince, Waiting, DueNow, NodeAt;
      OutstandingAfterTick(log, n - 1, now);
      if log[n - 1].Added? {
        AgeAfterTick(log, n - 1);
        KeepAppend(Outstanding(log, n - 1), NodeAt(log, n - 1), DueAt(now));
        KeepAppend(Outstanding(log, n - 1), NodeAt(log, n - 1), NotDueAt(now));
      } else {
        NotARequest(log, n - 1);
      }
    } else {
      assert Outstanding(log, n) == [];
    }
  }

  lemma {:induction false} NotARequest(log: seq<Entry>, i: nat)
    requires i < |log| && !log[i].Added?
    ensures !Waiting(log, i) && !Waiting(log + [Ticked], i) && !DueNow(log + [Ticked], i)
  {
  }

  // ---- Whole runs ----

  datatype Op = Timeout(request: Request) | Update(window: seq<Request>)

  /** Requests made while an update runs are served after its tick. */
  function Log(ops: seq<Op>): seq<Entry> {
    if ops == [] then [] else
    Log(ops[..|ops| - 1]) +
    match ops[|ops| - 1]
    case Timeout(r) => [Added(r)]
    case Update(window) => [Ticked] + Requests(window)
  }

  function Requests(rs: seq<Request>): (es: seq<Entry>)
    ensures |es| == |rs|
  {
    if rs == [] then [] else Requests(rs[..|rs| - 1]) + [Added(rs[|rs| - 1])]
  }

  /** The state of the wheel that a log stands for. */
  ghost predicate Follows(log: seq<Entry>, time: Time, pending: seq<TimerNode>) {
    time == Clock32(Ticks(log)) && pending == Outstanding(log, |log|)
  }

  lemma {:induction false} FollowsAdd(log: seq<Entry>, time: Time, pending: seq<TimerNode>, r: Request)
    requires Follows(log, time, pending)
    ensures Follows(log + [Added(r)], time, pending + [TimerNode(r.event, Later(time, r.delay))])
    ensures Expected(log + [Added(r)]) == Expected(log)
  {
    var log' := log + [Added(r)];
    assert log'[..|log|] == log;
    TicksAppend(log, Added(r));
    OutstandingAfterAdd(log, r, |log|);
    LaterIsWrapped(Ticks(log), r.delay);
    assert Waiting(log', |log|);
  }

  lemma {:induction false} LaterIsWrapped(n: nat, d: nat)
    ensures Later(Clock32(n), d) == Clock32(n + d)
  {
  }

  lemma {:induction false} FollowsTick(log: seq<Entry>, time: Time, pending: seq<TimerNode>)
    requires Follows(log, time, pending)
    ensures var now := Later(time, 1);
            && Follows(log + [Ticked], now, Keep(pending, NotDueAt(now)))
            && Expected(log + [Ticked]) == Expected(log) + [Events(Keep(pending, DueAt(now)))]
  {
    var log', now := log + [Ticked], Later(time, 1);
    assert log'[..|log|] == log;
    TicksAppend(log, Ticked);
    LaterIsWrapped(Ticks(log), 1);
    OutstandingAfterTick(log, |log|, now);
    DueNodesAreDispatched(log', |log'|);
  }

  lemma {:induction false} FollowsAdds(log: seq<Entry>, time: Time, pending: seq<TimerNode>, rs: seq<Request>)
    requires Follows(log, time, pending)
    ensures Follows(log + Requests(rs), time, pending + Nodes(rs, time))
    ensures Expected(log + Requests(rs)) == Expected(log)
  {
    if rs == [] {
      assert log + Requests(rs) == log && pending + Nodes(rs, time) == pending;
    } else {
      var k := |rs| - 1;
      FollowsAdds(log, time, pending, rs[..k]);
      FollowsAdd(log + Requests(rs[..k]), time, pending + Nodes(rs[..k], time), rs[k]);
      NodesPrefix(rs, k, time);
      assert rs[..k + 1] == rs;
      assert log + Requests(rs) == (log + Requests(rs[..k])) + [Added(rs[k])];
      assert pending + Nodes(rs, time) == (pending + Nodes(rs[..k], time)) + Nodes(rs, time)[k..];
    }
  }

  lemma {:induction false} StartsEmpty()
    ensures Log([]) == [] && Expected([]) == [] && Follows([], 0, [])
  {
  }

  lemma {:induction false} LogStep(ops: seq<Op>, k: nat)
    requires k < |ops|
    ensures ops[k].Timeout? ==> Log(ops[..k + 1]) == Log(ops[..k]) + [Added(ops[k].request)]
    ensures ops[k].Update? ==> Log(ops[..k + 1]) == (Log(ops[..k]) + [Ticked]) + Requests(ops[k].window)
  {
    assert ops[..k + 1][..k] == ops[..k];
  }

  /** The wheel, started at tick zero and driven by any sequence of requests and updates, dispatches at
      every update exactly the requests whose delay ends there, in the order they were made. */
  method Run(ops: seq<Op>) returns (out: seq<seq<Event>>)
    ensures out == Expected(Log(ops)) && |out| == Ticks(Log(ops))
    ensures forall p :: 0 <= p < |Log(ops)| && Log(ops)[p].Ticked? ==>
              Ticks(Log(ops)[..p]) < |out| && Served(Log(ops), p, out[Ticks(Log(ops)[..p])])
  {
    hide *;
    var w := new Wheel();
    out := [];
    StartsEmpty();
    assert ops[..0] == [];
    var k := 0;
    while k < |ops|
      invariant 0 <= k <= |ops|
      invariant fresh(w) && fresh(w.near) && fresh(w.t)
      invariant w.Valid()
      invariant Follows(Log(ops[..k]), w.time, w.pending)
      invariant out == Expected(Log(ops[..k]))
    {
      ghost var log := Log(ops[..k]);
      LogStep(ops, k);
      match ops[k] {
        case Timeout(r) =>
          FollowsAdd(log, w.time, w.pending, r);
          w.TimerAdd(r);
        case Update(window) =>
          ghost var waiting := w.pending;
          FollowsTick(log, w.time, waiting);
          var fired := w.TimerUpdate(window);
          FollowsAdds(log + [Ticked], w.time, Keep(waiting, NotDueAt(w.time)), window);
          out := out + [Events(fired)];
      }
      k := k + 1;
    }
    assert ops[..|ops|] == ops;
    ghost var log := Log(ops);
    ExpectedLength(log);
    forall p | 0 <= p < |log| && log[p].Ticked? ensures Ticks(log[..p]) < |out| && Served(log, p, out[Ticks(log[..p])]) {
      ExpectedServes(log, p);
    }
  }
}
