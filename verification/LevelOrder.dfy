/**
 The level-order traversal of bianrytree.c with its fixed queue: `rear` and `front` only ever grow, so
 the queue takes every node of the tree once, from cell 1 on.
 */
module LevelOrder {

  import opened Wrappers
  import opened Traversal

  /** The nodes at depth `k`, left to right. */
  function Level(t: Tree, k: nat): seq<int> {
    if t.Null? then []
    else if k == 0 then [t.data]
    else Level(t.lchild, k - 1) + Level(t.rchild, k - 1)
  }

  /** The nodes at depth `k` of several trees side by side. */
  function LevelAll(ts: seq<Tree>, k: nat): seq<int> {
    if ts == [] then [] else Level(ts[0], k) + LevelAll(ts[1..], k)
  }

  /** The first `n` levels, one after the other. */
  function Levels(ts: seq<Tree>, n: nat): seq<int> {
    if n == 0 then [] else Levels(ts, n - 1) + LevelAll(ts, n - 1)
  }

  function Kids(t: Tree): seq<Tree> {
    if t.Null? then []
    else (if t.lchild.Node? then [t.lchild] else []) + (if t.rchild.Node? then [t.rchild] else [])
  }

  function Children(ts: seq<Tree>): seq<Tree> {
    if ts == [] then [] else Kids(ts[0]) + Children(ts[1..])
  }

  function SizeAll(ts: seq<Tree>): nat {
    if ts == [] then 0 else Size(ts[0]) + SizeAll(ts[1..])
  }

  // ---- Side by side ----

  lemma {:induction false} LevelAllAppend(a: seq<Tree>, b: seq<Tree>, k: nat)
    ensures LevelAll(a + b, k) == LevelAll(a, k) + LevelAll(b, k)
  {
    if a == [] {
      assert a + b == b;
    } else {
      assert (a + b)[1..] == a[1..] + b;
      LevelAllAppend(a[1..], b, k);
    }
  }

  lemma {:induction false} KidsLevel(t: Tree, k: nat)
    ensures LevelAll(Kids(t), k) == Level(t, k + 1)
  {
    if t.Node? {
      assert forall c: Tree :: [c][1..] == [];
      assert forall c: Tree :: LevelAll([c], k) == Level(c, k) + LevelAll([], k);
      LevelAllAppend(if t.lchild.Node? then [t.lchild] else [], if t.rchild.Node? then [t.rchild] else [], k);
    }
  }

  lemma {:induction false} ChildrenLevel(ts: seq<Tree>, k: nat)
    ensures LevelAll(Children(ts), k) == LevelAll(ts, k + 1)
  {
    if ts != [] {
      LevelAllAppend(Kids(ts[0]), Children(ts[1..]), k);
      KidsLevel(ts[0], k);
      ChildrenLevel(ts[1..], k);
    }
  }

  lemma {:induction false} FirstLevel(ts: seq<Tree>, n: nat)
    ensures Levels(ts, n + 1) == LevelAll(ts, 0) + Levels(Children(ts), n)
  {
    if n > 0 {
      FirstLevel(ts, n - 1);
      ChildrenLevel(ts, n - 1);
    }
  }

  lemma {:induction false} ChildrenAppend(a: seq<Tree>, b: seq<Tree>)
    ensures Children(a + b) == Children(a) + Children(b)
  {
    if a == [] {
      assert a + b == b;
    } else {
      assert (a + b)[1..] == a[1..] + b;
      ChildrenAppend(a[1..], b);
    }
  }

  lemma {:induction false} SizeAppend(a: seq<Tree>, b: seq<Tree>)
    ensures SizeAll(a + b) == SizeAll(a) + SizeAll(b)
  {
    if a == [] {
      assert a + b == b;
    } else {
      assert (a + b)[1..] == a[1..] + b;
      SizeAppend(a[1..], b);
    }
  }

  lemma {:induction false} SizeAtLeast(ts: seq<Tree>)
    requires forall i :: 0 <= i < |ts| ==> ts[i].Node?
    ensures SizeAll(ts) >= |ts|
  {
    if ts != [] { SizeAtLeast(ts[1..]); }
  }

  lemma {:induction false} KidsSize(t: Tree)
    requires t.Node?
    ensures Size(t) == 1 + SizeAll(Kids(t)) && forall i :: 0 <= i < |Kids(t)| ==> Kids(t)[i].Node? && Height(Kids(t)[i]) < Height(t)
  {
    SizeAppend(if t.lchild.Node? then [t.lchild] else [], if t.rchild.Node? then [t.rchild] else []);
    assert forall c: Tree :: [c][1..] == [];
    assert forall c: Tree :: SizeAll([c]) == Size(c) + SizeAll([]);
  }

  // ---- The queue ----

  ghost predicate NodesUpTo(ts: seq<Tree>, height: nat) {
    forall i :: 0 <= i < |ts| ==> ts[i].Node? && Height(ts[i]) <= height
  }

  /** The queue holds the rest `a` of one level and the part `b` of the next one found so far. */
  ghost predicate LevelInv(root: Tree, out: seq<int>, a: seq<Tree>, b: seq<Tree>, n: nat) {
    && NodesUpTo(a, n + 1) && NodesUpTo(b, n)
    && out + (LevelAll(a, 0) + Levels(b + Children(a), n)) == Levels([root], Height(root))
    && |out| + SizeAll(a) + SizeAll(b) == Size(root)
  }

  lemma {:induction false} LevelStart(root: Tree)
    requires root.Node?
    ensures LevelInv(root, [], [root], [], Height(root) - 1)
  {
    FirstLevel([root], Height(root) - 1);
    assert [root][1..] == [];
    assert SizeAll([root]) == Size(root) + SizeAll([]);
    assert [] + Children([root]) == Children([root]);
  }

  lemma {:induction false} LevelVisit(root: Tree, out: seq<int>, p: Tree, a: seq<Tree>, b: seq<Tree>, n: nat)
    requires LevelInv(root, out, [p] + a, b, n)
    ensures p.Node? && LevelInv(root, out + [p.data], a, b + Kids(p), n)
    ensures |out| + 1 + |a| + |b + Kids(p)| <= Size(root)
  {
    assert ([p] + a)[0] == p && ([p] + a)[1..] == a;
    KidsSize(p);
    SizeAppend(b, Kids(p));
    assert forall i :: 0 <= i < |a| ==> a[i] == ([p] + a)[i + 1];
    SizeAtLeast(a);
    SizeAtLeast(b + Kids(p));
    LevelRegroup(out, p.data, LevelAll(a, 0), b, Kids(p), Children(a), n);
    hide Levels, Children, LevelAll, SizeAll, Kids, Size, Height;
  }

  lemma {:induction false} LevelRegroup(out: seq<int>, d: int, rest: seq<int>, b: seq<Tree>, kids: seq<Tree>, cs: seq<Tree>, n: nat)
    ensures out + (([d] + rest) + Levels(b + (kids + cs), n)) == (out + [d]) + (rest + Levels(b + kids + cs, n))
  {
    assert b + (kids + cs) == b + kids + cs;
  }

  lemma {:induction false} NextLevel(root: Tree, out: seq<int>, b: seq<Tree>, n: nat)
    requires LevelInv(root, out, [], b, n) && b != []
    ensures n > 0 && LevelInv(root, out, b, [], n - 1)
  {
    assert Height(b[0]) > 0;
    assert b + Children([]) == b && [] + Children(b) == Children(b);
    FirstLevel(b, n - 1);
    assert LevelAll([], 0) == [] && SizeAll([]) == 0;
    hide Levels, Children, LevelAll, SizeAll, Height, Size;
    assert [] + Levels(b, n) == Levels(b, n);
  }

  lemma {:induction false} LevelEnd(root: Tree, out: seq<int>, n: nat)
    requires LevelInv(root, out, [], [], n)
    ensures out == Levels([root], Height(root))
  {
    NoTrees(n);
  }

  lemma {:induction false} NoTrees(n: nat)
    ensures Levels([] + Children([]), n) == []
  {
    if n > 0 { NoTrees(n - 1); }
  }

  /** The global queue; both indices move before they are used, so cell 0 stays empty. */
  class Queue {
    const numQueue: array<Tree>
    var front: nat
    var rear: nat

    ghost predicate Valid()
      reads this
    {
      numQueue.Length == MaxSize && front <= rear < MaxSize
    }

    ghost function Contents(): seq<Tree>
      requires Valid()
      reads this, numQueue
    {
      numQueue[front + 1..rear + 1]
    }

    constructor ()
      ensures Valid() && fresh(numQueue) && rear == 0 && Contents() == []
    {
      numQueue := new Tree[MaxSize](_ => Null);
      front, rear := 0, 0;
    }

    method Push(t: Tree)
      requires Valid() && rear + 1 < MaxSize
      modifies this`rear, numQueue
      ensures Valid() && rear == old(rear) + 1 < MaxSize
      ensures Contents() == old(Contents()) + [t]
    {
      rear := rear + 1;
      numQueue[rear] := t;
    }

    method Pop() returns (t: Tree)
      requires Valid() && Contents() != []
      modifies this`front
      ensures Valid()
      ensures old(Contents()) == [t] + Contents()
    {
      front := front + 1;
      t := numQueue[front];
    }

    method Empty() returns (r: bool)
      requires Valid()
      ensures r <==> Contents() == []
    {
      return rear == front;
    }
  }

  /** The levels in order, if and only if there is a root and fewer than 100 nodes: the source reads the
      data of a missing root and, from 100 nodes on, writes past its queue. */
  method LevelOrderNonRec(root: Tree) returns (r: Option<seq<int>>)
    ensures r == if root.Node? && Size(root) < MaxSize then Some(Levels([root], Height(root))) else None
  {
    hide Queue.Valid, Queue.Contents, QueueInv, Size, Levels, Height;
    if root.Null? { return None; }
    var out: seq<int> := [];
    var queue := new Queue();
    queue.Push(root);
    QueueStart(root);
    assert queue.Contents() == [root];
    var empty := queue.Empty();
    while !empty
      invariant fresh(queue) && fresh(queue.numQueue) && queue.Valid() && queue.rear < MaxSize
      invariant QueueInv(root, out, queue.Contents()) && queue.rear == |out| + |queue.Contents()|
      invariant empty <==> queue.Contents() == []
      decreases Size(root) - |out|
    {
      var p := queue.Pop();
      ghost var rest := queue.Contents();
      QueueVisit(root, out, p, rest);
      out := out + [p.data];
      if p.lchild.Node? {
        if queue.rear + 1 >= MaxSize { return None; }
        queue.Push(p.lchild);
      }
      if p.rchild.Node? {
        if queue.rear + 1 >= MaxSize { return None; }
        queue.Push(p.rchild);
      }
      empty := queue.Empty();
    }
    QueueEnd(root, out);
    return Some(out);
  }

  /** The queue is the rest of one level and the beginning of the next. */
  ghost predicate QueueInv(root: Tree, out: seq<int>, q: seq<Tree>) {
    exists a: seq<Tree>, b: seq<Tree>, n: nat :: q == a + b && LevelInv(root, out, a, b, n)
  }

  lemma {:induction false} QueueStart(root: Tree)
    requires root.Node?
    ensures QueueInv(root, [], [root])
  {
    LevelStart(root);
    hide LevelInv;
    assert [root] == [root] + [];
  }

  /** The first node of the queue is the first of what is left of a level. */
  lemma {:induction false} QueueFront(root: Tree, out: seq<int>, p: Tree, rest: seq<Tree>)
    returns (a: seq<Tree>, b: seq<Tree>, n: nat)
    requires QueueInv(root, out, [p] + rest)
    ensures rest == a + b && LevelInv(root, out, [p] + a, b, n)
  {
    a, b, n :| [p] + rest == a + b && LevelInv(root, out, a, b, n);
    hide LevelInv;
    if a == [] {
      assert b == [p] + rest;
      NextLevel(root, out, b, n);
      a, b, n := rest, [], n - 1;
    } else {
      HeadOf(a, b, p, rest);
      a := a[1..];
    }
  }

  lemma {:induction false} QueueVisit(root: Tree, out: seq<int>, p: Tree, rest: seq<Tree>)
    requires QueueInv(root, out, [p] + rest)
    ensures p.Node? && QueueInv(root, out + [p.data], PushChild(PushChild(rest, p.lchild), p.rchild))
    ensures |out| + 1 + |PushChild(PushChild(rest, p.lchild), p.rchild)| <= Size(root)
  {
    var a, b, n := QueueFront(root, out, p, rest);
    LevelVisit(root, out, p, a, b, n);
    hide LevelInv, Size;
    KidsPushed(p, a, b);
  }

  lemma {:induction false} KidsPushed(p: Tree, a: seq<Tree>, b: seq<Tree>)
    requires p.Node?
    ensures PushChild(PushChild(a + b, p.lchild), p.rchild) == a + (b + Kids(p))
  {
  }

  lemma {:induction false} QueueEnd(root: Tree, out: seq<int>)
    requires QueueInv(root, out, [])
    ensures out == Levels([root], Height(root)) && |out| == Size(root)
  {
    var a: seq<Tree>, b: seq<Tree>, n: nat :| [] == a + b && LevelInv(root, out, a, b, n);
    assert a == [] && b == [];
    LevelEnd(root, out, n);
  }

  lemma {:induction false} HeadOf(a: seq<Tree>, b: seq<Tree>, p: Tree, rest: seq<Tree>)
    requires a != [] && a + b == [p] + rest
    ensures a == [p] + a[1..] && rest == a[1..] + b
  {
    assert (a + b)[0] == a[0] && ([p] + rest)[0] == p;
    assert (a + b)[1..] == a[1..] + b && ([p] + rest)[1..] == rest;
  }

  // ---- Counting a level ----

  /** `LevelNodeNum`: levels count from 1. */
  function LevelNodeNum(t: Tree, k: int): int {
    if t.Null? || k < 1 then 0
    else if k == 1 then 1
    else LevelNodeNum(t.lchild, k - 1) + LevelNodeNum(t.rchild, k - 1)
  }

  lemma {:induction false} LevelNodeNumCounts(t: Tree, k: nat)
    ensures LevelNodeNum(t, k + 1) == |Level(t, k)|
  {
    if t.Node? && k > 0 {
      LevelNodeNumCounts(t.lchild, k - 1);
      LevelNodeNumCounts(t.rchild, k - 1);
    }
  }
}
