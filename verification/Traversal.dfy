/**
 The traversals of bianrytree.c: recursive ones, which define the order, and the ones that keep an
 explicit stack or queue of MaxSize cells. A node carries the address it lives at, because the
 post-order loop compares pointers; output is a sequence. A loop that would write past its stack gives
 None, and that is shown to happen exactly for the trees that need more cells.
 */
module Traversal {

  import opened Wrappers

  const MaxSize: nat := 100

  datatype Tree = Null | Node(address: nat, data: int, lchild: Tree, rchild: Tree)

  // ---- The recursive traversals ----

  function PreOrder(t: Tree): seq<int> {
    if t.Null? then [] else [t.data] + PreOrder(t.lchild) + PreOrder(t.rchild)
  }

  function InOrder(t: Tree): seq<int> {
    if t.Null? then [] else InOrder(t.lchild) + [t.data] + InOrder(t.rchild)
  }

  function PostOrder(t: Tree): seq<int> {
    if t.Null? then [] else PostOrder(t.lchild) + PostOrder(t.rchild) + [t.data]
  }

  // ---- Trees ----

  function Height(t: Tree): nat {
    if t.Null? then 0
    else 1 + if Height(t.lchild) > Height(t.rchild) then Height(t.lchild) else Height(t.rchild)
  }

  function Size(t: Tree): nat {
    if t.Null? then 0 else 1 + Size(t.lchild) + Size(t.rchild)
  }

  function Addresses(t: Tree): set<nat> {
    if t.Null? then {} else {t.address} + Addresses(t.lchild) + Addresses(t.rchild)
  }

  /** No two nodes share an address. */
  predicate Distinct(t: Tree) {
    t.Node? ==>
      && Distinct(t.lchild) && Distinct(t.rchild)
      && t.address !in Addresses(t.lchild) && t.address !in Addresses(t.rchild)
      && Addresses(t.lchild) !! Addresses(t.rchild)
  }

  /** Pointer equality. */
  predicate Same(a: Tree, b: Tree) {
    (a.Null? && b.Null?) || (a.Node? && b.Node? && a.address == b.address)
  }

  ghost predicate Nodes(s: seq<Tree>) {
    forall i :: 0 <= i < |s| ==> s[i].Node?
  }

  function Max(a: nat, b: nat): nat {
    if a > b then a else b
  }

  method Push(stack: array<Tree>, top: int, t: Tree) returns (top': int)
    requires -1 <= top < stack.Length - 1
    modifies stack
    ensures top' == top + 1 && stack[..top' + 1] == old(stack[..top + 1]) + [t]
  {
    top' := top + 1;
    stack[top'] := t;
  }

  // ---- Pre-order ----

  /** Cells the pre-order loop needs for a tree: a left subtree is done above its pending right one. */
  function PreCells(t: Tree): nat {
    if t.Null? then 0
    else Max(1, Max((if t.rchild.Node? then 1 else 0) + PreCells(t.lchild), PreCells(t.rchild)))
  }

  /** What the nodes on the stack still have to output. */
  ghost function PreRest(s: seq<Tree>): seq<int> {
    if s == [] then [] else PreOrder(s[|s| - 1]) + PreRest(s[..|s| - 1])
  }

  /** Cells the nodes on the stack will still need. */
  ghost function PreUse(s: seq<Tree>): nat {
    if s == [] then 0 else Max(|s| - 1 + PreCells(s[|s| - 1]), PreUse(s[..|s| - 1]))
  }

  /** Output so far and stack make the whole output, cells used so far and still to use the whole need. */
  ghost predicate PreInv(root: Tree, out: seq<int>, s: seq<Tree>, used: nat) {
    && Nodes(s) && |s| <= used
    && out + PreRest(s) == PreOrder(root) && Max(used, PreUse(s)) == PreCells(root)
  }

  lemma {:induction false} PrePush(s: seq<Tree>, p: Tree)
    ensures PreRest(s + [p]) == PreOrder(p) + PreRest(s)
    ensures PreUse(s + [p]) == Max(|s| + PreCells(p), PreUse(s))
  {
    assert (s + [p])[..|s|] == s;
  }

  function PushChild(s: seq<Tree>, p: Tree): seq<Tree> {
    if p.Node? then s + [p] else s
  }

  lemma {:induction false} PushChildIs(s: seq<Tree>, p: Tree)
    requires Nodes(s)
    ensures Nodes(PushChild(s, p)) && PreRest(PushChild(s, p)) == PreOrder(p) + PreRest(s)
    ensures PreUse(PushChild(s, p)) == if p.Node? then Max(|s| + PreCells(p), PreUse(s)) else PreUse(s)
    ensures |PushChild(s, p)| == |s| + if p.Node? then 1 else 0
  {
    if p.Node? { PrePush(s, p); }
  }

  lemma {:induction false} PreRegroup(out: seq<int>, d: int, a: seq<int>, b: seq<int>, rest: seq<int>)
    ensures out + (([d] + a + b) + rest) == (out + [d]) + (a + (b + rest))
  {
  }

  /** The need of a node is what its children need above what is below them. */
  lemma {:induction false} PreNeed(p: Tree, k: nat, below: nat, used: nat)
    requires p.Node? && used >= k + 1
    ensures var l, r := PreCells(p.lchild), PreCells(p.rchild);
            var bit := if p.rchild.Node? then 1 else 0;
            var mine := if p.rchild.Node? then Max(k + r, below) else below;
            var both := if p.lchild.Node? then Max(k + bit + l, mine) else mine;
            var size := k + bit + if p.lchild.Node? then 1 else 0;
            Max(used, Max(k + PreCells(p), below)) == Max(Max(used, size), both)
  {
    assert p.lchild.Node? ==> PreCells(p.lchild) >= 1;
  }

  lemma {:induction false} PreVisitUse(s: seq<Tree>, p: Tree, used: nat)
    requires Nodes(s) && p.Node? && |s| < used
    ensures var s' := PushChild(PushChild(s, p.rchild), p.lchild);
            Nodes(s') && Max(used, PreUse(s + [p])) == Max(Max(used, |s'|), PreUse(s'))
  {
    PrePush(s, p);
    PushChildIs(s, p.rchild);
    PushChildIs(PushChild(s, p.rchild), p.lchild);
    PreNeed(p, |s|, PreUse(s), used);
    hide PreUse, PreCells, PushChild, PreOrder, PreRest;
  }

  lemma {:induction false} PreVisitRest(out: seq<int>, s: seq<Tree>, p: Tree)
    requires Nodes(s) && p.Node?
    ensures out + PreRest(s + [p]) == (out + [p.data]) + PreRest(PushChild(PushChild(s, p.rchild), p.lchild))
  {
    PrePush(s, p);
    PushChildIs(s, p.rchild);
    PushChildIs(PushChild(s, p.rchild), p.lchild);
    PreRegroup(out, p.data, PreOrder(p.lchild), PreOrder(p.rchild), PreRest(s));
    assert PreOrder(p) == [p.data] + PreOrder(p.lchild) + PreOrder(p.rchild);
    hide PreUse, PreCells, PushChild, PreOrder, PreRest;
  }

  lemma {:induction false} PreVisit(root: Tree, out: seq<int>, s: seq<Tree>, p: Tree, used: nat)
    requires PreInv(root, out, s + [p], used)
    ensures p.Node? && |out| < |PreOrder(root)| && |s| < used
    ensures var s' := PushChild(PushChild(s, p.rchild), p.lchild);
            PreInv(root, out + [p.data], s', Max(used, |s'|)) && |s'| <= PreCells(root)
  {
    assert (s + [p])[|s|] == p && forall i :: 0 <= i < |s| ==> (s + [p])[i] == s[i];
    PreVisitUse(s, p, used);
    PreVisitRest(out, s, p);
    hide PreOrder, PreRest, PreUse, PreCells, PushChild;
  }

  lemma {:induction false} PreStart(root: Tree)
    requires root.Node?
    ensures PreInv(root, [], [root], 1)
  {
    assert [] + [root] == [root];
    PrePush([], root);
  }

  lemma {:induction false} PreEnd(root: Tree, out: seq<int>, used: nat)
    requires PreInv(root, out, [], used)
    ensures out == PreOrder(root) && used == PreCells(root)
  {
  }

  /** The right child goes below the left one. */
  method PushChildren(stack: array<Tree>, top: int, p: Tree) returns (fits: bool, top': int)
    requires p.Node? && stack.Length == MaxSize && -1 <= top < MaxSize - 1
    modifies stack
    ensures fits <==> |PushChild(PushChild(old(stack[..top + 1]), p.rchild), p.lchild)| <= MaxSize
    ensures fits ==> top <= top' < MaxSize && stack[..top' + 1] == PushChild(PushChild(old(stack[..top + 1]), p.rchild), p.lchild)
  {
    top' := top;
    if p.rchild.Node? {
      top' := Push(stack, top', p.rchild);
    }
    if p.lchild.Node? {
      if top' + 1 >= MaxSize { return false, top'; }
      top' := Push(stack, top', p.lchild);
    }
    return true, top';
  }

  method PreOrderNonRec(root: Tree) returns (r: Option<seq<int>>)
    ensures r == if PreCells(root) <= MaxSize then Some(PreOrder(root)) else None
  {
    var out: seq<int> := [];
    if root.Null? { return Some(out); }
    PreStart(root);
    hide PreInv, PreOrder, PreCells, PushChild, Max;
    var stack := new Tree[MaxSize](_ => Null);
    var top := 0;
    stack[top] := root;
    ghost var s: seq<Tree> := [root];
    ghost var used: nat := 1;
    while top > -1
      invariant -1 <= top < MaxSize && stack[..top + 1] == s && PreInv(root, out, s, used) && used <= MaxSize
      decreases |PreOrder(root)| - |out|
    {
      var p := stack[top];
      s := stack[..top];
      assert stack[..top + 1] == s + [p];
      PreVisit(root, out, s, p, used);
      top := top - 1;
      out := out + [p.data];
      var fits: bool;
      fits, top := PushChildren(stack, top, p);
      if !fits { return None; }
      s := PushChild(PushChild(s, p.rchild), p.lchild);
      MaxIs(used, |s|);
      used := Max(used, |s|);
    }
    PreEnd(root, out, used);
    return Some(out);
  }

  lemma {:induction false} MaxIs(a: nat, b: nat)
    ensures Max(a, b) == a || Max(a, b) == b
  {
  }

  // ---- In-order ----

  /** Cells the in-order loop needs: a node stays below its left subtree and is gone before its right. */
  function InCells(t: Tree): nat {
    if t.Null? then 0 else Max(1 + InCells(t.lchild), InCells(t.rchild))
  }

  /** A node on the stack still has itself and its right subtree to output. */
  ghost function InRest(s: seq<Tree>): seq<int>
    requires Nodes(s)
  {
    if s == [] then []
    else
      var e := s[|s| - 1];
      [e.data] + InOrder(e.rchild) + InRest(s[..|s| - 1])
  }

  ghost function InUse(s: seq<Tree>): nat
    requires Nodes(s)
  {
    if s == [] then 0 else Max(|s| - 1 + InCells(s[|s| - 1].rchild), InUse(s[..|s| - 1]))
  }

  ghost predicate InInv(root: Tree, out: seq<int>, p: Tree, s: seq<Tree>, used: nat) {
    && Nodes(s) && |s| <= used
    && out + (InOrder(p) + InRest(s)) == InOrder(root)
    && Max(used, Max(|s| + InCells(p), InUse(s))) == InCells(root)
  }

  lemma {:induction false} InPush(s: seq<Tree>, p: Tree)
    requires p.Node? && Nodes(s)
    ensures InRest(s + [p]) == [p.data] + InOrder(p.rchild) + InRest(s)
    ensures InUse(s + [p]) == Max(|s| + InCells(p.rchild), InUse(s))
  {
    assert (s + [p])[..|s|] == s;
  }

  lemma {:induction false} InDown(root: Tree, out: seq<int>, p: Tree, s: seq<Tree>, used: nat)
    requires InInv(root, out, p, s, used) && p.Node?
    ensures InInv(root, out, p.lchild, s + [p], Max(used, |s| + 1)) && |s| + 1 <= InCells(root)
    ensures Height(p.lchild) < Height(p)
  {
    InPush(s, p);
    assert InOrder(p) + InRest(s) == InOrder(p.lchild) + ([p.data] + InOrder(p.rchild) + InRest(s));
    hide InOrder, InRest, InUse;
  }

  lemma {:induction false} InVisit(root: Tree, out: seq<int>, q: Tree, p: Tree, s: seq<Tree>, used: nat)
    requires InInv(root, out, q, s + [p], used) && q.Null?
    ensures p.Node? && InInv(root, out + [p.data], p.rchild, s, used) && |out| < |InOrder(root)|
  {
    assert (s + [p])[|s|] == p && forall i :: 0 <= i < |s| ==> (s + [p])[i] == s[i];
    InPush(s, p);
    assert [p.data] + InOrder(p.rchild) + InRest(s) == [p.data] + (InOrder(p.rchild) + InRest(s));
    assert InOrder(q) == [] && InCells(q) == 0;
    hide InOrder, InRest, InUse, InCells;
  }

  lemma {:induction false} InEnd(root: Tree, out: seq<int>, p: Tree, used: nat)
    requires InInv(root, out, p, [], used) && p.Null?
    ensures out == InOrder(root) && used == InCells(root)
  {
  }

  lemma {:induction false} InStart(root: Tree)
    ensures InInv(root, [], root, [], 0)
  {
  }

  method InOrderNonRec(root: Tree) returns (r: Option<seq<int>>)
    ensures r == if InCells(root) <= MaxSize then Some(InOrder(root)) else None
  {
    var out: seq<int> := [];
    if root.Null? { return Some(out); }
    InStart(root);
    hide InInv, InOrder, InCells, Height, Max;
    var stack := new Tree[MaxSize](_ => Null);
    var top, p := -1, root;
    ghost var s: seq<Tree> := [];
    ghost var used: nat := 0;
    while top > -1 || p.Node?
      invariant -1 <= top < MaxSize && stack[..top + 1] == s && InInv(root, out, p, s, used) && used <= MaxSize
      decreases |InOrder(root)| - |out|
    {
      while p.Node?
        invariant -1 <= top < MaxSize && stack[..top + 1] == s && InInv(root, out, p, s, used) && used <= MaxSize
        invariant top > -1 || p.Node?
        decreases Height(p)
      {
        InDown(root, out, p, s, used);
        if top + 1 >= MaxSize { return None; }
        top := Push(stack, top, p);
        MaxIs(used, |s| + 1);
        used := Max(used, |s| + 1);
        s := s + [p];
        p := p.lchild;
      }
      if top > -1 {
        ghost var q := p;
        p := stack[top];
        s := stack[..top];
        assert stack[..top + 1] == s + [p];
        InVisit(root, out, q, p, s, used);
        top := top - 1;
        out := out + [p.data];
        p := p.rchild;
      }
    }
    InEnd(root, out, p, used);
    return Some(out);
  }

  // ---- Post-order ----

  /** What the nodes on the stack still have to output when the one above them, `p`, is finished: a
      right subtree, unless that is what `p` is, and the node itself. */
  ghost function PostRest(s: seq<Tree>, p: Tree): (r: seq<int>)
    requires Nodes(s)
    ensures |r| >= |s|
  {
    if s == [] then []
    else
      var e := s[|s| - 1];
      var mine := if Same(e.rchild, p) then [e.data] else PostOrder(e.rchild) + [e.data];
      mine + PostRest(s[..|s| - 1], e)
  }

  /** Cells their right subtrees will need: a node stays on the stack until both are done, so that the
      need of a tree is its height. */
  ghost function PostUse(s: seq<Tree>, p: Tree): nat
    requires Nodes(s)
  {
    if s == [] then 0
    else
      var e := s[|s| - 1];
      Max(if Same(e.rchild, p) then 0 else |s| + Height(e.rchild), PostUse(s[..|s| - 1], e))
  }

  ghost predicate AllDistinct(s: seq<Tree>) {
    forall i :: 0 <= i < |s| ==> Distinct(s[i])
  }

  /** The subtree `p` is to be done next, then what is on the stack. */
  ghost predicate Pending(root: Tree, out: seq<int>, p: Tree, s: seq<Tree>, used: nat) {
    && Nodes(s) && AllDistinct(s) && Distinct(p) && |s| <= used
    && out + (PostOrder(p) + PostRest(s, p)) == PostOrder(root)
    && Max(used, Max(|s| + Height(p), PostUse(s, p))) == Height(root)
  }

  /** The subtree `p` was done last; what is on the stack is left. */
  ghost predicate Done(root: Tree, out: seq<int>, p: Tree, s: seq<Tree>, used: nat) {
    && Nodes(s) && AllDistinct(s) && |s| <= used
    && out + PostRest(s, p) == PostOrder(root) && Max(used, PostUse(s, p)) == Height(root)
  }

  lemma {:induction false} PostPush(s: seq<Tree>, e: Tree, p: Tree)
    requires e.Node? && Nodes(s)
    ensures PostRest(s + [e], p) == (if Same(e.rchild, p) then [e.data] else PostOrder(e.rchild) + [e.data]) + PostRest(s, e)
    ensures PostUse(s + [e], p) == Max(if Same(e.rchild, p) then 0 else |s| + 1 + Height(e.rchild), PostUse(s, e))
  {
    assert (s + [e])[..|s|] == s;
  }

  lemma {:induction false} OwnAddress(t: Tree)
    ensures t.Node? ==> t.address in Addresses(t)
  {
  }

  /** Two children of one node have different addresses unless both are missing. */
  lemma {:induction false} ChildrenDiffer(e: Tree)
    requires e.Node? && Distinct(e)
    ensures Same(e.rchild, e.lchild) ==> e.rchild.Null? && PostOrder(e.rchild) == []
  {
    OwnAddress(e.lchild);
    OwnAddress(e.rchild);
    hide Addresses;
  }

  lemma {:induction false} Regroup(a: seq<int>, b: seq<int>, d: int, rest: seq<int>)
    ensures (a + b + [d]) + rest == a + ((b + [d]) + rest)
    ensures b == [] ==> (a + b + [d]) + rest == a + ([d] + rest)
  {
  }

  lemma {:induction false} PostDown(root: Tree, out: seq<int>, p: Tree, s: seq<Tree>, used: nat)
    requires Pending(root, out, p, s, used) && p.Node?
    ensures Pending(root, out, p.lchild, s + [p], Max(used, |s| + 1)) && |s| + 1 <= Height(root)
    ensures Height(p.lchild) < Height(p)
  {
    PostPush(s, p, p.lchild);
    ChildrenDiffer(p);
    Regroup(PostOrder(p.lchild), PostOrder(p.rchild), p.data, PostRest(s, p));
    hide Addresses, Same, PostRest, PostUse;
  }

  lemma {:induction false} NothingPending(root: Tree, out: seq<int>, p: Tree, s: seq<Tree>, used: nat)
    requires Pending(root, out, p, s, used) && p.Null?
    ensures Done(root, out, p, s, used)
  {
  }

  lemma {:induction false} TopOf(s: seq<Tree>, e: Tree)
    requires Nodes(s + [e]) && AllDistinct(s + [e])
    ensures Nodes(s) && AllDistinct(s) && e.Node? && Distinct(e)
  {
    assert (s + [e])[|s|] == e && forall i :: 0 <= i < |s| ==> (s + [e])[i] == s[i];
  }

  lemma {:induction false} PostVisit(root: Tree, out: seq<int>, p: Tree, s: seq<Tree>, e: Tree, used: nat)
    requires Done(root, out, p, s + [e], used) && e.Node? && Same(e.rchild, p)
    ensures Done(root, out + [e.data], e, s, used) && |out| < |PostOrder(root)|
  {
    TopOf(s, e);
    PostPush(s, e, p);
    hide PostRest, PostUse, PostOrder, Height;
  }

  lemma {:induction false} PostRight(root: Tree, out: seq<int>, p: Tree, s: seq<Tree>, e: Tree, used: nat)
    requires Done(root, out, p, s + [e], used) && e.Node? && !Same(e.rchild, p)
    ensures Pending(root, out, e.rchild, s + [e], used)
  {
    TopOf(s, e);
    PostPush(s, e, p);
    PostPush(s, e, e.rchild);
    assert PostOrder(e.rchild) + [e.data] + PostRest(s, e) == PostOrder(e.rchild) + ([e.data] + PostRest(s, e));
    hide PostRest, PostUse, PostOrder, Height;
  }

  lemma {:induction false} PendingBound(root: Tree, out: seq<int>, p: Tree, s: seq<Tree>, used: nat)
    requires Pending(root, out, p, s, used)
    ensures |out| + |s| <= |PostOrder(root)|
  {
  }

  lemma {:induction false} NodeOnStack(root: Tree, out: seq<int>, p: Tree, s: seq<Tree>, e: Tree, used: nat)
    requires Done(root, out, p, s + [e], used)
    ensures e.Node?
  {
    TopOf(s, e);
  }

  lemma {:induction false} PostStart(root: Tree)
    requires Distinct(root)
    ensures Pending(root, [], root, [], 0)
  {
  }

  /** The loop ends and outputs what the recursion does within the height; a pass that outputs nothing
      went to a right child, which the next pass pushes. */
  method PostOrderNonRec(root0: Tree) returns (r: Option<seq<int>>)
    requires Distinct(root0)
    ensures r == if Height(root0) <= MaxSize then Some(PostOrder(root0)) else None
  {
    var out: seq<int> := [];
    var root := root0;
    if root.Null? { return Some(out); }
    PostStart(root);
    hide *;
    var stack := new Tree[MaxSize](_ => Null);
    var top, again := -1, true;
    ghost var s: seq<Tree> := [];
    ghost var used: nat := 0;
    while again
      invariant -1 <= top < MaxSize && stack[..top + 1] == s && used <= MaxSize
      invariant again ==> Pending(root0, out, root, s, used) && (root.Node? || TopHasNoRight(s))
      invariant !again ==> out == PostOrder(root0) && used == Height(root0)
      decreases again, |PostOrder(root0)| - |out|, |PostOrder(root0)| - |s|
    {
      ghost var out0, s0 := out, s;
      while root.Node?
        invariant -1 <= top < MaxSize && stack[..top + 1] == s && Pending(root0, out, root, s, used) && used <= MaxSize
        invariant |s| > |s0| || (s == s0 && (root.Node? || TopHasNoRight(s)))
        decreases Height(root)
      {
        PostDown(root0, out, root, s, used);
        if top + 1 >= MaxSize { return None; }
        top := Push(stack, top, root);
        MaxIs(used, |s| + 1);
        used := Max(used, |s| + 1);
        s := s + [root];
        root := root.lchild;
      }
      PendingBound(root0, out, root, s, used);
      NothingPending(root0, out, root, s, used);
      var p, sign := Null, true;
      while top != -1 && sign
        invariant -1 <= top < MaxSize && stack[..top + 1] == s
        invariant sign ==> Done(root0, out, p, s, used)
        invariant !sign ==> top > -1 && Pending(root0, out, root, s, used) && (root.Node? || TopHasNoRight(s))
        invariant |out| > |out0| || (out == out0 && p.Null? && |s| >= |s0|)
        invariant out == out0 && sign ==> |s| > |s0| || TopHasNoRight(s)
        invariant out == out0 && !sign ==> |s| > |s0|
        decreases sign, |PostOrder(root0)| - |out|
      {
        root := stack[top];
        ghost var below := stack[..top];
        assert s == below + [root];
        NodeOnStack(root0, out, p, below, root, used);
        NullsSame(below, root, p);
        if Same(root.rchild, p) {
          PostVisit(root0, out, p, below, root, used);
          out := out + [root.data];
          top := top - 1;
          s := below;
          p := root;
        } else {
          PostRight(root0, out, p, below, root, used);
          root := root.rchild;
          sign := false;
        }
      }
      again := top != -1;
      if again { PendingBound(root0, out, root, s, used); } else { PostEnd(root0, out, p, used); }
    }
    return Some(out);
  }

  ghost predicate TopHasNoRight(s: seq<Tree>) {
    s != [] && s[|s| - 1].Node? && s[|s| - 1].rchild.Null?
  }

  lemma {:induction false} NullsSame(s: seq<Tree>, e: Tree, p: Tree)
    requires e.Node?
    ensures TopHasNoRight(s + [e]) <==> e.rchild.Null?
    ensures p.Null? && e.rchild.Null? ==> Same(e.rchild, p)
  {
  }

  lemma {:induction false} PostEnd(root: Tree, out: seq<int>, p: Tree, used: nat)
    requires Done(root, out, p, [], used)
    ensures out == PostOrder(root) && used == Height(root)
  {
  }

  // ---- Stack use and height ----

  /** Neither of the other loops ever needs more than the height. */
  lemma {:induction false} CellsWithinHeight(t: Tree)
    ensures PreCells(t) <= Height(t) && InCells(t) <= Height(t)
  {
    if t.Node? {
      CellsWithinHeight(t.lchild);
      CellsWithinHeight(t.rchild);
    }
  }
}
