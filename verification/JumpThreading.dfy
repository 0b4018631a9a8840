/**
 The final pass `luaK_finish` of the Lua 5.4.6 code generator (lcode.c): return instructions get
 their closing flags and every jump is redirected, in place, to where its chain of jumps leads.
 */
module JumpThreading {

  const MAXARG_SJ: int := 0x1FF_FFFF
  const OFFSET_SJ: int := 0xFF_FFFF
  const HOPS: nat := 100

  datatype Op = Return0 | Return1 | Return | TailCall | Other(code: nat)

  datatype Instruction =
    | Jmp(sJ: int)
    | ABC(op: Op, a: nat, b: nat, c: nat, k: bool)

  /** What the pass needs to know about the function being finished. */
  datatype Flags = Flags(needclose: bool, vararg: bool, numparams: nat)

  predicate InFunction(code: seq<Instruction>) {
    forall p :: 0 <= p < |code| && code[p].Jmp? ==> 0 <= p + 1 + code[p].sJ < |code|
  }

  /** Position after at most `hops` jumps from `p`; a walk stops at the first other instruction. */
  function Walk(code: seq<Instruction>, p: nat, hops: nat): (r: nat)
    requires InFunction(code) && p < |code|
    ensures r < |code|
    decreases hops
  {
    if hops == 0 || !code[p].Jmp? then p else Walk(code, p + 1 + code[p].sJ, hops - 1)
  }

  ghost predicate LandsWithin(code: seq<Instruction>, p: nat, hops: nat)
    requires InFunction(code) && p < |code|
  {
    !code[Walk(code, p, hops)].Jmp?
  }

  /** Control that reaches `p` goes on to execute the non-jump instruction at `dest`. */
  ghost predicate LandsAt(code: seq<Instruction>, p: nat, dest: nat)
    requires InFunction(code) && p < |code|
  {
    exists hops :: LandsWithin(code, p, hops) && Walk(code, p, hops) == dest
  }

  /** A jump lands where the instruction it names lands, counted from the one behind the jump; every
      other instruction is its own landing. */
  lemma {:induction false} LandingIs(code: seq<Instruction>, p: nat, dest: nat)
    requires InFunction(code) && p < |code|
    ensures !code[p].Jmp? ==> (LandsAt(code, p, dest) <==> dest == p)
    ensures code[p].Jmp? ==> (LandsAt(code, p, dest) <==> LandsAt(code, p + 1 + code[p].sJ, dest))
  {
    if code[p].Jmp? {
      var q := p + 1 + code[p].sJ;
      if h: nat :| LandsWithin(code, p, h) && Walk(code, p, h) == dest {
        assert h > 0 && LandsWithin(code, q, h - 1);
      }
      if h: nat :| LandsWithin(code, q, h) && Walk(code, q, h) == dest {
        assert LandsWithin(code, p, h + 1);
      }
    } else {
      assert LandsWithin(code, p, 0);
    }
  }

  lemma {:induction false} WalkAdd(code: seq<Instruction>, p: nat, a: nat, b: nat)
    requires InFunction(code) && p < |code|
    ensures Walk(code, Walk(code, p, a), b) == Walk(code, p, a + b)
    decreases a
  {
    if a > 0 && code[p].Jmp? {
      WalkAdd(code, p + 1 + code[p].sJ, a - 1, b);
    }
  }

  lemma {:induction false} StaysLanded(code: seq<Instruction>, p: nat, a: nat, b: nat)
    requires InFunction(code) && p < |code| && a <= b
    requires LandsWithin(code, p, a)
    ensures Walk(code, p, b) == Walk(code, p, a)
  {
    WalkAdd(code, p, a, b - a);
  }

  // ---- Redirecting one jump ----

  /** `new` is `old` with the jump at `i` redirected `k >= 1` hops further along its own chain. */
  ghost predicate Redirects(old_: seq<Instruction>, new_: seq<Instruction>, i: nat, k: nat) {
    && InFunction(old_) && InFunction(new_) && |old_| == |new_| && i < |old_| && k >= 1
    && (forall p :: 0 <= p < |old_| && p != i ==> new_[p] == old_[p])
    && old_[i].Jmp? && new_[i].Jmp? && i + 1 + new_[i].sJ == Walk(old_, i, k)
  }

  lemma {:induction false} RedirectKeepsLanding(c: seq<Instruction>, c': seq<Instruction>, i: nat, k: nat, p: nat, h: nat)
    requires Redirects(c, c', i, k) && p < |c| && LandsWithin(c, p, h)
    ensures Walk(c', p, h) == Walk(c, p, h)
    decreases h
  {
    if c[p].Jmp? {
      if p == i {
        var t := Walk(c, i, k);
        WalkAdd(c, i, k, h - 1);
        StaysLanded(c, i, h, k + h - 1);
        RedirectKeepsLanding(c, c', i, k, t, h - 1);
      } else {
        RedirectKeepsLanding(c, c', i, k, p + 1 + c[p].sJ, h - 1);
      }
    }
  }

  lemma {:induction false} RedirectAddsNoLanding(c: seq<Instruction>, c': seq<Instruction>, i: nat, k: nat, p: nat, h: nat)
    returns (h': nat)
    requires Redirects(c, c', i, k) && p < |c| && LandsWithin(c', p, h)
    ensures LandsWithin(c, p, h') && Walk(c, p, h') == Walk(c', p, h)
    decreases h
  {
    if !c[p].Jmp? {
      h' := 0;
    } else if p == i {
      var t := Walk(c, i, k);
      var g := RedirectAddsNoLanding(c, c', i, k, t, h - 1);
      WalkAdd(c, i, k, g);
      h' := k + g;
    } else {
      var g := RedirectAddsNoLanding(c, c', i, k, p + 1 + c[p].sJ, h - 1);
      h' := g + 1;
    }
  }

  // ---- What the pass keeps ----

  /** The jumps of `new` land where those of `old` do, in no more hops, and nowhere else. */
  ghost predicate Refines(old_: seq<Instruction>, new_: seq<Instruction>) {
    && InFunction(old_) && InFunction(new_) && |old_| == |new_|
    && (forall p, h: nat :: 0 <= p < |old_| && LandsWithin(old_, p, h) ==> Walk(new_, p, h) == Walk(old_, p, h))
    && (forall p, h: nat :: 0 <= p < |old_| && LandsWithin(new_, p, h) ==> LandsAt(old_, p, Walk(new_, p, h)))
    && (forall p :: 0 <= p < |old_| ==> (old_[p].Jmp? <==> new_[p].Jmp?))
  }

  lemma {:induction false} RefinesRedirect(o: seq<Instruction>, c: seq<Instruction>, c': seq<Instruction>, i: nat, k: nat)
    requires Refines(o, c) && Redirects(c, c', i, k)
    ensures Refines(o, c')
  {
    forall p, h: nat | 0 <= p < |o| && LandsWithin(o, p, h) ensures Walk(c', p, h) == Walk(o, p, h) {
      assert LandsWithin(c, p, h);
      RedirectKeepsLanding(c, c', i, k, p, h);
    }
    forall p, h: nat | 0 <= p < |o| && LandsWithin(c', p, h) ensures LandsAt(o, p, Walk(c', p, h)) {
      var h' := RedirectAddsNoLanding(c, c', i, k, p, h);
    }
  }

  lemma {:induction false} SameJumpsSameWalk(c: seq<Instruction>, c': seq<Instruction>, p: nat, h: nat)
    requires InFunction(c) && InFunction(c') && |c| == |c'| && p < |c|
    requires forall q :: 0 <= q < |c| ==> (c[q].Jmp? || c'[q].Jmp? ==> c'[q] == c[q])
    ensures Walk(c', p, h) == Walk(c, p, h)
    decreases h
  {
    if h > 0 && c[p].Jmp? {
      SameJumpsSameWalk(c, c', p + 1 + c[p].sJ, h - 1);
    }
  }

  lemma {:induction false} RefinesSameJumps(o: seq<Instruction>, c: seq<Instruction>, c': seq<Instruction>)
    requires Refines(o, c) && InFunction(c') && |c| == |c'|
    requires forall q :: 0 <= q < |c| ==> (c[q].Jmp? || c'[q].Jmp? ==> c'[q] == c[q])
    ensures Refines(o, c')
  {
    forall p, h: nat | 0 <= p < |c| ensures Walk(c', p, h) == Walk(c, p, h) {
      SameJumpsSameWalk(c, c', p, h);
    }
    forall p, h: nat | 0 <= p < |o| && LandsWithin(c', p, h) ensures LandsAt(o, p, Walk(c', p, h)) {
      assert LandsWithin(c, p, h);
    }
  }

  /** Every chain of jumps lands on the same instruction before and after, and a chain that never
      lands still never does. */
  lemma {:induction false} RefinedLanding(o: seq<Instruction>, c: seq<Instruction>, p: nat, dest: nat)
    requires Refines(o, c) && p < |o|
    ensures LandsAt(o, p, dest) <==> LandsAt(c, p, dest)
  {
    if LandsAt(o, p, dest) {
      var h :| LandsWithin(o, p, h) && Walk(o, p, h) == dest;
      assert LandsWithin(c, p, h);
    }
  }

  // ---- The pass ----

  /** A return or tail call as the pass leaves it. */
  function Closed(i: Instruction, f: Flags): Instruction {
    if i.Jmp? then i else
    match i.op
    case Other(_) => i
    case Return0 => if f.needclose || f.vararg then CloseReturn(i.(op := Return), f) else i
    case Return1 => if f.needclose || f.vararg then CloseReturn(i.(op := Return), f) else i
    case Return => CloseReturn(i, f)
    case TailCall => CloseReturn(i, f)
  }

  function CloseReturn(i: Instruction, f: Flags): Instruction
    requires i.ABC?
  {
    var i' := if f.needclose then i.(k := true) else i;
    if f.vararg then i'.(c := f.numparams + 1) else i'
  }

  /** A plain return stays one unless the function closes variables or is a vararg; every other return
      and every tail call gets its flags. */
  predicate IsClosed(i: Instruction, f: Flags, r: Instruction) {
    && i.ABC? && r.ABC? && r.a == i.a && r.b == i.b
    && var plain := i.op == Return0 || i.op == Return1;
       var flagged := i.op == Return || i.op == TailCall || (plain && (f.needclose || f.vararg));
       && r.op == (if plain && flagged then Return else i.op)
       && r.k == (i.k || (flagged && f.needclose))
       && r.c == (if flagged && f.vararg then f.numparams + 1 else i.c)
  }

  lemma {:induction false} ClosedFields(i: Instruction, f: Flags)
    requires !i.Jmp?
    ensures IsClosed(i, f, Closed(i, f))
  {
  }

  method FinalTarget(code: array<Instruction>, n: nat, start: nat) returns (i: nat)
    requires n <= code.Length && InFunction(code[..n]) && start < n
    ensures i == Walk(code[..n], start, HOPS)
  {
    ghost var c := code[..n];
    i := start;
    var count := 0;
    while count < HOPS
      invariant count <= HOPS && i < n
      invariant Walk(c, i, HOPS - count) == Walk(c, start, HOPS)
    {
      if !code[i].Jmp? {
        break;
      }
      i := i + 1 + code[i].sJ;
      count := count + 1;
    }
  }

  /** Instruction `i` after its turn, in code whose earlier instructions had theirs. */
  function Turned(c: seq<Instruction>, i: nat, f: Flags): (r: seq<Instruction>)
    requires InFunction(c) && i < |c|
    ensures InFunction(r) && |r| == |c|
  {
    if c[i].Jmp? then c[i := Jmp(Walk(c, i, HOPS) - (i + 1))] else c[i := Closed(c[i], f)]
  }

  /** The code after the first `i` turns. */
  function Pass(o: seq<Instruction>, i: nat, f: Flags): (r: seq<Instruction>)
    requires InFunction(o) && i <= |o|
    ensures InFunction(r) && |r| == |o|
  {
    if i == 0 then o else Turned(Pass(o, i - 1, f), i - 1, f)
  }

  predicate Fits(offset: int) {
    -OFFSET_SJ <= offset <= MAXARG_SJ - OFFSET_SJ
  }

  /** The offset turn `i` writes fits the argument of a jump. */
  predicate TurnFits(o: seq<Instruction>, i: nat, f: Flags)
    requires InFunction(o) && i < |o|
  {
    Pass(o, i, f)[i].Jmp? ==> Fits(Walk(Pass(o, i, f), i, HOPS) - (i + 1))
  }

  /** Turns before `i` leave instruction `i` alone. */
  lemma {:induction false} PassLater(o: seq<Instruction>, i: nat, k: nat, f: Flags)
    requires InFunction(o) && i <= k < |o|
    ensures Pass(o, i, f)[k] == o[k]
  {
    if i > 0 { PassLater(o, i - 1, k, f); }
  }

  /** The pass keeps all landings, although later turns read jumps that earlier ones rewrote. */
  lemma {:induction false} PassRefines(o: seq<Instruction>, i: nat, f: Flags)
    requires InFunction(o) && i <= |o|
    ensures Refines(o, Pass(o, i, f))
  {
    hide Walk, LandsAt, LandsWithin, Refines, Closed;
    if i == 0 {
      RefinesItself(o);
    } else {
      PassRefines(o, i - 1, f);
      var c, c' := Pass(o, i - 1, f), Pass(o, i, f);
      if c[i - 1].Jmp? {
        assert Redirects(c, c', i - 1, HOPS);
        RefinesRedirect(o, c, c', i - 1, HOPS);
      } else {
        ClosedIsNoJump(c[i - 1], f);
        RefinesSameJumps(o, c, c');
      }
    }
  }

  /** What the pass makes of each instruction. */
  lemma {:induction false} PassAt(o: seq<Instruction>, i: nat, p: nat, f: Flags)
    requires InFunction(o) && p < i <= |o|
    ensures var r := Pass(o, i, f)[p];
            && (o[p].Jmp? <==> r.Jmp?) && (!r.Jmp? ==> r == Closed(o[p], f))
            && (r.Jmp? && LandsWithin(o, p, HOPS) ==> p + 1 + r.sJ == Walk(o, p, HOPS))
  {
    hide Walk, Closed, LandsWithin, Refines;
    if p < i - 1 {
      PassAt(o, i - 1, p, f);
    } else {
      PassLater(o, p, p, f);
      PassRefines(o, p, f);
      RefinedWalk(o, Pass(o, p, f), p, HOPS);
      if !o[p].Jmp? { ClosedIsNoJump(o[p], f); }
    }
  }

  /** The fields of every instruction that is no jump, after the whole pass. */
  lemma {:induction false} PassCloses(o: seq<Instruction>, p: nat, f: Flags)
    requires InFunction(o) && p < |o| && !o[p].Jmp?
    ensures IsClosed(o[p], f, Pass(o, |o|, f)[p])
  {
    hide Pass, Closed, Walk, LandsWithin;
    PassAt(o, |o|, p, f);
    ClosedFields(o[p], f);
  }

  /** In a function of at most OFFSET_SJ instructions every offset fits. */
  lemma {:induction false} SmallFits(o: seq<Instruction>, i: nat, f: Flags)
    requires InFunction(o) && i < |o| <= OFFSET_SJ
    ensures TurnFits(o, i, f)
  {
  }

  /** `luaK_finish`. The result is false, where the compiler stops with "control structure too long",
      exactly when some redirected jump does not fit its argument. */
  method Finish(code: array<Instruction>, n: nat, f: Flags) returns (ok: bool)
    requires n <= code.Length && InFunction(code[..n])
    modifies code
    ensures ok <==> forall i :: 0 <= i < n ==> TurnFits(old(code[..n]), i, f)
    ensures ok ==> code[..n] == Pass(old(code[..n]), n, f)
    ensures ok ==> Refines(old(code[..n]), code[..n])
    ensures ok ==> forall p :: 0 <= p < n && !code[p].Jmp? ==> IsClosed(old(code[p]), f, code[p])
    ensures ok ==> forall p :: 0 <= p < n && code[p].Jmp? && LandsWithin(old(code[..n]), p, HOPS) ==>
              p + 1 + code[p].sJ == Walk(old(code[..n]), p, HOPS)
    ensures forall p :: n <= p < code.Length ==> code[p] == old(code[p])
  {
    hide Walk, LandsAt, LandsWithin, Refines, Closed, IsClosed;
    ghost var o := code[..n];
    var i := 0;
    while i < n
      invariant 0 <= i <= n
      invariant code[..n] == Pass(o, i, f) && forall k :: 0 <= k < i ==> TurnFits(o, k, f)
      invariant forall p :: n <= p < code.Length ==> code[p] == old(code[p])
    {
      ghost var c := code[..n];
      if code[i].Jmp? {
        var target := FinalTarget(code, n, i);
        var offset := target - (i + 1);
        if !(-OFFSET_SJ <= offset <= MAXARG_SJ - OFFSET_SJ) {
          assert !TurnFits(o, i, f);
          return false;
        }
        code[i] := Jmp(offset);
      } else {
        code[i] := Closed(code[i], f);
      }
      assert code[..n] == Turned(c, i, f);
      i := i + 1;
    }
    PassRefines(o, n, f);
    forall p | 0 <= p < n
      ensures !code[p].Jmp? ==> IsClosed(o[p], f, code[p])
      ensures code[p].Jmp? && LandsWithin(o, p, HOPS) ==> p + 1 + code[p].sJ == Walk(o, p, HOPS)
    {
      PassAt(o, n, p, f);
      if !o[p].Jmp? { ClosedFields(o[p], f); }
      assert code[p] == code[..n][p];
    }
    return true;
  }

  lemma {:induction false} RefinedWalk(o: seq<Instruction>, c: seq<Instruction>, p: nat, h: nat)
    requires Refines(o, c) && p < |o|
    ensures LandsWithin(o, p, h) ==> Walk(c, p, h) == Walk(o, p, h)
  {
  }

  lemma {:induction false} ClosedIsNoJump(i: Instruction, f: Flags)
    requires i.ABC?
    ensures Closed(i, f).ABC?
  {
  }

  lemma {:induction false} RefinesItself(o: seq<Instruction>)
    requires InFunction(o)
    ensures Refines(o, o)
  {
  }
}
