/**
 Compressed line information of Lua 5.4.6: the encoder of lcode.c and the decoder of ldebug.c.

 Instruction `pc` stores the difference to the line of the instruction before it, or the mark
 ABSLINEINFO when the difference does not fit in a signed byte or MAXIWTHABS instructions passed
 without an absolute entry; the absolute line is then in `abslineinfo`.
 */
module LineInfo {

  import opened Wrappers

  const ABSLINEINFO: int := -0x80
  const LIMLINEDIFF: int := 0x80
  const MAXIWTHABS: int := 128

  datatype AbsLine = AbsLine(pc: nat, line: int)
  /** The parts of a function prototype that the decoder reads. A stripped function has no `lineinfo`. */
  datatype Proto = Proto(linedefined: int, lineinfo: Option<seq<int>>, abslineinfo: seq<AbsLine>)

  /** Line before instruction `k`: the previous instruction's, or the one the function is defined in. */
  function Before(linedefined: int, lines: seq<int>, k: nat): int
    requires k <= |lines|
  {
    if k == 0 then linedefined else lines[k - 1]
  }

  /** `info` and `abs` say that instruction `k` has line `lines[k]`, for every `k`. */
  ghost predicate Says(linedefined: int, info: seq<int>, abs: seq<AbsLine>, lines: seq<int>) {
    && |lines| <= |info|
    && (forall k :: 0 <= k < |lines| ==>
          info[k] == ABSLINEINFO || (info[k] == lines[k] - Before(linedefined, lines, k) && -LIMLINEDIFF < info[k] < LIMLINEDIFF))
    && (forall k :: 0 <= k < |lines| && info[k] == ABSLINEINFO ==> AbsLine(k, lines[k]) in abs)
    && (forall a :: 0 <= a < |abs| ==>
          abs[a].pc < |lines| && info[abs[a].pc] == ABSLINEINFO && abs[a].line == lines[abs[a].pc])
  }

  /** Absolute entries are in order and dense enough for the estimate of the decoder. */
  ghost predicate Dense(abs: seq<AbsLine>, n: nat) {
    && (forall a, b :: 0 <= a < b < |abs| ==> abs[a].pc < abs[b].pc)
    && (forall a :: 0 <= a < |abs| ==> abs[a].pc <= MAXIWTHABS * (a + 1))
    && n <= MAXIWTHABS * (|abs| + 1)
  }

  /** A finished prototype that holds the line of every instruction. */
  ghost predicate Encodes(p: Proto, lines: seq<int>) {
    && p.lineinfo.Some? && |p.lineinfo.value| == |lines|
    && Says(p.linedefined, p.lineinfo.value, p.abslineinfo, lines)
    && Dense(p.abslineinfo, |lines|)
  }

  // ---- Encoder ----

  /** Instructions since the last absolute entry, that one included. */
  function Since(abs: seq<AbsLine>, n: nat): int {
    if abs == [] then n else n - abs[|abs| - 1].pc
  }

  function Put(s: seq<int>, k: nat, x: int): (r: seq<int>)
    requires k <= |s|
    ensures |r| >= |s| && k < |r| && r[k] == x && forall j :: 0 <= j < |s| && j != k ==> r[j] == s[j]
  {
    if k == |s| then s + [x] else s[k := x]
  }

  lemma {:induction false} SaysAbsolute(linedefined: int, info: seq<int>, abs: seq<AbsLine>, lines: seq<int>, line: int)
    requires Says(linedefined, info, abs, lines) && Dense(abs, |lines|)
    ensures var k := |lines|;
            && Says(linedefined, Put(info, k, ABSLINEINFO), abs + [AbsLine(k, line)], lines + [line])
            && Dense(abs + [AbsLine(k, line)], k + 1)
            && Since(abs + [AbsLine(k, line)], k + 1) == 1
  {
    var k := |lines|;
    var abs' := abs + [AbsLine(k, line)];
    assert abs'[|abs|] == AbsLine(k, line);
    assert forall e :: e in abs ==> e in abs';
  }

  lemma {:induction false} SaysRelative(linedefined: int, info: seq<int>, abs: seq<AbsLine>, lines: seq<int>, line: int)
    requires Says(linedefined, info, abs, lines) && Dense(abs, |lines|)
    requires Since(abs, |lines|) < MAXIWTHABS
    requires -LIMLINEDIFF < line - Before(linedefined, lines, |lines|) < LIMLINEDIFF
    ensures var k := |lines|;
            && Says(linedefined, Put(info, k, line - Before(linedefined, lines, k)), abs, lines + [line])
            && Dense(abs, k + 1)
  {
  }

  lemma {:induction false} LastAbsolute(linedefined: int, info: seq<int>, abs: seq<AbsLine>, lines: seq<int>)
    requires Says(linedefined, info, abs, lines) && Dense(abs, |lines|)
    requires |lines| > 0 && info[|lines| - 1] == ABSLINEINFO
    ensures abs != [] && abs[|abs| - 1] == AbsLine(|lines| - 1, lines[|lines| - 1])
  {
    var k := |lines| - 1;
    assert AbsLine(k, lines[k]) in abs;
    var a :| 0 <= a < |abs| && abs[a] == AbsLine(k, lines[k]);
    assert a == |abs| - 1;
  }

  lemma {:induction false} SaysWithoutAbsolute(linedefined: int, info: seq<int>, abs: seq<AbsLine>, lines: seq<int>)
    requires Says(linedefined, info, abs, lines) && Dense(abs, |lines|)
    requires |lines| > 0 && abs != [] && abs[|abs| - 1] == AbsLine(|lines| - 1, lines[|lines| - 1])
    ensures Says(linedefined, info, abs[..|abs| - 1], lines[..|lines| - 1])
    ensures Dense(abs[..|abs| - 1], |lines| - 1)
  {
    var k, a := |lines| - 1, |abs| - 1;
    forall j | 0 <= j < k && info[j] == ABSLINEINFO ensures AbsLine(j, lines[j]) in abs[..a] {
      assert AbsLine(j, lines[j]) in abs;
      var b :| 0 <= b < |abs| && abs[b] == AbsLine(j, lines[j]);
      assert abs[..a][b] == abs[b];
    }
    forall b | 0 <= b < a ensures abs[b].pc < k {
      assert abs[b].pc < abs[a].pc;
    }
  }

  lemma {:induction false} SaysWithoutRelative(linedefined: int, info: seq<int>, abs: seq<AbsLine>, lines: seq<int>)
    requires Says(linedefined, info, abs, lines) && Dense(abs, |lines|)
    requires |lines| > 0 && info[|lines| - 1] != ABSLINEINFO
    ensures Says(linedefined, info, abs, lines[..|lines| - 1]) && Dense(abs, |lines| - 1)
  {
  }

  /** Dropping the last instruction drops its absolute entry, if it has one. */
  lemma {:induction false} SaysPrefix(linedefined: int, info: seq<int>, abs: seq<AbsLine>, lines: seq<int>)
    requires Says(linedefined, info, abs, lines) && Dense(abs, |lines|) && |lines| > 0
    ensures var k := |lines| - 1;
            if info[k] == ABSLINEINFO then
              && abs != [] && abs[|abs| - 1] == AbsLine(k, lines[k])
              && Says(linedefined, info, abs[..|abs| - 1], lines[..k]) && Dense(abs[..|abs| - 1], k)
            else
              && Says(linedefined, info, abs, lines[..k]) && Dense(abs, k)
              && lines[k] - info[k] == Before(linedefined, lines[..k], k)
  {
    var k := |lines| - 1;
    assert info[k] != ABSLINEINFO ==> lines[k] - info[k] == Before(linedefined, lines, k);
    hide Says, Dense;
    if info[k] == ABSLINEINFO {
      LastAbsolute(linedefined, info, abs, lines);
      SaysWithoutAbsolute(linedefined, info, abs, lines);
    } else {
      SaysWithoutRelative(linedefined, info, abs, lines);
    }
  }

  /** The fields of `FuncState` and its prototype that carry line information. */
  /** When `savelineinfo` writes an absolute entry. */
  predicate Absolute(linedif: int, iwthabs: nat) {
    linedif >= LIMLINEDIFF || -linedif >= LIMLINEDIFF || iwthabs >= MAXIWTHABS
  }

  class FuncState {
    const linedefined: int
    var pc: nat
    var lineinfo: seq<int>
    var abslineinfo: seq<AbsLine>
    var iwthabs: nat
    var previousline: int
    /** The line last saved for each instruction that has one. */
    ghost var lines: seq<int>

    ghost predicate Synced()
      reads this
    {
      && previousline == Before(linedefined, lines, |lines|)
      && iwthabs == Since(abslineinfo, |lines|)
    }

    /** The information says the line of every instruction that has one. */
    ghost predicate Recorded()
      reads this
    {
      Says(linedefined, lineinfo, abslineinfo, lines) && Dense(abslineinfo, |lines|)
    }

    /** Line information can be saved: either the counters describe the last instruction, or the
        next entry is forced to be absolute and does not look at them. */
    ghost predicate Ready()
      reads this
    {
      && Recorded()
      && iwthabs <= MAXIWTHABS + 1
      && (Synced() || iwthabs >= MAXIWTHABS)
    }

    ghost predicate Valid()
      reads this
    {
      Ready() && Synced() && pc == |lines|
    }

    constructor (linedefined: int)
      ensures Valid() && lines == [] && this.linedefined == linedefined && abslineinfo == []
    {
      this.linedefined := linedefined;
      pc, lineinfo, abslineinfo, iwthabs := 0, [], [], 0;
      previousline := linedefined;
      lines := [];
    }

    method SaveLineInfo(line: int)
      requires Ready() && pc == |lines| + 1
      modifies this`lineinfo, this`abslineinfo, this`iwthabs, this`previousline, this`lines
      ensures Valid()
      ensures lines == old(lines) + [line]
      ensures var absolute := Absolute(line - old(previousline), old(iwthabs));
              && |lineinfo| >= pc && lineinfo[pc - 1] == (if absolute then ABSLINEINFO else line - old(previousline))
              && abslineinfo == (if absolute then old(abslineinfo) + [AbsLine(pc - 1, line)] else old(abslineinfo))
              && forall j :: 0 <= j < |old(lines)| && j < |old(lineinfo)| ==> lineinfo[j] == old(lineinfo)[j]
    {
      hide Says, Dense, Put;
      SaidLines(linedefined, lineinfo, abslineinfo, lines);
      var linedif := line - previousline;
      var last := pc - 1;
      var absolute := linedif >= LIMLINEDIFF || -linedif >= LIMLINEDIFF;
      if !absolute {
        absolute := iwthabs >= MAXIWTHABS;
        iwthabs := iwthabs + 1;
      }
      if absolute {
        SaysAbsolute(linedefined, lineinfo, abslineinfo, lines, line);
        abslineinfo := abslineinfo + [AbsLine(last, line)];
        linedif := ABSLINEINFO;
        iwthabs := 1;
      } else {
        SaysRelative(linedefined, lineinfo, abslineinfo, lines, line);
      }
      lineinfo := Put(lineinfo, last, linedif);
      previousline := line;
      lines := lines + [line];
    }

    /** The line goes. The counters are fit for saving another one exactly if they described the last
        instruction, or stay high enough to force an absolute entry, or that was one: not after the third
        removal in a row that began with an absolute entry. */
    method RemoveLastLineInfo()
      requires Ready() && pc == |lines| > 0
      modifies this`abslineinfo, this`iwthabs, this`previousline, this`lines
      ensures Recorded() && lines == old(lines[..pc - 1])
      ensures Ready() <==> old(Synced() || iwthabs > MAXIWTHABS || lineinfo[pc - 1] == ABSLINEINFO)
      ensures if old(lineinfo[pc - 1]) == ABSLINEINFO
              then iwthabs == MAXIWTHABS + 1 && previousline == old(previousline)
              else iwthabs == old(iwthabs) - 1 && previousline == old(previousline - lineinfo[pc - 1])
    {
      hide Says, Dense;
      SaidLines(linedefined, lineinfo, abslineinfo, lines);
      SaysPrefix(linedefined, lineinfo, abslineinfo, lines);
      LastDifference(linedefined, lineinfo, abslineinfo, lines);
      if lineinfo[pc - 1] != ABSLINEINFO {
        previousline := previousline - lineinfo[pc - 1];
        iwthabs := iwthabs - 1;
      } else {
        assert abslineinfo[|abslineinfo| - 1].pc == pc - 1;
        abslineinfo := abslineinfo[..|abslineinfo| - 1];
        iwthabs := MAXIWTHABS + 1;
      }
      lines := lines[..pc - 1];
    }

    /** `luaK_code`, of which only the line matters here. */
    method Code(line: int) returns (at: nat)
      requires Ready() && pc == |lines|
      modifies this
      ensures Valid()
      ensures lines == old(lines) + [line] && at == old(pc)
      ensures var absolute := Absolute(line - old(previousline), old(iwthabs));
              && |lineinfo| >= pc && lineinfo[pc - 1] == (if absolute then ABSLINEINFO else line - old(previousline))
              && abslineinfo == (if absolute then old(abslineinfo) + [AbsLine(pc - 1, line)] else old(abslineinfo))
              && forall j :: 0 <= j < |old(lines)| && j < |old(lineinfo)| ==> lineinfo[j] == old(lineinfo)[j]
    {
      pc := pc + 1;
      SaveLineInfo(line);
      return pc - 1;
    }

    method FixLine(line: int)
      requires Valid() && pc > 0
      modifies this
      ensures Valid()
      ensures lines == old(lines)[old(pc) - 1 := line]
    {
      RemoveLastLineInfo();
      SaveLineInfo(line);
    }

    method RemoveLastInstruction()
      requires Ready() && pc == |lines| > 0
      modifies this`pc, this`abslineinfo, this`iwthabs, this`previousline, this`lines
      ensures Recorded() && pc == |lines|
      ensures lines == old(lines)[..old(pc) - 1]
      ensures Ready() <==> old(Synced() || iwthabs > MAXIWTHABS || lineinfo[pc - 1] == ABSLINEINFO)
      ensures if old(lineinfo[pc - 1]) == ABSLINEINFO
              then iwthabs == MAXIWTHABS + 1 && previousline == old(previousline)
              else iwthabs == old(iwthabs) - 1 && previousline == old(previousline - lineinfo[pc - 1])
    {
      RemoveLastLineInfo();
      pc := pc - 1;
    }
  }

  lemma {:induction false} LastDifference(linedefined: int, info: seq<int>, abs: seq<AbsLine>, lines: seq<int>)
    requires Says(linedefined, info, abs, lines) && lines != []
    ensures |lines| <= |info| && (info[|lines| - 1] == ABSLINEINFO
            || info[|lines| - 1] == lines[|lines| - 1] - Before(linedefined, lines, |lines| - 1))
  {
  }

  lemma {:induction false} SaidLines(linedefined: int, info: seq<int>, abs: seq<AbsLine>, lines: seq<int>)
    requires Says(linedefined, info, abs, lines) && Dense(abs, |lines|)
    ensures |lines| <= |info|
    ensures Since(abs, |lines|) <= |lines|
    ensures lines != [] && info[|lines| - 1] != ABSLINEINFO ==> Since(abs, |lines|) > 0
  {
  }

  /** Three removals behind an absolute entry leave counters that describe no instruction. */
  method ThreeRemovals() returns (fs: FuncState)
    ensures fresh(fs) && fs.Recorded() && fs.lines == [] && !fs.Ready()
  {
    fs := new FuncState(0);
    hide Says, Dense;
    var _ := fs.Code(1);
    var _ := fs.Code(2);
    var _ := fs.Code(1000);
    assert fs.lineinfo[0] == 1 && fs.lineinfo[1] == 1 && fs.lineinfo[2] == ABSLINEINFO;
    fs.RemoveLastInstruction();
    fs.RemoveLastInstruction();
    fs.RemoveLastInstruction();
  }

  datatype Edit = Emit(line: int) | Fix(line: int) | Replace(line: int)

  /** What the source says the lines are after the edits. */
  function LinesAfter(edits: seq<Edit>): (lines: seq<int>)
    requires Legal(edits)
    ensures edits != [] ==> lines != []
  {
    if edits == [] then [] else
    var before := LinesAfter(edits[..|edits| - 1]);
    match edits[|edits| - 1]
    case Emit(line) => before + [line]
    case Fix(line) => before[|before| - 1 := line]
    case Replace(line) => before[|before| - 1 := line]
  }

  /** The first edit emits; a fix or a replacement needs an instruction. */
  predicate Legal(edits: seq<Edit>) {
    edits != [] ==> Legal(edits[..|edits| - 1]) && (|edits| == 1 ==> edits[0].Emit?)
  }

  lemma {:induction false} LegalPrefix(edits: seq<Edit>, k: nat)
    requires Legal(edits) && k <= |edits|
    ensures Legal(edits[..k])
    ensures k < |edits| ==> edits[..k + 1][..k] == edits[..k]
  {
    if k < |edits| {
      LegalPrefix(edits[..|edits| - 1], k);
      assert edits[..|edits| - 1][..k] == edits[..k];
    } else {
      assert edits[..k] == edits;
    }
  }

  /** Every sequence of emissions, line fixes and replacements leaves a prototype whose line
      information is that of the instructions it ends with. */
  method Compile(linedefined: int, edits: seq<Edit>) returns (p: Proto)
    requires Legal(edits)
    ensures Encodes(p, LinesAfter(edits))
  {
    hide Says, Dense;
    var fs := new FuncState(linedefined);
    LegalPrefix(edits, 0);
    var k := 0;
    while k < |edits|
      invariant 0 <= k <= |edits|
      invariant Legal(edits[..k])
      invariant fresh(fs) && fs.Valid() && fs.linedefined == linedefined
      invariant fs.lines == LinesAfter(edits[..k])
    {
      LegalPrefix(edits, k);
      LegalPrefix(edits, k + 1);
      match edits[k] {
        case Emit(line) =>
          var _ := fs.Code(line);
        case Fix(line) =>
          fs.FixLine(line);
        case Replace(line) =>
          fs.RemoveLastInstruction();
          var _ := fs.Code(line);
      }
      k := k + 1;
    }
    assert edits[..k] == edits;
    SaidLines(linedefined, fs.lineinfo, fs.abslineinfo, fs.lines);
    SaysShrunk(linedefined, fs.lineinfo, fs.abslineinfo, fs.lines);
    p := Proto(linedefined, Some(fs.lineinfo[..fs.pc]), fs.abslineinfo);
  }

  lemma {:induction false} SaysShrunk(linedefined: int, info: seq<int>, abs: seq<AbsLine>, lines: seq<int>)
    requires Says(linedefined, info, abs, lines)
    ensures |lines| <= |info| && Says(linedefined, info[..|lines|], abs, lines)
  {
  }

  // ---- Decoder ----

  /** The last absolute entry not behind `pc`, or the start of the function. The estimate
      `pc / MAXIWTHABS - 1` never overshoots it. */
  method GetBaseLine(p: Proto, pc: nat, ghost lines: seq<int>) returns (line: int, basepc: int)
    requires Encodes(p, lines) && pc < |lines|
    ensures -1 <= basepc <= pc
    ensures line == if basepc < 0 then p.linedefined else lines[basepc]
    ensures forall k :: basepc < k <= pc ==> p.lineinfo.value[k] != ABSLINEINFO
  {
    var abs := p.abslineinfo;
    if |abs| == 0 || pc < abs[0].pc {
      basepc, line := -1, p.linedefined;
    } else {
      var i := pc / MAXIWTHABS - 1;
      assert i < 0 || (i < |abs| && abs[i].pc <= pc);
      while i + 1 < |abs| && pc >= abs[i + 1].pc
        invariant -1 <= i < |abs|
        invariant i >= 0 ==> abs[i].pc <= pc
        decreases |abs| - i
      {
        i := i + 1;
      }
      basepc, line := abs[i].pc, abs[i].line;
    }
    NoneBetween(p, pc, lines, basepc);
  }

  lemma {:induction false} NoneBetween(p: Proto, pc: nat, lines: seq<int>, basepc: int)
    requires Encodes(p, lines) && pc < |lines| && -1 <= basepc
    requires forall a :: 0 <= a < |p.abslineinfo| ==> p.abslineinfo[a].pc <= basepc || pc < p.abslineinfo[a].pc
    ensures forall k :: basepc < k <= pc ==> p.lineinfo.value[k] != ABSLINEINFO
  {
  }

  method GetFuncLine(p: Proto, pc: nat, ghost lines: seq<int>) returns (line: int)
    requires p.lineinfo.Some? ==> Encodes(p, lines) && pc < |lines|
    ensures line == if p.lineinfo.None? then -1 else lines[pc]
  {
    if p.lineinfo.None? {
      return -1;
    }
    var basepc: int;
    line, basepc := GetBaseLine(p, pc, lines);
    while basepc < pc
      invariant -1 <= basepc <= pc
      invariant line == Before(p.linedefined, lines, basepc + 1)
      invariant forall k :: basepc < k <= pc ==> p.lineinfo.value[k] != ABSLINEINFO
    {
      basepc := basepc + 1;
      line := line + p.lineinfo.value[basepc];
    }
  }

  /** The incremental decoder used when all lines are wanted. */
  method NextLine(p: Proto, currentline: int, pc: nat, ghost lines: seq<int>) returns (line: int)
    requires Encodes(p, lines) && pc < |lines|
    requires currentline == Before(p.linedefined, lines, pc)
    ensures line == lines[pc]
  {
    if p.lineinfo.value[pc] != ABSLINEINFO {
      line := currentline + p.lineinfo.value[pc];
    } else {
      line := GetFuncLine(p, pc, lines);
    }
  }

  /** The shortcut over the stored differences agrees with comparing the two decoded lines. */
  method ChangedLine(p: Proto, oldpc: nat, newpc: nat, ghost lines: seq<int>) returns (changed: bool)
    requires oldpc < newpc
    requires p.lineinfo.Some? ==> Encodes(p, lines) && newpc < |lines|
    ensures changed <==> p.lineinfo.Some? && lines[oldpc] != lines[newpc]
  {
    if p.lineinfo.None? {
      return false;
    }
    if newpc - oldpc < MAXIWTHABS / 2 {
      var delta, pc := 0, oldpc;
      while true
        invariant oldpc <= pc < newpc
        invariant delta == lines[pc] - lines[oldpc]
        decreases newpc - pc
      {
        pc := pc + 1;
        var lineinfo := p.lineinfo.value[pc];
        if lineinfo == ABSLINEINFO {
          break;
        }
        delta := delta + lineinfo;
        if pc == newpc {
          return delta != 0;
        }
      }
    }
    var a := GetFuncLine(p, oldpc, lines);
    var b := GetFuncLine(p, newpc, lines);
    return a != b;
  }

  /** Encoder and decoder together: whatever the edits were, asking for the line of any instruction
      gives the one last saved for it. */
  method LineOf(linedefined: int, edits: seq<Edit>, pc: nat) returns (line: int)
    requires Legal(edits) && pc < |LinesAfter(edits)|
    ensures line == LinesAfter(edits)[pc]
  {
    var p := Compile(linedefined, edits);
    line := GetFuncLine(p, pc, LinesAfter(edits));
  }
}
