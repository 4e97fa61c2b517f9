/** The flat stack of FlatMachine encodes the frames of FrameMachine, and every instruction
    keeps it so. */
module Simulation {
  import opened Words
  import opened Scode
  import opened FlatMachine
  import opened FrameMachine
  import opened StackCheck

  const REDZONE := 2048   // cells modelled beyond maxStackAddr

  function LocalsAt(fp: int): int { fp + 3 }

  function OpsAt(f: Frame, fp: int): int { fp + 3 + |f.locals| }

  function EndOf(f: Frame, fp: int): int { fp + 3 + |f.locals| + |f.ops| }

  function ParamsAt(f: Frame, fp: int): int { fp - |f.params| }

  /** The cells of one frame, except its previous-fp cell. */
  predicate FrameAt(stack: seq<int>, f: Frame, fp: int)
  {
    && 0 <= ParamsAt(f, fp) && EndOf(f, fp) <= |stack|
    && stack[ParamsAt(f, fp)..fp] == f.params
    && stack[fp] == f.returnCp
    && stack[fp + 2] == f.entry
    && stack[LocalsAt(fp)..OpsAt(f, fp)] == f.locals
    && stack[OpsAt(f, fp)..EndOf(f, fp)] == f.ops
  }

  /** The suspended frames below a callee whose header is at `fp`, linked by previous-fp cells
      and adjacent to each other, down to the cell above `base`. */
  predicate Chained(stack: seq<int>, base: int, callers: seq<Frame>, callee: Frame, fp: int)
    decreases |callers|
  {
    && 0 <= fp && fp + 1 < |stack|
    && var prev := stack[fp + 1];
       if callers == [] then prev == 0 && ParamsAt(callee, fp) == base + 1
       else
         var n := |callers| - 1;
         var caller := callers[n];
         && FrameAt(stack, caller, prev)
         && EndOf(caller, prev) == ParamsAt(callee, fp)
         && Chained(stack, base, callers[..n], caller, prev)
  }

  /** The cells and registers of a vmCall activation started above cell `base` encode `s`. */
  predicate Encodes(m: Memory, r: Regs, base: int, s: State)
  {
    && 0 <= base
    && FrameAt(m.stack, s.top, r.fp)
    && Chained(m.stack, base, s.callers, s.top, r.fp)
    && r == Regs(EndOf(s.top, r.fp) - 1, s.cp, r.fp, ParamsAt(s.top, r.fp), LocalsAt(r.fp),
                 |s.top.params|, |s.top.locals|)
    && m.heap == s.heap
  }

  // ---------------------------------------------------------------- frames

  /** Suspended frames depend only on the cells below the callee's parameters and on its
      previous-fp cell. */
  lemma {:induction false} ChainKept(stack: seq<int>, stack': seq<int>, base: int, callers: seq<Frame>,
                                     callee: Frame, callee': Frame, fp: int)
    requires Chained(stack, base, callers, callee, fp)
    requires |callee.params| == |callee'.params| && 0 <= ParamsAt(callee, fp)
    requires |stack'| == |stack| && stack'[..ParamsAt(callee, fp)] == stack[..ParamsAt(callee, fp)]
    requires stack'[fp + 1] == stack[fp + 1]
    ensures Chained(stack', base, callers, callee', fp)
    decreases |callers|
  {
    if callers != [] {
      var n := |callers| - 1;
      var caller := callers[n];
      var prev := stack[fp + 1];
      var k := ParamsAt(callee, fp);
      assert EndOf(caller, prev) == k;
      assert forall i :: 0 <= i < k ==> stack'[i] == stack'[..k][i] == stack[i];
      assert FrameAt(stack', caller, prev) by {
        assert stack'[ParamsAt(caller, prev)..prev] == stack[ParamsAt(caller, prev)..prev];
        assert stack'[LocalsAt(prev)..OpsAt(caller, prev)] == stack[LocalsAt(prev)..OpsAt(caller, prev)];
        assert stack'[OpsAt(caller, prev)..k] == stack[OpsAt(caller, prev)..k];
      }
      var j := ParamsAt(caller, prev);
      assert stack'[..j] == stack[..j];
      ChainKept(stack, stack', base, callers[..n], caller, caller, prev);
    }
  }

  /** The frames lie above `base`, in a stack of exactly their height. */
  lemma {:induction false} ChainHeight(stack: seq<int>, base: int, callers: seq<Frame>, callee: Frame, fp: int)
    requires Chained(stack, base, callers, callee, fp)
    ensures ParamsAt(callee, fp) == base + 1 + Height(callers)
    decreases |callers|
  {
    if callers != [] {
      var n := |callers| - 1;
      ChainHeight(stack, base, callers[..n], callers[n], stack[fp + 1]);
    }
  }

  lemma EncodedHeight(m: Memory, r: Regs, base: int, s: State)
    requires Encodes(m, r, base, s)
    ensures r.sp == StackTop(base, s) && ParamsAt(s.top, r.fp) == base + 1 + Height(s.callers)
  {
    ChainHeight(m.stack, base, s.callers, s.top, r.fp);
  }

  /** Replacing the operand stack of the top frame, and nothing below it. */
  lemma OpsReplaced(m: Memory, m': Memory, r: Regs, r': Regs, base: int, s: State, ops: seq<int>, cp: int)
    requires Encodes(m, r, base, s)
    requires |m'.stack| == |m.stack| && OpsAt(s.top, r.fp) + |ops| <= |m.stack|
    requires m'.stack[..OpsAt(s.top, r.fp)] == m.stack[..OpsAt(s.top, r.fp)]
    requires m'.stack[OpsAt(s.top, r.fp)..OpsAt(s.top, r.fp) + |ops|] == ops
    requires r' == r.(sp := OpsAt(s.top, r.fp) + |ops| - 1, cp := cp)
    ensures Encodes(m', r', base, WithOps(s, ops, cp).(heap := m'.heap))
  {
    var f := s.top;
    var fp := r.fp;
    var k := OpsAt(f, fp);
    assert forall i :: 0 <= i < k ==> m'.stack[i] == m'.stack[..k][i] == m.stack[i];
    assert m'.stack[ParamsAt(f, fp)..fp] == m.stack[ParamsAt(f, fp)..fp];
    assert m'.stack[LocalsAt(fp)..k] == m.stack[LocalsAt(fp)..k];
    assert m'.stack[..ParamsAt(f, fp)] == m.stack[..ParamsAt(f, fp)];
    ChainKept(m.stack, m'.stack, base, s.callers, f, f.(ops := ops), fp);
  }

  lemma EncodedOps(m: Memory, r: Regs, base: int, s: State)
    requires Encodes(m, r, base, s)
    ensures 0 <= base < ParamsAt(s.top, r.fp) <= r.fp < OpsAt(s.top, r.fp) <= r.sp + 1 <= |m.stack|
    ensures r.sp == EndOf(s.top, r.fp) - 1
    ensures m.stack[OpsAt(s.top, r.fp)..r.sp + 1] == s.top.ops
  {
    EncodedHeight(m, r, base, s);
  }

  lemma OverwrittenOps(stack: seq<int>, stack0: seq<int>, b: int, end: int, ops: seq<int>, k: nat, cells: seq<int>)
    requires 0 <= b <= end <= |stack| == |stack0| && stack0[..end] == stack[..end]
    requires stack[b..end] == ops && k <= |ops| && end - k + |cells| <= |stack|
    ensures var t := Overwrite(stack0, end - k, cells);
            && t[..b] == stack[..b]
            && t[b..end - k + |cells|] == Keep(ops, k) + cells
  {
    var t := Overwrite(stack0, end - k, cells);
    assert forall i :: 0 <= i < end ==> stack0[i] == stack0[..end][i] == stack[i];
    assert t[b..end - k] == stack[b..end][..|ops| - k];
    assert t[b..end - k + |cells|] == t[b..end - k] + t[end - k..end - k + |cells|];
  }

  /** Popping k cells and pushing `cells` on the flat stack is the same on the operand list. */
  lemma PushSimulates(m: Memory, r: Regs, base: int, s: State, k: nat, cells: seq<int>, m0: Memory, cp: int)
    requires Encodes(m, r, base, s) && k <= |s.top.ops|
    requires r.sp - k + |cells| < |m.stack|
    requires |m0.stack| == |m.stack| && m0.stack[..r.sp + 1] == m.stack[..r.sp + 1]
    ensures var o := PushCells(m0, r.(sp := r.sp - k, cp := cp), cells);
            && o.Running? && o.m.sp == m0.sp && o.m.warnings == m0.warnings && o.m.heap == m0.heap
            && o.m.stack == Overwrite(m0.stack, r.sp + 1 - k, cells)
            && Encodes(o.m, o.r, base, WithOps(s, Keep(s.top.ops, k) + cells, cp).(heap := m0.heap))
  {
    hide Encodes, Overwrite;
    EncodedOps(m, r, base, s);
    var o := PushCells(m0, r.(sp := r.sp - k, cp := cp), cells);
    OverwrittenOps(m.stack, m0.stack, OpsAt(s.top, r.fp), r.sp + 1, s.top.ops, k, cells);
    OpsReplaced(m, o.m, r, o.r, base, s, Keep(s.top.ops, k) + cells, cp);
  }

  // ----------------------------------------------------------- instructions

  /** The flat outcome `o` of an activation above `base`, started from memory `m`, is the
      frame outcome `p`. A void method returns the cell below its first parameter. */
  predicate Matches(m: Memory, o: Outcome, base: int, p: Result)
    requires 0 <= base < |m.stack|
  {
    match p
    case Goes(s) => o.Running? && Encodes(o.m, o.r, base, s)
    case Ends(heap, value) =>
      o.Returned? && o.m.heap == heap && o.value == (if value.Some? then value.value else m.stack[base])
    case Fails(heap, error) => o.Failed? && o.m.heap == heap && o.error == error
    case Undetermined => o.Undefined?
    case Stuck => true
  }

  function MemoryOf(o: Outcome, m: Memory): Memory
  {
    if o.Running? || o.Returned? || o.Failed? || o.Suspended? then o.m else m
  }

  /** No cell at or below `base` and none from maxStackAddr + 4 on is written; no imbalance
      warning; vm->sp untouched. */
  predicate Confined(m: Memory, m': Memory, base: int, top: int)
  {
    && |m'.stack| == |m.stack| && m'.sp == m.sp && m'.warnings == m.warnings
    && 0 <= base + 1 <= top <= |m.stack|
    && m'.stack[..base + 1] == m.stack[..base + 1]
    && m'.stack[top..] == m.stack[top..]
  }

  /** An activation about to execute an instruction below the stack limit. */
  predicate Ready(img: Image, m: Memory, r: Regs, base: int, s: State)
  {
    Encodes(m, r, base, s) && r.sp < img.limit && img.limit + REDZONE <= |m.stack|
  }

  lemma OverwriteConfined(m: Memory, m': Memory, base: int, top: int, at: int, cells: seq<int>)
    requires m'.sp == m.sp && m'.warnings == m.warnings
    requires 0 <= base < at && at + |cells| <= top <= |m.stack|
    requires m'.stack == Overwrite(m.stack, at, cells)
    ensures Confined(m, m', base, top)
  {
  }

  lemma Unwritten(m: Memory, m': Memory, base: int, top: int)
    requires m'.stack == m.stack && m'.sp == m.sp && m'.warnings == m.warnings
    requires 0 <= base + 1 <= top <= |m.stack|
    ensures Confined(m, m', base, top)
  {
  }

  lemma ConfinedTwice(m: Memory, m1: Memory, m2: Memory, base: int, top: int)
    requires Confined(m, m1, base, top) && Confined(m1, m2, base, top)
    ensures Confined(m, m2, base, top)
  {
  }

  lemma SameRegisters(m: Memory, r: Regs, base: int, s: State)
    requires Encodes(m, r, base, s)
    ensures r.cp == s.cp && r.pp == ParamsAt(s.top, r.fp) && r.lp == LocalsAt(r.fp)
    ensures r.numParams == |s.top.params| && r.numLocals == |s.top.locals| && m.heap == s.heap
  {
  }

  lemma ReplaceSimulates(img: Image, m: Memory, r: Regs, base: int, s: State, k: nat, length: nat,
                         c: Option<(seq<int>, Heap)>)
    requires Ready(img, m, r, base, s) && base < |m.stack|
    requires k <= |s.top.ops| && (c.Some? ==> |c.value.0| <= k + 2)
    ensures var o := Replace(m, r, k, length, c);
            Matches(m, o, base, ReplaceFrame(s, k, length, c)) && Confined(m, MemoryOf(o, m), base, img.limit + 4)
  {
    hide Encodes, Overwrite, Confined;
    EncodedOps(m, r, base, s);
    SameRegisters(m, r, base, s);
    match c
    case None => Unwritten(m, m, base, img.limit + 4);
    case Some((cells, heap)) =>
      PushSimulates(m, r, base, s, k, cells, m.(heap := heap), r.cp + length);
      var o := Replace(m, r, k, length, c);
      OverwriteConfined(m, o.m, base, img.limit + 4, r.sp + 1 - k, cells);
  }

  lemma SimpleSimulates(img: Image, m: Memory, r: Regs, base: int, s: State, op: Op, length: nat)
    requires Ready(img, m, r, base, s) && base < |m.stack|
    requires Pops(op) <= |s.top.ops| && Pushes(op) <= Pops(op) + 2
    ensures var o := SimpleStep(m, r, op, length);
            Matches(m, o, base, SimpleFrame(s, op, length)) && Confined(m, MemoryOf(o, m), base, img.limit + 4)
  {
    hide Encodes, Compute, Confined, Matches, Pops, Pushes, Replace, ReplaceFrame;
    EncodedOps(m, r, base, s);
    SameRegisters(m, r, base, s);
    var k := Pops(op);
    var args := Top(s.top.ops, k);
    assert m.stack[r.sp + 1 - k..r.sp + 1] == args;
    ReplaceSimulates(img, m, r, base, s, k, length, Compute(op, args, m.heap));
  }

  lemma GivenSimulates(img: Image, m: Memory, r: Regs, base: int, s: State, source: Source, length: nat, e: Effect)
    requires Ready(img, m, r, base, s) && base < |m.stack| && Takes(source) <= |s.top.ops|
    ensures var o := GivenStep(m, r, source, length, e.lo, e.hi);
            && Matches(m, o, base, GivenFrame(s, source, length, e))
            && Confined(m, MemoryOf(o, m), base, img.limit + 4)
  {
    hide Encodes, Confined, Matches, Takes, GivenResult, Replace, ReplaceFrame;
    EncodedOps(m, r, base, s);
    SameRegisters(m, r, base, s);
    var k := Takes(source);
    assert m.stack[r.sp + 1 - k..r.sp + 1] == Top(s.top.ops, k);
    ReplaceSimulates(img, m, r, base, s, k, length, GivenResult(source, Top(s.top.ops, k), m.heap, e.lo, e.hi));
  }

  lemma EncodedVars(m: Memory, r: Regs, base: int, s: State, region: Region)
    requires Encodes(m, r, base, s)
    ensures var at := Slot(r, region, 0); var vars := Vars(s.top, region);
            && base < at && at + |vars| <= r.sp + 1 <= |m.stack|
            && m.stack[at..at + |vars|] == vars
  {
    EncodedOps(m, r, base, s);
  }

  lemma PushMoreSimulates(img: Image, m: Memory, r: Regs, base: int, s: State, cells: seq<int>, cp: int)
    requires Ready(img, m, r, base, s) && base < |m.stack| && |cells| <= 4
    ensures var o := PushCells(m, r.(cp := cp), cells);
            && o.Running? && o.r == r.(sp := r.sp + |cells|, cp := cp) && o.m.heap == m.heap
            && o.m.stack == Overwrite(m.stack, r.sp + 1, cells)
            && Encodes(o.m, o.r, base, WithOps(s, s.top.ops + cells, cp))
            && Confined(m, o.m, base, img.limit + 4)
  {
    hide Encodes, Overwrite, Confined;
    EncodedOps(m, r, base, s);
    SameRegisters(m, r, base, s);
    PushSimulates(m, r, base, s, 0, cells, m, cp);
    assert Keep(s.top.ops, 0) == s.top.ops;
    var o := PushCells(m, r.(cp := cp), cells);
    OverwriteConfined(m, o.m, base, img.limit + 4, r.sp + 1, cells);
  }

  lemma LoadVarSimulates(img: Image, m: Memory, r: Regs, base: int, s: State,
                         region: Region, index: nat, wide: bool, length: nat)
    requires Ready(img, m, r, base, s) && base < |m.stack|
    requires index + (if wide then 2 else 1) <= |Vars(s.top, region)|
    ensures var o := LoadVarStep(m, r, region, index, wide, length);
            && Matches(m, o, base, LoadVarFrame(s, region, index, wide, length))
            && Confined(m, MemoryOf(o, m), base, img.limit + 4)
  {
    hide Encodes, Overwrite, Confined, Chained, FrameAt;
    EncodedOps(m, r, base, s);
    SameRegisters(m, r, base, s);
    EncodedVars(m, r, base, s, region);
    var at := Slot(r, region, index);
    var n := if wide then 2 else 1;
    var vars := Vars(s.top, region);
    SubSlice(m.stack, at - index, at - index + |vars|, index, index + n);
    PushMoreSimulates(img, m, r, base, s, vars[index..index + n], r.cp + length);
  }

  lemma Param0InlineSimulates(img: Image, m: Memory, r: Regs, base: int, s: State, offset: int, length: nat)
    requires Ready(img, m, r, base, s) && base < |m.stack| && s.top.params != []
    ensures var cell := s.top.params[0] + offset;
            var o := PushCells(m, Advance(r, length), [cell]);
            && 0 <= r.pp < |m.stack| && m.stack[r.pp] == s.top.params[0]
            && o.Running? && Matches(m, o, base, Goes(WithOps(s, s.top.ops + [cell], s.cp + length)))
            && Confined(m, o.m, base, img.limit + 4)
  {
    hide Encodes, Overwrite, Confined, Chained, FrameAt;
    EncodedOps(m, r, base, s);
    SameRegisters(m, r, base, s);
    EncodedVars(m, r, base, s, Params);
    assert m.stack[r.pp] == m.stack[r.pp..r.pp + |s.top.params|][0];
    var cell := s.top.params[0] + offset;
    PushMoreSimulates(img, m, r, base, s, [cell], r.cp + length);
  }

  lemma OperandAt(m: Memory, r: Regs, base: int, s: State, j: nat)
    requires Encodes(m, r, base, s) && j < |s.top.ops|
    ensures 0 <= r.sp - j < |m.stack| && m.stack[r.sp - j] == s.top.ops[|s.top.ops| - 1 - j]
  {
    hide Encodes;
    EncodedOps(m, r, base, s);
    assert m.stack[r.sp - j] == m.stack[OpsAt(s.top, r.fp)..r.sp + 1][|s.top.ops| - 1 - j];
  }

  /** Dropping `k` operands and moving the code pointer writes nothing. */
  lemma DropSimulates(img: Image, m: Memory, r: Regs, base: int, s: State, k: nat, cp: int)
    requires Ready(img, m, r, base, s) && base < |m.stack| && k <= |s.top.ops|
    ensures Encodes(m, r.(sp := r.sp - k, cp := cp), base, WithOps(s, Keep(s.top.ops, k), cp))
    ensures Confined(m, m, base, img.limit + 4)
    ensures |s.top.ops| <= r.sp + 1 <= |m.stack|
  {
    hide Encodes, Chained, FrameAt;
    EncodedOps(m, r, base, s);
    SameRegisters(m, r, base, s);
    var b := OpsAt(s.top, r.fp);
    var ops := Keep(s.top.ops, k);
    SubSlice(m.stack, b, r.sp + 1, 0, |ops|);
    OpsReplaced(m, m, r, r.(sp := r.sp - k, cp := cp), base, s, ops, cp);
    Unwritten(m, m, base, img.limit + 4);
  }

  lemma BranchSimulates(img: Image, m: Memory, r: Regs, base: int, s: State, cond: Condition, offset: int, length: nat)
    requires Ready(img, m, r, base, s) && base < |m.stack|
    requires (if cond.IntIs? then 2 else 1) <= |s.top.ops|
    ensures var o := BranchStep(m, r, cond, offset, length);
            && Matches(m, o, base, BranchFrame(s, cond, offset, length))
            && Confined(m, MemoryOf(o, m), base, img.limit + 4)
  {
    hide Encodes, Confined, Chained, FrameAt;
    SameRegisters(m, r, base, s);
    var n := if cond.IntIs? then 2 else 1;
    DropSimulates(img, m, r, base, s, n, r.cp + offset);
    DropSimulates(img, m, r, base, s, n, r.cp + length);
    OperandAt(m, r, base, s, 0);
    OperandAt(m, r, base, s, n - 1);
  }

  lemma SwitchSimulates(img: Image, m: Memory, r: Regs, base: int, s: State, count: nat)
    requires Ready(img, m, r, base, s) && base < |m.stack| && 1 <= |s.top.ops|
    ensures var o := SwitchStep(img, m, r, count);
            && Matches(m, o, base, SwitchFrame(img, s, count))
            && Confined(m, MemoryOf(o, m), base, img.limit + 4)
  {
    hide Encodes, Confined, Chained, FrameAt, SwitchTarget;
    SameRegisters(m, r, base, s);
    OperandAt(m, r, base, s, 0);
    DropSimulates(img, m, r, base, s, 1, SwitchTarget(img, r.cp, count, s.top.ops[|s.top.ops| - 1]));
  }

  lemma ForeachSimulates(img: Image, m: Memory, r: Regs, base: int, s: State, offset: int, length: nat)
    requires Ready(img, m, r, base, s) && base < |m.stack| && 3 <= |s.top.ops|
    ensures var o := ForeachStep(m, r, offset, length);
            && Matches(m, o, base, ForeachFrame(s, offset, length))
            && Confined(m, MemoryOf(o, m), base, img.limit + 4)
  {
    hide Encodes, Overwrite, Confined, Chained, FrameAt, ToInt32;
    SameRegisters(m, r, base, s);
    EncodedOps(m, r, base, s);
    var a := Top(s.top.ops, 3);
    OperandAt(m, r, base, s, 0);
    OperandAt(m, r, base, s, 1);
    OperandAt(m, r, base, s, 2);
    var counter := ToInt32(a[2] + 1);
    var kept := Keep(s.top.ops, 1) + [counter];
    var m' := m.(stack := Overwrite(m.stack, r.sp, [counter]));
    OverwriteConfined(m, m', base, img.limit + 4, r.sp, [counter]);
    if counter >= a[1] {
      PushSimulates(m, r, base, s, 1, [counter], m, r.cp + offset);
    } else {
      PushSimulates(m, r, base, s, 1, [counter], m, r.cp);
      var s' := WithOps(s, kept, s.cp);
      assert m'.stack[r.sp - 2] == a[0] by { OverwriteElsewhere(m.stack, r.sp, [counter], r.sp - 2); }
      PushMoreSimulates(img, m', r, base, s', [a[0], counter], r.cp + length);
      var o := ForeachStep(m, r, offset, length);
      ConfinedTwice(m, m', o.m, base, img.limit + 4);
    }
  }

  lemma OverwriteElsewhere(s: seq<int>, at: int, cells: seq<int>, k: int)
    requires 0 <= at && at + |cells| <= |s| && 0 <= k < |s| && !(at <= k < at + |cells|)
    ensures Overwrite(s, at, cells)[k] == s[k]
  {
  }

  lemma OverwriteThere(s: seq<int>, at: int, cells: seq<int>, k: nat)
    requires 0 <= at && at + |cells| <= |s| && k < |cells|
    ensures Overwrite(s, at, cells)[at + k] == cells[k]
  {
  }

  function WithVars(f: Frame, region: Region, vars: seq<int>): Frame
  {
    if region.Params? then f.(params := vars) else f.(locals := vars)
  }

  lemma ParamsStored(stack: seq<int>, f: Frame, fp: int, index: nat, cells: seq<int>)
    requires FrameAt(stack, f, fp) && index + |cells| <= |f.params|
    ensures var at := ParamsAt(f, fp) + index;
            && at + |cells| <= |stack|
            && FrameAt(Overwrite(stack, at, cells), f.(params := Overwrite(f.params, index, cells)), fp)
  {
    hide Overwrite;
    var at := ParamsAt(f, fp) + index;
    OverwrittenSlices(stack, at, cells, ParamsAt(f, fp), fp);
    OverwrittenSlices(stack, at, cells, LocalsAt(fp), OpsAt(f, fp));
    OverwrittenSlices(stack, at, cells, OpsAt(f, fp), EndOf(f, fp));
    OverwriteElsewhere(stack, at, cells, fp);
    OverwriteElsewhere(stack, at, cells, fp + 2);
  }

  lemma LocalsStored(stack: seq<int>, f: Frame, fp: int, index: nat, cells: seq<int>)
    requires FrameAt(stack, f, fp) && index + |cells| <= |f.locals|
    ensures var at := LocalsAt(fp) + index;
            && at + |cells| <= |stack|
            && FrameAt(Overwrite(stack, at, cells), f.(locals := Overwrite(f.locals, index, cells)), fp)
  {
    hide Overwrite;
    var at := LocalsAt(fp) + index;
    OverwrittenSlices(stack, at, cells, ParamsAt(f, fp), fp);
    OverwrittenSlices(stack, at, cells, LocalsAt(fp), OpsAt(f, fp));
    OverwrittenSlices(stack, at, cells, OpsAt(f, fp), EndOf(f, fp));
    OverwriteElsewhere(stack, at, cells, fp);
    OverwriteElsewhere(stack, at, cells, fp + 2);
  }

  lemma FrameVarsStored(stack: seq<int>, f: Frame, fp: int, region: Region, index: nat, cells: seq<int>)
    requires FrameAt(stack, f, fp) && index + |cells| <= |Vars(f, region)|
    ensures var at := (if region.Params? then ParamsAt(f, fp) else LocalsAt(fp)) + index;
            && 0 <= at && at + |cells| <= |stack|
            && FrameAt(Overwrite(stack, at, cells), WithVars(f, region, Overwrite(Vars(f, region), index, cells)), fp)
  {
    hide Overwrite;
    if region.Params? {
      ParamsStored(stack, f, fp, index, cells);
    } else {
      LocalsStored(stack, f, fp, index, cells);
    }
  }

  /** Storing inside the parameters or the locals of the top frame. */
  lemma VarStored(m: Memory, m': Memory, r: Regs, base: int, s: State, region: Region, index: nat, cells: seq<int>)
    requires Encodes(m, r, base, s) && index + |cells| <= |Vars(s.top, region)|
    requires 0 <= Slot(r, region, index) && Slot(r, region, index) + |cells| <= |m.stack|
    requires m' == m.(stack := Overwrite(m.stack, Slot(r, region, index), cells))
    ensures Encodes(m', r, base, s.(top := WithVars(s.top, region, Overwrite(Vars(s.top, region), index, cells))))
  {
    hide FrameAt, Chained, Overwrite;
    var f := s.top;
    var fp := r.fp;
    var at := Slot(r, region, index);
    FrameVarsStored(m.stack, f, fp, region, index, cells);
    EncodedOps(m, r, base, s);
    OverwriteElsewhere(m.stack, at, cells, fp + 1);
    OverwrittenSlices(m.stack, at, cells, 0, ParamsAt(f, fp));
    var t := m'.stack;
    assert t[..ParamsAt(f, fp)] == t[0..ParamsAt(f, fp)] == m.stack[0..ParamsAt(f, fp)] == m.stack[..ParamsAt(f, fp)];
    ChainKept(m.stack, t, base, s.callers, f, WithVars(f, region, Overwrite(Vars(f, region), index, cells)), fp);
  }

  /** A slice that contains the overwritten cells, or misses them. */
  lemma OverwrittenSlices(s: seq<int>, at: int, cells: seq<int>, from: int, to: int)
    requires 0 <= at && at + |cells| <= |s| && 0 <= from <= to <= |s|
    ensures to <= at || at + |cells| <= from ==> Overwrite(s, at, cells)[from..to] == s[from..to]
    ensures from <= at && at + |cells| <= to ==>
              Overwrite(s, at, cells)[from..to] == Overwrite(s[from..to], at - from, cells)
  {
  }

  lemma StoreVarSimulates(img: Image, m: Memory, r: Regs, base: int, s: State,
                          region: Region, index: nat, wide: bool, length: nat)
    requires Ready(img, m, r, base, s) && base < |m.stack|
    requires index + (if wide then 2 else 1) <= |Vars(s.top, region)| && (if wide then 2 else 1) <= |s.top.ops|
    ensures var o := StoreVarStep(m, r, region, index, wide, length);
            && Matches(m, o, base, StoreVarFrame(s, region, index, wide, length))
            && Confined(m, MemoryOf(o, m), base, img.limit + 4)
  {
    hide Encodes, Overwrite, Confined, Chained, FrameAt;
    SameRegisters(m, r, base, s);
    EncodedOps(m, r, base, s);
    EncodedVars(m, r, base, s, region);
    var n := if wide then 2 else 1;
    var cells := Top(s.top.ops, n);
    SubSlice(m.stack, OpsAt(s.top, r.fp), r.sp + 1, |s.top.ops| - n, |s.top.ops|);
    var m' := m.(stack := Overwrite(m.stack, Slot(r, region, index), cells));
    VarStored(m, m', r, base, s, region, index, cells);
    var stored := Overwrite(Vars(s.top, region), index, cells);
    var s' := s.(top := WithVars(s.top, region, stored));
    DropSimulates(img, m', r, base, s', n, s.cp + length);
    OverwriteConfined(m, m', base, img.limit + 4, Slot(r, region, index), cells);
  }

  // ------------------------------------------------------- calls and returns

  /** The arguments on the caller's operand stack become the callee's parameters. */
  lemma CallSimulates(img: Image, m: Memory, r: Regs, base: int, s: State, target: int, returnCp: int)
    requires Encodes(m, r, base, s) && base < |m.stack|
    requires r.sp <= img.limit && img.limit + REDZONE <= |m.stack|
    requires NumParams(img, target) <= |s.top.ops|
    ensures var o := CallStep(img, m, r, target, returnCp);
            && o.Running?
            && Matches(m, o, base, CallFrame(img, s, target, returnCp, m.stack[r.sp + 1..]))
            && Confined(m, MemoryOf(o, m), base, r.sp + 4)
  {
    hide Overwrite, Confined, Chained, FrameAt;
    EncodedOps(m, r, base, s);
    var header := [returnCp, r.fp, target];
    var fp := r.sp + 1;
    var m' := m.(stack := Overwrite(m.stack, fp, header));
    OverwriteConfined(m, m', base, fp + 3, fp, header);
    var above := m.stack[fp..];
    var argc := NumParams(img, target);
    var f := Frame(target, returnCp, Top(s.top.ops, argc), above[3..3 + NumLocals(img, target)], []);
    CalleeEncoded(m.stack, fp, f, header, s.top.ops, OpsAt(s.top, r.fp));
    CallerEncoded(m.stack, base, s.callers, s.top, r.fp, fp, header, argc);
    OverwriteThere(m.stack, fp, header, 1);
    ChainPushed(m'.stack, base, s.callers, s.top.(ops := Keep(s.top.ops, argc)), r.fp, f, fp);
  }

  lemma CalleeEncoded(stack: seq<int>, fp: int, f: Frame, header: seq<int>, ops: seq<int>, b: int)
    requires 0 <= b && fp + 3 + |f.locals| <= |stack|
    requires |header| == 3 && header[0] == f.returnCp && header[2] == f.entry
    requires b + |ops| == fp && stack[b..fp] == ops && |f.params| <= |ops|
    requires f.params == Top(ops, |f.params|) && f.ops == []
    requires f.locals == stack[fp..][3..3 + |f.locals|]
    ensures FrameAt(Overwrite(stack, fp, header), f, fp)
  {
    hide Overwrite;
    OverwrittenSlices(stack, fp, header, fp - |f.params|, fp);
    OverwrittenSlices(stack, fp, header, fp + 3, fp + 3 + |f.locals|);
    OverwriteThere(stack, fp, header, 0);
    OverwriteThere(stack, fp, header, 2);
    SubSlice(stack, b, fp, |ops| - |f.params|, |ops|);
    SubSlice(stack, fp, |stack|, 3, 3 + |f.locals|);
  }

  /** The caller's frame, its arguments taken off, still stands below the new header. */
  lemma CallerEncoded(stack: seq<int>, base: int, callers: seq<Frame>, f: Frame, fp: int, at: int,
                      header: seq<int>, argc: nat)
    requires FrameAt(stack, f, fp) && Chained(stack, base, callers, f, fp)
    requires at == EndOf(f, fp) && at + |header| <= |stack| && argc <= |f.ops|
    ensures var t := Overwrite(stack, at, header); var g := f.(ops := Keep(f.ops, argc));
            FrameAt(t, g, fp) && Chained(t, base, callers, g, fp)
  {
    hide Chained;
    var t := Overwrite(stack, at, header);
    var g := f.(ops := Keep(f.ops, argc));
    assert t[..at] == stack[..at];
    assert forall i :: 0 <= i < at ==> t[i] == t[..at][i] == stack[i];
    assert t[ParamsAt(f, fp)..fp] == stack[ParamsAt(f, fp)..fp];
    assert t[LocalsAt(fp)..OpsAt(f, fp)] == stack[LocalsAt(fp)..OpsAt(f, fp)];
    assert t[OpsAt(g, fp)..EndOf(g, fp)] == stack[OpsAt(f, fp)..EndOf(f, fp)][..|g.ops|];
    assert t[..ParamsAt(f, fp)] == stack[..ParamsAt(f, fp)];
    ChainKept(stack, t, base, callers, f, g, fp);
  }

  lemma ChainPushed(stack: seq<int>, base: int, callers: seq<Frame>, caller: Frame, prev: int, callee: Frame, fp: int)
    requires FrameAt(stack, caller, prev) && Chained(stack, base, callers, caller, prev)
    requires 0 <= fp && fp + 1 < |stack| && stack[fp + 1] == prev
    requires EndOf(caller, prev) == ParamsAt(callee, fp)
    ensures Chained(stack, base, callers + [caller], callee, fp)
  {
    var all := callers + [caller];
    assert all[..|all| - 1] == callers && all[|all| - 1] == caller;
  }

  lemma CallParam0Simulates(img: Image, m: Memory, r: Regs, base: int, s: State, target: int)
    requires Ready(img, m, r, base, s) && base < |m.stack|
    requires s.top.params != [] && NumParams(img, target) <= |s.top.ops| + 1
    ensures var o := CallParam0Step(img, m, r, target);
            && Matches(m, o, base, CallParam0Frame(img, s, target, m.stack[r.sp + 1..]))
            && Confined(m, MemoryOf(o, m), base, img.limit + 4)
  {
    hide Encodes, Overwrite, CallStep, CallFrame, Chained, FrameAt, Confined;
    EncodedOps(m, r, base, s);
    SameRegisters(m, r, base, s);
    Param0InlineSimulates(img, m, r, base, s, 0, 0);
    var cell := s.top.params[0];
    PushMoreSimulates(img, m, r, base, s, [cell], r.cp);
    var o := PushCells(m, r, [cell]);
    assert r.(cp := r.cp) == r;
    var s' := WithOps(s, s.top.ops + [cell], s.cp);
    AboveOverwritten(m.stack, r.sp + 1, cell);
    CallSimulates(img, o.m, o.r, base, s', target, r.cp + 3);
    SameBelow(m, o.m, base, img.limit + 4);
    var p := CallStep(img, o.m, o.r, target, r.cp + 3);
    ConfinedWider(o.m, MemoryOf(p, o.m), base, o.r.sp + 4, img.limit + 4);
    ConfinedTwice(m, o.m, MemoryOf(p, o.m), base, img.limit + 4);
  }

  lemma AboveOverwritten(stack: seq<int>, at: int, cell: int)
    requires 0 <= at < |stack|
    ensures Overwrite(stack, at, [cell])[at + 1..] == stack[at..][1..]
  {
    SubSlice(stack, at, |stack|, 1, |stack| - at);
  }

  lemma SameBelow(m: Memory, m': Memory, base: int, top: int)
    requires Confined(m, m', base, top) && 0 <= base
    ensures base < |m.stack| == |m'.stack| && m'.stack[base] == m.stack[base] && m'.sp == m.sp
  {
    assert m'.stack[base] == m'.stack[..base + 1][base] == m.stack[..base + 1][base];
  }

  lemma ConfinedWider(m: Memory, m': Memory, base: int, top: int, top': int)
    requires Confined(m, m', base, top) && top <= top' <= |m.stack|
    ensures Confined(m, m', base, top')
  {
    assert m'.stack[top'..] == m'.stack[top..][top' - top..];
    assert m.stack[top'..] == m.stack[top..][top' - top..];
  }

  /** A native is trusted with everything but the stack at and below the vm->sp it was given. */
  predicate Respects(m: Memory, sp: int, n: Memory)
    requires 0 <= sp + 1 <= |m.stack|
  {
    |n.stack| == |m.stack| && n.stack[..sp + 1] == m.stack[..sp + 1]
  }

  lemma NativeSimulates(img: Image, m: Memory, r: Regs, base: int, s: State, cells: nat, argc: nat,
                        n: NativeResult, e: Effect)
    requires Ready(img, m, r, base, s) && base < |m.stack| && argc <= |s.top.ops| && cells <= 2
    requires 0 <= r.sp + 1 <= |m.stack| && Respects(m, r.sp, n.m)
    requires e.heap == n.m.heap && e.lo == n.lo && e.hi == n.hi
    ensures var o := NativeStep(r, cells, argc, n);
            && Matches(m, o, base, NativeFrame(s, cells, argc, e))
            && Confined(n.m, MemoryOf(o, n.m), base, img.limit + 4)
  {
    hide Encodes, Overwrite, Confined, Chained, FrameAt;
    EncodedOps(m, r, base, s);
    SameRegisters(m, r, base, s);
    var result := if cells == 0 then [] else if cells == 1 then [n.lo] else [n.lo, n.hi];
    PushSimulates(m, r, base, s, argc, result, n.m, r.cp + 4);
    var o := NativeStep(r, cells, argc, n);
    OverwriteConfined(n.m, o.m, base, img.limit + 4, r.sp + 1 - argc, result);
  }

  /** The registers a return restores encode the caller, suspended as it was at the call. */
  lemma CallerRestored(img: Image, m: Memory, r: Regs, base: int, s: State)
    requires Encodes(m, r, base, s) && s.callers != []
    ensures var n := |s.callers| - 1; var caller := s.callers[n]; var fp := m.stack[r.fp + 1];
            && fp + 2 < ParamsAt(s.top, r.fp) == EndOf(caller, fp) && 0 <= fp
            && m.stack[fp + 2] == caller.entry
            && Encodes(m, Regs(ParamsAt(s.top, r.fp) - 1, s.top.returnCp, fp, ParamsAt(caller, fp), LocalsAt(fp),
                               |caller.params|, |caller.locals|),
                       base, State(s.callers[..n], caller, s.top.returnCp, m.heap))
  {
  }

  lemma ReturnSimulates(img: Image, m: Memory, r: Regs, base: int, s: State, cells: nat)
    requires Ready(img, m, r, base, s) && base < |m.stack| && |s.top.ops| == cells <= 2
    requires s.top.returnCp == 0 <==> s.callers == []
    requires s.callers != [] ==> FrameOk(img, s.callers[|s.callers| - 1])
    ensures var o := ReturnStep(img, m, r, cells);
            && Matches(m, o, base, ReturnFrame(s, cells))
            && Confined(m, MemoryOf(o, m), base, img.limit + 4)
  {
    hide Encodes, Overwrite, Confined, Chained;
    EncodedOps(m, r, base, s);
    EncodedHeight(m, r, base, s);
    SameRegisters(m, r, base, s);
    ReturnCpAt(m, r, base, s);
    Unwritten(m, m, base, img.limit + 4);
    if s.callers != [] {
      CallerRestored(img, m, r, base, s);
      var caller := s.callers[|s.callers| - 1];
      var fp := m.stack[r.fp + 1];
      var r' := Regs(r.fp - r.numParams - 1, s.top.returnCp, fp, ParamsAt(caller, fp), LocalsAt(fp),
                     |caller.params|, |caller.locals|);
      var s' := State(s.callers[..|s.callers| - 1], caller, s.top.returnCp, m.heap);
      PushMoreSimulates(img, m, r', base, s', s.top.ops, s.top.returnCp);
      assert r'.(cp := s.top.returnCp) == r';
    }
  }

  lemma ReturnCpAt(m: Memory, r: Regs, base: int, s: State)
    requires Encodes(m, r, base, s)
    ensures m.stack[r.fp] == s.top.returnCp && r.fp + 2 < |m.stack|
    ensures r.sp - |s.top.ops| - r.numLocals + 1 == r.lp
  {
  }

  // ------------------------------------------------------ every instruction

  /** What FrameStep has to be told so that it follows FlatStep. */
  function EffectOf(m: Memory, r: Regs, n: NativeResult): Effect
    requires 0 <= r.sp + 1 <= |m.stack|
  {
    Effect(m.stack[r.sp + 1..], n.m.heap, n.lo, n.hi)
  }

  predicate IsStraight(i: Instr) { i.Simple? || i.LoadVar? || i.StoreVar? || i.LoadParam0Inline? || i.Jump? }

  lemma StraightSimulates(img: Image, m: Memory, r: Regs, base: int, s: State, n: NativeResult, e: Effect)
    requires Ready(img, m, r, base, s) && base < |m.stack|
    requires var i := Fetch(img, s.cp); IsStraight(i) && (i.Simple? ==> Pushes(i.op) <= Pops(i.op) + 2)
    requires !ExecuteFrame(img, s, Fetch(img, s.cp), e).Stuck?
    ensures var i := Fetch(img, s.cp); var o := Execute(img, m, r, i, n);
            && Matches(m, o, base, ExecuteFrame(img, s, i, e))
            && Confined(m, MemoryOf(o, m), base, img.limit + 4)
  {
    hide Decode, Encodes, Confined, Matches, SimpleStep, LoadVarStep, StoreVarStep, Pushes, Pops;
    match Fetch(img, s.cp)
    case Simple(op, length) =>
      SimpleNotStuck(s, op, length);
      SimpleSimulates(img, m, r, base, s, op, length);
    case LoadVar(region, index, wide, length) => LoadVarSimulates(img, m, r, base, s, region, index, wide, length);
    case StoreVar(region, index, wide, length) => StoreVarSimulates(img, m, r, base, s, region, index, wide, length);
    case LoadParam0Inline(offset, length) => Param0InlineSimulates(img, m, r, base, s, offset, length);
    case Jump(offset) => JumpSimulates(img, m, r, base, s, offset);
  }

  lemma SimpleNotStuck(s: State, op: Op, length: nat)
    requires !SimpleFrame(s, op, length).Stuck?
    ensures Pops(op) <= |s.top.ops|
  {
    hide Pops, Compute;
  }

  lemma JumpSimulates(img: Image, m: Memory, r: Regs, base: int, s: State, offset: int)
    requires Ready(img, m, r, base, s) && base < |m.stack|
    ensures Matches(m, Running(m, Advance(r, offset)), base, Goes(s.(cp := s.cp + offset)))
    ensures Confined(m, m, base, img.limit + 4)
  {
    hide Encodes, Confined;
    SameRegisters(m, r, base, s);
    DropSimulates(img, m, r, base, s, 0, r.cp + offset);
    assert Keep(s.top.ops, 0) == s.top.ops;
  }

  lemma ControlSimulates(img: Image, d: Depths, m: Memory, r: Regs, base: int, s: State, n: NativeResult, e: Effect)
    requires Ready(img, m, r, base, s) && base < |m.stack| && CallersOk(img, d, s.callers, s.top) && 0 !in d
    requires var i := Fetch(img, s.cp);
             !IsStraight(i) && !i.CallNative? && Reads(i) <= |s.top.ops| && (i.Return? ==> i.cells <= 2)
    requires !ExecuteFrame(img, s, Fetch(img, s.cp), e).Stuck?
    requires 0 <= r.sp + 1 <= |m.stack| && e.above == m.stack[r.sp + 1..] && e.lo == n.lo && e.hi == n.hi
    ensures var i := Fetch(img, s.cp); var o := Execute(img, m, r, i, n);
            && Matches(m, o, base, ExecuteFrame(img, s, i, e))
            && Confined(m, MemoryOf(o, m), base, img.limit + 4)
  {
    hide Decode, Encodes, Confined, Matches, BranchStep, ForeachStep, SwitchStep, CallStep, CallParam0Step, CallFrame,
         CallVirtualStep, ReturnStep, GivenStep, GivenFrame, Takes;
    EncodedOps(m, r, base, s);
    match Fetch(img, s.cp)
    case Branch(cond, offset, length) => BranchSimulates(img, m, r, base, s, cond, offset, length);
    case Foreach(offset, length) => ForeachSimulates(img, m, r, base, s, offset, length);
    case Switch(count) => SwitchSimulates(img, m, r, base, s, count);
    case Call(target, loadParam0) => DirectCallSimulates(img, m, r, base, s, target, loadParam0);
    case CallVirtual(slot, argc) => VirtualCallSimulates(img, m, r, base, s, slot, argc);
    case Return(cells) =>
      OutermostReturnsToZero(img, d, s);
      ReturnSimulates(img, m, r, base, s, cells);
    case Unaccepted => FailSimulates(img, m, r, base, s, ERR_UNKNOWN_OPCODE);
    case Given(source, length) => GivenSimulates(img, m, r, base, s, source, length, e);
  }

  lemma FailSimulates(img: Image, m: Memory, r: Regs, base: int, s: State, error: int)
    requires Encodes(m, r, base, s) && base < |m.stack| && 0 <= base && img.limit + REDZONE <= |m.stack|
    requires base < img.limit + 4
    ensures Matches(m, Failed(m, error), base, Fails(s.heap, error))
    ensures Matches(m, Undefined, base, Undetermined)
    ensures Confined(m, m, base, img.limit + 4)
  {
    Unwritten(m, m, base, img.limit + 4);
  }

  lemma OutermostReturnsToZero(img: Image, d: Depths, s: State)
    requires CallersOk(img, d, s.callers, s.top) && 0 !in d
    ensures s.top.returnCp == 0 <==> s.callers == []
    ensures s.callers != [] ==> FrameOk(img, s.callers[|s.callers| - 1])
  {
  }

  lemma DirectCallSimulates(img: Image, m: Memory, r: Regs, base: int, s: State, target: int, loadParam0: bool)
    requires Ready(img, m, r, base, s) && base < |m.stack| && 0 <= r.sp + 1 <= |m.stack|
    requires var above := m.stack[r.sp + 1..];
             !(if loadParam0 then CallParam0Frame(img, s, target, above)
               else CallFrame(img, s, target, s.cp + 3, above)).Stuck?
    ensures var above := m.stack[r.sp + 1..];
            var p := if loadParam0 then CallParam0Frame(img, s, target, above)
                     else CallFrame(img, s, target, s.cp + 3, above);
            var o := if loadParam0 then CallParam0Step(img, m, r, target) else CallStep(img, m, r, target, r.cp + 3);
            Matches(m, o, base, p) && Confined(m, MemoryOf(o, m), base, img.limit + 4)
  {
    hide Encodes, Confined, Matches, CallStep, CallParam0Step;
    SameRegisters(m, r, base, s);
    if loadParam0 {
      CallParam0Simulates(img, m, r, base, s, target);
    } else {
      CallSimulates(img, m, r, base, s, target, r.cp + 3);
      CallBound(img, m, r, base, s, target, r.cp + 3);
    }
  }

  lemma CallBound(img: Image, m: Memory, r: Regs, base: int, s: State, target: int, returnCp: int)
    requires Ready(img, m, r, base, s)
    requires var o := CallStep(img, m, r, target, returnCp);
             o.Running? && Confined(m, o.m, base, r.sp + 4)
    ensures Confined(m, CallStep(img, m, r, target, returnCp).m, base, img.limit + 4)
  {
    hide Encodes, Confined, CallStep;
    ConfinedWider(m, CallStep(img, m, r, target, returnCp).m, base, r.sp + 4, img.limit + 4);
  }

  lemma VirtualCallSimulates(img: Image, m: Memory, r: Regs, base: int, s: State, slot: nat, argc: nat)
    requires Ready(img, m, r, base, s) && base < |m.stack| && 0 <= r.sp + 1 <= |m.stack|
    requires !CallVirtualFrame(img, s, slot, argc, m.stack[r.sp + 1..]).Stuck?
    ensures var o := CallVirtualStep(img, m, r, slot, argc);
            && Matches(m, o, base, CallVirtualFrame(img, s, slot, argc, m.stack[r.sp + 1..]))
            && Confined(m, MemoryOf(o, m), base, img.limit + 4)
  {
    hide Encodes, Confined, Matches, CallStep, CallFrame, Dispatch;
    SameRegisters(m, r, base, s);
    EncodedOps(m, r, base, s);
    OperandAt(m, r, base, s, argc - 1);
    var self := s.top.ops[|s.top.ops| - argc];
    match Dispatch(img, s.heap, s.cp, self, slot, argc)
    case None => FailSimulates(img, m, r, base, s, 0);
    case Some(target) =>
      DispatchIsMethod(img, s.heap, s.cp, self, slot, argc);
      CallSimulates(img, m, r, base, s, target, r.cp + 4);
      CallBound(img, m, r, base, s, target, r.cp + 4);
  }

  /** The traps before an instruction see the same cells in both machines. */
  lemma TrapSimulates(img: Image, m: Memory, r: Regs, base: int, s: State)
    requires Encodes(m, r, base, s) && Reads(Fetch(img, s.cp)) <= |s.top.ops|
    ensures var i := Fetch(img, s.cp);
            && Within(m.stack, r.sp + 1 - Reads(i), Reads(i))
            && Trap(img, m, r, i) == FrameTrap(img, base, s, i)
  {
    hide Decode, Encodes, Reads;
    var i := Fetch(img, s.cp);
    EncodedOps(m, r, base, s);
    EncodedHeight(m, r, base, s);
    var p := CheckedPointer(i);
    if p.Some? && p.value < Reads(i) {
      OperandAt(m, r, base, s, p.value);
    }
  }

  lemma ExecuteSimulates(img: Image, d: Depths, m: Memory, r: Regs, base: int, s: State, n: NativeResult)
    requires Ready(img, m, r, base, s) && base < |m.stack| && CallersOk(img, d, s.callers, s.top) && 0 !in d
    requires 0 <= r.sp + 1 <= |m.stack| && Respects(m, r.sp, n.m)
    requires var i := Fetch(img, s.cp); Reads(i) <= |s.top.ops| && (i.CallNative? || i.Return? ==> i.cells <= 2)
    requires !ExecuteFrame(img, s, Fetch(img, s.cp), EffectOf(m, r, n)).Stuck?
    ensures var i := Fetch(img, s.cp); var o := Execute(img, m, r, i, n);
            var m1 := if i.CallNative? then n.m else m;
            && Matches(m, o, base, ExecuteFrame(img, s, i, EffectOf(m, r, n)))
            && Confined(m1, MemoryOf(o, m1), base, img.limit + 4)
  {
    hide Decode, Encodes, Confined, Matches, NativeStep, CallersOk;
    var i := Fetch(img, s.cp);
    var e := EffectOf(m, r, n);
    if IsStraight(i) {
      DecodedBounds(img.code, s.cp, img.dataBase);
      StraightSimulates(img, m, r, base, s, n, e);
    } else if i.CallNative? {
      NativeSimulates(img, m, r, base, s, i.cells, i.argc, n, e);
    } else {
      ControlSimulates(img, d, m, r, base, s, n, e);
    }
  }

  lemma StepNotStuck(img: Image, base: int, s: State, e: Effect)
    requires !FrameStep(img, base, s, e).Stuck?
    ensures var i := Fetch(img, s.cp);
            && Reads(i) <= |s.top.ops|
            && FrameStep(img, base, s, e) == (match FrameTrap(img, base, s, i)
                                              case Some(error) => Fails(s.heap, error)
                                              case None => ExecuteFrame(img, s, i, e))
            && (FrameTrap(img, base, s, i).None? ==>
                  StackTop(base, s) < img.limit && !ExecuteFrame(img, s, i, e).Stuck?)
  {
    hide Decode, Reads, ExecuteFrame;
  }

  lemma FlatStepCases(img: Image, m: Memory, r: Regs, n: NativeResult)
    requires var i := Fetch(img, r.cp); Within(m.stack, r.sp + 1 - Reads(i), Reads(i))
    ensures var i := Fetch(img, r.cp);
            && FlatStep(img, m, r, n) == (match Trap(img, m, r, i)
                                          case Some(error) => Failed(m, error)
                                          case None => Execute(img, m, r, i, n))
            && (CallsOut(img, m, r) <==> i.CallNative? && Trap(img, m, r, i).None?)
  {
    hide Decode, Reads, Execute, Trap;
  }

  lemma NativeCellsDecoded(img: Image, cp: int)
    ensures Fetch(img, cp).CallNative? || Fetch(img, cp).Return? ==> Fetch(img, cp).cells <= 2
  {
  }

  /** The refinement: for checked code one turn of the dispatch loop on the flat stack is one step
      of the frame machine, never a wild access, never an imbalance warning, and writes no cell at
      or below `base` and none at maxStackAddr + 4 or above. */
  lemma StepSimulates(img: Image, d: Depths, m: Memory, r: Regs, base: int, s: State, n: NativeResult)
    requires Checked(img, d) && Typed(img, d, s) && Encodes(m, r, base, s)
    requires img.limit + REDZONE <= |m.stack| && r.sp + HEADROOM < |m.stack| && base < img.limit
    requires 0 <= r.sp + 1 && Respects(m, r.sp, n.m)
    ensures var o := FlatStep(img, m, r, n);
            var p := FrameStep(img, base, s, EffectOf(m, r, n));
            var m1 := if CallsOut(img, m, r) then n.m else m;
            && !p.Stuck? && Matches(m, o, base, p) && (p.Goes? ==> Typed(img, d, p.s))
            && Confined(m1, MemoryOf(o, m1), base, img.limit + 4)
  {
    hide Decode, Encodes, Execute, ExecuteFrame, Matches, Confined, Trap, FrameTrap, Reads, CallersOk, Checks,
         FlatStep, FrameStep, CallsOut;
    var e := EffectOf(m, r, n);
    StepKeepsTyping(img, d, base, s, e);
    StepNotStuck(img, base, s, e);
    SameRegisters(m, r, base, s);
    EncodedHeight(m, r, base, s);
    EncodedOps(m, r, base, s);
    TrapSimulates(img, m, r, base, s);
    FlatStepCases(img, m, r, n);
    var i := Fetch(img, s.cp);
    match FrameTrap(img, base, s, i)
    case Some(error) => FailSimulates(img, m, r, base, s, error);
    case None =>
      NativeCellsDecoded(img, s.cp);
      ExecuteSimulates(img, d, m, r, base, s, n);
  }
}
