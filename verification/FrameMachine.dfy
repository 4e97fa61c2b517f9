/** The machine the flat stack stands for: a list of frames, each with its parameters, locals
    and operand stack. No pointer arithmetic; an instruction that would reach outside its
    operand stack, parameters or locals is Stuck. */
module FrameMachine {
  import opened Words
  import opened Scode
  import opened FlatMachine

  datatype Frame = Frame(entry: int, returnCp: int, params: seq<int>, locals: seq<int>, ops: seq<int>)

  /** `callers` from the outermost to the innermost; their operands exclude the arguments that
      became the callee's parameters. */
  datatype State = State(callers: seq<Frame>, top: Frame, cp: int, heap: Heap)

  datatype Result =
    | Goes(s: State)
    | Ends(heap: Heap, value: Option<int>)   // None: a void method ended
    | Fails(heap: Heap, error: int)
    | Undetermined
    | Stuck

  /** What one instruction takes from outside the frames: the cells above the operand stack
      (a new frame's locals start with whatever they hold), a native's heap and result, or a word
      that is not computed here. */
  datatype Effect = Effect(above: seq<int>, heap: Heap, lo: int, hi: int)

  function Cells(f: Frame): nat { |f.params| + 3 + |f.locals| + |f.ops| }

  function Height(callers: seq<Frame>): nat
  {
    if callers == [] then 0 else Height(callers[..|callers| - 1]) + Cells(callers[|callers| - 1])
  }

  /** vm->sp for a machine whose outermost frame starts above cell `base`. */
  function StackTop(base: int, s: State): int { base + Height(s.callers) + Cells(s.top) }

  function Keep(ops: seq<int>, k: nat): seq<int>
    requires k <= |ops|
  {
    ops[..|ops| - k]
  }

  function Top(ops: seq<int>, k: nat): seq<int>
    requires k <= |ops|
  {
    ops[|ops| - k..]
  }

  function WithOps(s: State, ops: seq<int>, cp: int): State
  {
    s.(top := s.top.(ops := ops), cp := cp)
  }

  function ReplaceFrame(s: State, k: nat, length: nat, c: Option<(seq<int>, Heap)>): Result
    requires k <= |s.top.ops|
  {
    match c
    case None => Undetermined
    case Some((cells, heap)) => Goes(WithOps(s, Keep(s.top.ops, k) + cells, s.cp + length).(heap := heap))
  }

  function SimpleFrame(s: State, op: Op, length: nat): Result
  {
    var ops := s.top.ops;
    if Pops(op) > |ops| then Stuck
    else ReplaceFrame(s, Pops(op), length, Compute(op, Top(ops, Pops(op)), s.heap))
  }

  function Vars(f: Frame, region: Region): seq<int> { if region.Params? then f.params else f.locals }

  function LoadVarFrame(s: State, region: Region, index: nat, wide: bool, length: nat): Result
  {
    var n := if wide then 2 else 1;
    var vars := Vars(s.top, region);
    if index + n > |vars| then Stuck
    else Goes(WithOps(s, s.top.ops + vars[index..index + n], s.cp + length))
  }

  function StoreVarFrame(s: State, region: Region, index: nat, wide: bool, length: nat): Result
  {
    var n := if wide then 2 else 1;
    var vars := Vars(s.top, region);
    var ops := s.top.ops;
    if index + n > |vars| || n > |ops| then Stuck
    else
      var stored := Overwrite(vars, index, Top(ops, n));
      var f := if region.Params? then s.top.(params := stored) else s.top.(locals := stored);
      Goes(s.(top := f.(ops := Keep(ops, n)), cp := s.cp + length))
  }

  function BranchFrame(s: State, cond: Condition, offset: int, length: nat): Result
  {
    var n := if cond.IntIs? then 2 else 1;
    var ops := s.top.ops;
    if n > |ops| then Stuck
    else Goes(WithOps(s, Keep(ops, n),
                      s.cp + if Taken(cond, ops[|ops| - n], ops[|ops| - 1]) then offset else length))
  }

  function ForeachFrame(s: State, offset: int, length: nat): Result
  {
    var ops := s.top.ops;
    if 3 > |ops| then Stuck
    else
      var a := Top(ops, 3);   // array, length, counter
      var counter := ToInt32(a[2] + 1);
      var kept := Keep(ops, 1) + [counter];
      if counter >= a[1] then Goes(WithOps(s, kept, s.cp + offset))
      else Goes(WithOps(s, kept + [a[0], counter], s.cp + length))
  }

  function SwitchFrame(img: Image, s: State, count: nat): Result
  {
    var ops := s.top.ops;
    if 1 > |ops| then Stuck
    else Goes(WithOps(s, Keep(ops, 1), SwitchTarget(img, s.cp, count, ops[|ops| - 1])))
  }

  /** The caller keeps its frame without the arguments; the callee's locals are the stale cells
      found above its header. */
  function CallFrame(img: Image, s: State, target: int, returnCp: int, above: seq<int>): Result
  {
    var ops := s.top.ops;
    var argc := NumParams(img, target);
    var numLocals := NumLocals(img, target);
    if argc > |ops| || 3 + numLocals > |above| then Stuck
    else Goes(State(s.callers + [s.top.(ops := Keep(ops, argc))],
                    Frame(target, returnCp, Top(ops, argc), above[3..3 + numLocals], []),
                    target + 2, s.heap))
  }

  function CallParam0Frame(img: Image, s: State, target: int, above: seq<int>): Result
  {
    if s.top.params == [] || above == [] then Stuck
    else CallFrame(img, WithOps(s, s.top.ops + [s.top.params[0]], s.cp), target, s.cp + 3, above[1..])
  }

  function CallVirtualFrame(img: Image, s: State, slot: nat, argc: nat, above: seq<int>): Result
  {
    var ops := s.top.ops;
    if argc == 0 || argc > |ops| then Stuck
    else
      match Dispatch(img, s.heap, s.cp, ops[|ops| - argc], slot, argc)
      case None => Undetermined
      case Some(target) => CallFrame(img, s, target, s.cp + 4, above)
  }

  function NativeFrame(s: State, cells: nat, argc: nat, e: Effect): Result
  {
    if argc > |s.top.ops| then Stuck
    else
      var result := if cells == 0 then [] else if cells == 1 then [e.lo] else [e.lo, e.hi];
      Goes(WithOps(s, Keep(s.top.ops, argc) + result, s.cp + 4).(heap := e.heap))
  }

  function GivenFrame(s: State, source: Source, length: nat, e: Effect): Result
  {
    var ops := s.top.ops;
    var k := Takes(source);
    if k > |ops| then Stuck
    else ReplaceFrame(s, k, length, GivenResult(source, Top(ops, k), s.heap, e.lo, e.hi))
  }

  /** A return is Stuck unless the frame holds exactly the result: the debug build's balance test. */
  function ReturnFrame(s: State, cells: nat): Result
  {
    var f := s.top;
    if |f.ops| != cells then Stuck
    else if f.returnCp == 0 then
      Ends(s.heap, if cells == 0 then None else Some(if cells == 1 then f.ops[0] else 0))
    else if s.callers == [] then Stuck
    else
      var n := |s.callers| - 1;
      var caller := s.callers[n];
      Goes(State(s.callers[..n], caller.(ops := caller.ops + f.ops), f.returnCp, s.heap))
  }

  function ExecuteFrame(img: Image, s: State, i: Instr, e: Effect): Result
  {
    match i
    case Simple(op, length) => SimpleFrame(s, op, length)
    case LoadVar(region, index, wide, length) => LoadVarFrame(s, region, index, wide, length)
    case StoreVar(region, index, wide, length) => StoreVarFrame(s, region, index, wide, length)
    case LoadParam0Inline(offset, length) =>
      if s.top.params == [] then Stuck
      else Goes(WithOps(s, s.top.ops + [s.top.params[0] + offset], s.cp + length))
    case Jump(offset) => Goes(s.(cp := s.cp + offset))
    case Branch(cond, offset, length) => BranchFrame(s, cond, offset, length)
    case Foreach(offset, length) => ForeachFrame(s, offset, length)
    case Switch(count) => SwitchFrame(img, s, count)
    case Call(target, loadParam0) =>
      if loadParam0 then CallParam0Frame(img, s, target, e.above)
      else CallFrame(img, s, target, s.cp + 3, e.above)
    case CallVirtual(slot, argc) => CallVirtualFrame(img, s, slot, argc, e.above)
    case CallNative(cells, _, _, argc) => NativeFrame(s, cells, argc, e)
    case Return(cells) => ReturnFrame(s, cells)
    case Given(source, length) => GivenFrame(s, source, length, e)
    case Unaccepted => Fails(s.heap, ERR_UNKNOWN_OPCODE)
  }

  function FrameTrap(img: Image, base: int, s: State, i: Instr): Option<int>
    requires Reads(i) <= |s.top.ops|
  {
    var ops := s.top.ops;
    var p := CheckedPointer(i);
    if p.Some? && p.value < Reads(i) && ops[|ops| - 1 - p.value] == 0 then Some(ERR_NULL_POINTER)
    else if StackTop(base, s) >= img.limit then Some(ERR_STACK_OVERFLOW)
    else if i.CallNative? && i.cells > 0 && (i.kit, i.id) !in img.natives then Some(ERR_MISSING_NATIVE)
    else None
  }

  function FrameStep(img: Image, base: int, s: State, e: Effect): Result
  {
    var i := Fetch(img, s.cp);
    if Reads(i) > |s.top.ops| then Stuck
    else
      match FrameTrap(img, base, s, i)
      case Some(error) => Fails(s.heap, error)
      case None => ExecuteFrame(img, s, i, e)
  }

  /** A run, one effect per instruction, as long as it neither ends nor fails. */
  function FrameRun(img: Image, base: int, s: State, es: seq<Effect>): Result
    decreases |es|
  {
    if es == [] then Goes(s)
    else
      match FrameStep(img, base, s, es[0])
      case Goes(s') => FrameRun(img, base, s', es[1..])
      case o => o
  }

  lemma {:induction false} FrameRunConcat(img: Image, base: int, s: State, es: seq<Effect>, fs: seq<Effect>)
    requires FrameRun(img, base, s, es).Goes?
    ensures FrameRun(img, base, s, es + fs) == FrameRun(img, base, FrameRun(img, base, s, es).s, fs)
    decreases |es|
  {
    hide FrameStep;
    if es == [] {
      assert es + fs == fs;
    } else {
      var s' := FrameStep(img, base, s, es[0]).s;
      FrameRunConcat(img, base, s', es[1..], fs);
      assert (es + fs)[0] == es[0] && (es + fs)[1..] == es[1..] + fs;
    }
  }

  lemma OneStep(img: Image, base: int, s: State, e: Effect)
    ensures FrameRun(img, base, s, [e]) == FrameStep(img, base, s, e)
  {
    hide FrameStep;
    var p := FrameStep(img, base, s, e);
    if p.Goes? {
      assert [e][1..] == [];
      assert FrameRun(img, base, p.s, []) == Goes(p.s);
    }
  }
}
