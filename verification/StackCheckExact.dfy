/** The static check asks for no more than it needs: an instruction that stays in its frame is accepted
    exactly if, from every frame of its method with the recorded depth, it finds its operands and
    variables and arrives at an instruction recorded with the depth it leaves. */
module StackCheckExact {
  import opened Words
  import opened Scode
  import opened FlatMachine
  import opened FrameMachine
  import opened StackCheck

  predicate InFrame(i: Instr) { Straight(i) || Jumping(i) }

  /** A frame of the method at `entry`, at `cp`, with so many operands. */
  predicate Stands(img: Image, s: State, cp: int, entry: int, depth: nat)
  {
    s.cp == cp && s.top.entry == entry && FrameOk(img, s.top) && |s.top.ops| == depth
  }

  /** The instruction has a meaning there and leads to a depth that is recorded. */
  predicate Proceeds(img: Image, d: Depths, s: State, e: Effect)
  {
    var i := Fetch(img, s.cp);
    && Reads(i) <= |s.top.ops| && !i.Unaccepted?
    && var o := ExecuteFrame(img, s, i, e);
       !o.Stuck? && (o.Goes? ==> At(d, o.s.cp, s.top.entry, |o.s.top.ops|))
  }

  ghost predicate AlwaysProceeds(img: Image, d: Depths, cp: int, entry: int, depth: nat)
  {
    forall s, e {:trigger Proceeds(img, d, s, e)} :: Stands(img, s, cp, entry, depth) ==> Proceeds(img, d, s, e)
  }

  lemma AcceptedProceeds(img: Image, d: Depths, cp: int, entry: int, depth: nat)
    requires InFrame(Fetch(img, cp)) && Checks(img, d, cp, entry, depth)
    ensures AlwaysProceeds(img, d, cp, entry, depth)
  {
    forall s, e | Stands(img, s, cp, entry, depth)
      ensures Proceeds(img, d, s, e)
    {
      AcceptedStep(img, d, s, e);
    }
  }

  lemma AcceptedStep(img: Image, d: Depths, s: State, e: Effect)
    requires InFrame(Fetch(img, s.cp)) && FrameOk(img, s.top)
    requires Checks(img, d, s.cp, s.top.entry, |s.top.ops|)
    ensures Proceeds(img, d, s, e)
  {
    hide Decode, Compute, Pops, Pushes, Overwrite, SwitchTarget, NumParams, NumLocals, Takes, Gives, GivenResult;
    var i := Fetch(img, s.cp);
    if i.Switch? && s.top.ops != [] { SwitchLands(img, s.cp, i.count, s.top.ops[|s.top.ops| - 1]); }
  }

  lemma SwitchLands(img: Image, cp: int, count: nat, v: int)
    ensures !(0 <= v < count) ==> SwitchTarget(img, cp, count, v) == cp + 3 + count * 2
  {
  }

  // --------------------------------------------------------- what is rejected

  function Filled(n: nat, v: int): (r: seq<int>)
    ensures |r| == n && forall k :: 0 <= k < n ==> r[k] == v
  {
    seq(n, _ => v)
  }

  /** A frame with these operands, and `size` octets of data memory. */
  function Placed(img: Image, cp: int, entry: int, ops: seq<int>, size: nat): State
  {
    State([], Frame(entry, 0, Filled(NumParams(img, entry), 0), Filled(NumLocals(img, entry), 0), ops), cp,
          Heap(seq(size, _ => 0), 0, 0))
  }

  const Any := Effect([], Heap([], 0, 0), 0, 0)

  lemma PlacedProceeds(img: Image, d: Depths, cp: int, entry: int, ops: seq<int>, size: nat)
    requires IsMethod(img, entry) && AlwaysProceeds(img, d, cp, entry, |ops|)
    ensures Proceeds(img, d, Placed(img, cp, entry, ops, size), Any)
  {
    hide Proceeds, NumParams, NumLocals;
    HeaderIsOctets(img, entry);
    assert Stands(img, Placed(img, cp, entry, ops, size), cp, entry, |ops|);
  }

  lemma HeaderIsOctets(img: Image, entry: int)
    ensures NumParams(img, entry) >= 0 && NumLocals(img, entry) >= 0
  {
  }

  /** The octets of data memory an operation on ones may reach. */
  function Reach(op: Op): nat
  {
    match op
    case LoadField(w, off) => if off < 0 then 0 else off + w + 1
    case StoreField(w, off) => if off < 0 then 0 else off + w + 1
    case LoadArray(w) => 2 * w + 1
    case StoreArray(w) => 2 * w + 1
    case InitHeader(off, _) => if off < 0 then 0 else off + 3
    case _ => 8
  }

  lemma DecodedOffsets(img: Image, cp: int)
    ensures var i := Fetch(img, cp);
            && (i.Simple? && i.op.LoadField? ==> i.op.offset >= 0)
            && (i.Simple? && i.op.StoreField? ==> i.op.offset >= 0)
            && (i.Simple? && i.op.InitHeader? ==> i.op.offset >= 0)
            && (i.Given? && i.source.ConstField? ==> i.source.offset >= 0)
            && (i.CallNative? ==> i.cells <= 2)
  {
  }

  /** On ones every operation is defined. */
  lemma DefinedOnOnes(op: Op, a: seq<int>, heap: Heap)
    requires |a| == Pops(op) && (forall k :: 0 <= k < |a| ==> a[k] == 1) && |heap.data| >= Reach(op)
    requires (op.LoadField? || op.StoreField? || op.InitHeader?) ==> op.offset >= 0
    ensures Compute(op, a, heap).Some?
  {
    if IsStorage(op) {
      StorageOnOnes(op, a, heap);
    } else if IsMath(op) {
      hide ComputeMath;
      MathOnOnes(op, a);
    }
  }

  lemma StorageOnOnes(op: Op, a: seq<int>, heap: Heap)
    requires IsStorage(op) && |a| == Pops(op) && (forall k :: 0 <= k < |a| ==> a[k] == 1) && |heap.data| >= Reach(op)
    requires (op.LoadField? || op.StoreField? || op.InitHeader?) ==> op.offset >= 0
    ensures ComputeStorage(op, a, heap).Some?
  {
    hide Bytes, LoadCells, StoreBytes, ArrayInited, Write;
  }

  lemma MathOnOnes(op: Op, a: seq<int>)
    requires IsMath(op) && |a| == Pops(op) && forall k :: 0 <= k < |a| ==> a[k] == 1
    ensures ComputeMath(op, a).Some?
  {
    hide Bitwise, ToInt32, ToInt64, TruncDiv, TruncMod, Power2;
    assert Join(1, 1) == 0x1_0000_0001 by { JoinOnes(); }
  }

  lemma JoinOnes()
    ensures Join(1, 1) == 0x1_0000_0001
  {
  }

  lemma SimpleNeeded(img: Image, d: Depths, cp: int, entry: int, depth: nat)
    requires IsMethod(img, entry) && AlwaysProceeds(img, d, cp, entry, depth) && Fetch(img, cp).Simple?
    ensures Checks(img, d, cp, entry, depth)
  {
    hide Decode, Compute, AlwaysProceeds, NumParams, NumLocals, At;
    var i := Fetch(img, cp);
    var s := Placed(img, cp, entry, Filled(depth, 1), Reach(i.op));
    PlacedProceeds(img, d, cp, entry, Filled(depth, 1), Reach(i.op));
    DecodedOffsets(img, cp);
    if Pops(i.op) <= depth { DefinedOnOnes(i.op, Top(s.top.ops, Pops(i.op)), s.heap); }
  }

  lemma GivenNeeded(img: Image, d: Depths, cp: int, entry: int, depth: nat)
    requires IsMethod(img, entry) && AlwaysProceeds(img, d, cp, entry, depth) && Fetch(img, cp).Given?
    ensures Checks(img, d, cp, entry, depth)
  {
    hide Decode, AlwaysProceeds, NumParams, NumLocals, At, Takes, Gives, Defined, GivenWords, IsMethod;
    var i := Fetch(img, cp);
    var size := if i.source.ConstField? && i.source.offset >= 0 then i.source.offset + 3 else 5;
    PlacedProceeds(img, d, cp, entry, Filled(depth, 1), size);
    DecodedOffsets(img, cp);
    var s := Placed(img, cp, entry, Filled(depth, 1), size);
    if Takes(i.source) <= depth { GivenOnOnes(i.source, Top(s.top.ops, Takes(i.source)), s.heap); }
  }

  lemma GivenOnOnes(source: Source, a: seq<int>, heap: Heap)
    requires |a| == Takes(source) && forall k :: 0 <= k < |a| ==> a[k] == 1
    requires |heap.data| >= if source.ConstField? then source.offset + 3 else 5
    requires source.ConstField? ==> source.offset >= 0
    ensures Defined(source, a, heap)
  {
  }

  lemma VariableNeeded(img: Image, d: Depths, cp: int, entry: int, depth: nat)
    requires IsMethod(img, entry) && AlwaysProceeds(img, d, cp, entry, depth)
    requires var i := Fetch(img, cp);
             i.LoadVar? || i.StoreVar? || i.LoadParam0Inline? || i.CallNative? || i.Jump? || i.Unaccepted?
    ensures Checks(img, d, cp, entry, depth)
  {
    hide Decode, AlwaysProceeds, NumParams, NumLocals, At, Overwrite;
    HeaderIsOctets(img, entry);
    DecodedOffsets(img, cp);
    PlacedProceeds(img, d, cp, entry, Filled(depth, 1), 0);
  }

  /** Operands for which a condition holds, and for which it does not, over `depth` cells. */
  function Under(depth: nat, below: int, top: int): (ops: seq<int>)
    ensures |ops| == depth
  {
    if depth == 0 then [] else if depth == 1 then [top] else Filled(depth - 2, 0) + [below, top]
  }

  lemma BranchNeeded(img: Image, d: Depths, cp: int, entry: int, depth: nat)
    requires IsMethod(img, entry) && AlwaysProceeds(img, d, cp, entry, depth) && Fetch(img, cp).Branch?
    ensures Checks(img, d, cp, entry, depth)
  {
    hide Decode, AlwaysProceeds, NumParams, NumLocals, At, IsMethod;
    PlacedProceeds(img, d, cp, entry, Under(depth, 0, 0), 0);
    PlacedProceeds(img, d, cp, entry, Under(depth, 0, 1), 0);
    PlacedProceeds(img, d, cp, entry, Under(depth, 1, 0), 0);
  }

  /** Operands of a Foreach: array, length, counter. */
  function Loop(depth: nat, length: int): (ops: seq<int>)
    ensures |ops| == depth
  {
    if depth < 3 then Filled(depth, 0) else Filled(depth - 3, 0) + [0, length, 0]
  }

  lemma ForeachNeeded(img: Image, d: Depths, cp: int, entry: int, depth: nat)
    requires IsMethod(img, entry) && AlwaysProceeds(img, d, cp, entry, depth) && Fetch(img, cp).Foreach?
    ensures Checks(img, d, cp, entry, depth)
  {
    hide Decode, AlwaysProceeds, NumParams, NumLocals, At, IsMethod;
    PlacedProceeds(img, d, cp, entry, Loop(depth, 1), 0);
    PlacedProceeds(img, d, cp, entry, Loop(depth, 2), 0);
  }

  lemma SwitchNeeded(img: Image, d: Depths, cp: int, entry: int, depth: nat)
    requires IsMethod(img, entry) && AlwaysProceeds(img, d, cp, entry, depth) && Fetch(img, cp).Switch?
    ensures Checks(img, d, cp, entry, depth)
  {
    hide Decode, AlwaysProceeds, NumParams, NumLocals, At, IsMethod, SwitchTarget;
    var count := Fetch(img, cp).count;
    PlacedProceeds(img, d, cp, entry, Under(depth, 0, -1), 0);
    SwitchLands(img, cp, count, -1);
    forall v | 0 <= v < count
      ensures depth > 0 ==> At(d, SwitchTarget(img, cp, count, v), entry, depth - 1)
    {
      PlacedProceeds(img, d, cp, entry, Under(depth, 0, v), 0);
    }
  }

  /** Both directions. */
  lemma CheckIsExact(img: Image, d: Depths, cp: int, entry: int, depth: nat)
    requires IsMethod(img, entry) && InFrame(Fetch(img, cp))
    ensures Checks(img, d, cp, entry, depth) <==> AlwaysProceeds(img, d, cp, entry, depth)
  {
    hide Decode, Checks, AlwaysProceeds, IsMethod;
    if Checks(img, d, cp, entry, depth) {
      AcceptedProceeds(img, d, cp, entry, depth);
    } else if AlwaysProceeds(img, d, cp, entry, depth) {
      match Fetch(img, cp)
      case Simple(_, _) => SimpleNeeded(img, d, cp, entry, depth);
      case Given(_, _) => GivenNeeded(img, d, cp, entry, depth);
      case Branch(_, _, _) => BranchNeeded(img, d, cp, entry, depth);
      case Foreach(_, _) => ForeachNeeded(img, d, cp, entry, depth);
      case Switch(_) => SwitchNeeded(img, d, cp, entry, depth);
      case _ => VariableNeeded(img, d, cp, entry, depth);
    }
  }
}
