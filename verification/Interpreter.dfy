/** vmCall's dispatch loop, writing the stack and the data memory in place. Each method is proved
    to do exactly what FlatMachine's function of the same instruction says. */
module Interpreter {
  import opened Words
  import opened Scode
  import opened FlatMachine

  /** How one instruction, or one activation, leaves the loop. */
  datatype Turn =
    | Next(r: Regs)
    | Result(value: int)
    | Error(code: int)
    | Unfinished      // a callback of a native is still running
    | NoMeaning       // undefined behaviour
    | Wild

  function OutcomeOf(t: Turn, m: Memory): Outcome
  {
    match t
    case Next(r) => Running(m, r)
    case Result(v) => Returned(m, v)
    case Error(c) => Failed(m, c)
    case Unfinished => Suspended(m)
    case NoMeaning => Undefined
    case Wild => WildAccess
  }

  /** The address space natives work in has a fixed size. */
  predicate EventFits(e: Event, size: nat)
    decreases e, 0
  {
    |e.heap.data| == size && forall i :: 0 <= i < |e.calls| ==> NestedFits(e.calls[i], size)
  }

  predicate NestedFits(c: Nested, size: nat)
    decreases c, 0
  {
    forall i :: 0 <= i < |c.events| ==> EventFits(c.events[i], size)
  }

  lemma Stored1(s: seq<int>, at: int, v: int)
    requires 0 <= at < |s|
    ensures s[at := v] == Overwrite(s, at, [v])
  {
  }

  lemma Stored2(s: seq<int>, at: int, v: int, w: int)
    requires 0 <= at && at + 1 < |s|
    ensures s[at := v][at + 1 := w] == Overwrite(s, at, [v, w])
  {
  }

  lemma Stored3(s: seq<int>, at: int, v: int, w: int, x: int)
    requires 0 <= at && at + 2 < |s|
    ensures s[at := v][at + 1 := w][at + 2 := x] == Overwrite(s, at, [v, w, x])
  {
  }

  lemma Stored0(s: seq<int>, at: int)
    requires 0 <= at <= |s|
    ensures s == Overwrite(s, at, [])
  {
  }

  /** SimpleStep in one equation, when the cells it reads and writes are there. */
  lemma SimpleStepIs(m: Memory, r: Regs, op: Op, length: nat)
    requires Within(m.stack, r.sp + 1 - Pops(op), Pops(op)) && r.sp + 1 - Pops(op) + Pushes(op) <= |m.stack|
    ensures var at := r.sp + 1 - Pops(op);
            SimpleStep(m, r, op, length) ==
            match Compute(op, m.stack[at..r.sp + 1], m.heap)
            case None => Undefined
            case Some((cells, heap)) =>
              Running(m.(heap := heap, stack := Overwrite(m.stack, at, cells)),
                      r.(sp := at - 1 + Pushes(op), cp := r.cp + length))
  {
    hide Compute, Pops, Pushes, Overwrite;
  }

  lemma TrapNoneBelowLimit(img: Image, m: Memory, r: Regs, i: Instr)
    requires Within(m.stack, r.sp + 1 - Reads(i), Reads(i)) && Trap(img, m, r, i).None?
    ensures r.sp < img.limit
  {
    hide Reads;
  }

  lemma ExecuteNative(img: Image, m: Memory, r: Regs, i: Instr)
    requires i.CallNative?
    ensures forall n :: Execute(img, m, r, i, n) == NativeStep(r, i.cells, i.argc, n)
  {
    hide NativeStep;
  }

  lemma OtherOps(op: Op)
    requires !IsStorage(op) && !IsMath(op) && !IsShuffle(op)
    ensures op.Push? || op.Drop? || op.Assert?
  {
  }

  lemma ComputeOther(op: Op, a: seq<int>, heap: Heap)
    requires |a| == Pops(op) && (op.Push? || op.Drop? || op.Assert?)
    ensures op.Push? ==> Compute(op, a, heap) == Some((op.cells, heap))
    ensures op.Drop? ==> Compute(op, a, heap) == Some(([], heap))
    ensures op.Assert? ==> Compute(op, a, heap) == Some(([], if a[0] == 0 then heap.(failures := heap.failures + 1)
                                                             else heap.(passes := heap.passes + 1)))
  {
  }

  class SedonaVM {
    const img: Image
    const stack: array<int>
    const data: array<byte>
    var passes: nat
    var failures: nat
    var sp: int
    var warnings: nat

    constructor (img: Image, stackCells: nat, dataSize: nat)
      ensures this.img == img && fresh(stack) && fresh(data)
      ensures stack.Length == stackCells && data.Length == dataSize
      ensures sp == 0 && warnings == 0 && passes == 0 && failures == 0
      ensures forall i :: 0 <= i < dataSize ==> data[i] == 0
    {
      this.img := img;
      stack := new int[stackCells];
      data := new byte[dataSize](_ => 0);
      passes, failures, sp, warnings := 0, 0, 0, 0;
    }

    /** The state FlatMachine works on. */
    ghost function View(): Memory
      reads this, stack, data
    {
      Memory(stack[..], Heap(data[..], passes, failures), sp, warnings)
    }

    ghost function HeapView(): Heap
      reads this, data
    {
      Heap(data[..], passes, failures)
    }

    /** Stack manipulation, cell by cell. */
    method Shuffle(top: int, op: Op)
      requires IsShuffle(op) && Pops(op) <= top + 1 && top + 2 < stack.Length
      modifies stack
      ensures stack[..] == Overwrite(old(stack[..]), top + 1 - Pops(op),
                                     Shuffled(op, old(stack[top + 1 - Pops(op)..top + 1])))
    {
      hide Overwrite, Shuffled;
      if op.Dup? || op.Dup2? {
        CopyUp(top, op);
      } else if op.DupDown2? || op.DupDown3? {
        CopyDown(top, op);
      } else if op.Dup2Down2? {
        CopyPairBelowOne(top, op);
      } else {
        CopyPairBelowTwo(top, op);
      }
    }

    method CopyUp(top: int, op: Op)
      requires (op.Dup? || op.Dup2?) && Pops(op) <= top + 1 && top + 2 < stack.Length
      modifies stack
      ensures stack[..] == Overwrite(old(stack[..]), top + 1 - Pops(op),
                                     Shuffled(op, old(stack[top + 1 - Pops(op)..top + 1])))
    {
      hide Overwrite;
      ghost var s := stack[..];
      ghost var at := top + 1 - Pops(op);
      ghost var cells := Shuffled(op, stack[at..top + 1]);
      if op.Dup? {
        stack[top + 1] := stack[top];
      } else {
        stack[top + 2] := stack[top];
        stack[top + 1] := stack[top - 1];
      }
      IsOverwrite(s, stack[..], at, cells);
    }

    method CopyDown(top: int, op: Op)
      requires (op.DupDown2? || op.DupDown3?) && Pops(op) <= top + 1 && top + 2 < stack.Length
      modifies stack
      ensures stack[..] == Overwrite(old(stack[..]), top + 1 - Pops(op),
                                     Shuffled(op, old(stack[top + 1 - Pops(op)..top + 1])))
    {
      hide Overwrite;
      ghost var s := stack[..];
      ghost var at := top + 1 - Pops(op);
      ghost var cells := Shuffled(op, stack[at..top + 1]);
      stack[top + 1] := stack[top];
      stack[top] := stack[top - 1];
      if op.DupDown2? {
        stack[top - 1] := stack[top + 1];
      } else {
        stack[top - 1] := stack[top - 2];
        stack[top - 2] := stack[top + 1];
      }
      IsOverwrite(s, stack[..], at, cells);
    }

    method CopyPairBelowOne(top: int, op: Op)
      requires op.Dup2Down2? && Pops(op) <= top + 1 && top + 2 < stack.Length
      modifies stack
      ensures stack[..] == Overwrite(old(stack[..]), top + 1 - Pops(op),
                                     Shuffled(op, old(stack[top + 1 - Pops(op)..top + 1])))
    {
      hide Overwrite;
      ghost var s := stack[..];
      ghost var at := top + 1 - Pops(op);
      ghost var cells := Shuffled(op, stack[at..top + 1]);
      stack[top + 2] := stack[top];
      stack[top + 1] := stack[top - 1];
      stack[top] := stack[top - 2];
      stack[top - 1] := stack[top + 2];
      stack[top - 2] := stack[top + 1];
      IsOverwrite(s, stack[..], at, cells);
    }

    method CopyPairBelowTwo(top: int, op: Op)
      requires op.Dup2Down3? && Pops(op) <= top + 1 && top + 2 < stack.Length
      modifies stack
      ensures stack[..] == Overwrite(old(stack[..]), top + 1 - Pops(op),
                                     Shuffled(op, old(stack[top + 1 - Pops(op)..top + 1])))
    {
      hide Overwrite;
      ghost var s := stack[..];
      ghost var at := top + 1 - Pops(op);
      ghost var cells := Shuffled(op, stack[at..top + 1]);
      stack[top + 2] := stack[top];
      stack[top + 1] := stack[top - 1];
      stack[top] := stack[top - 2];
      stack[top - 1] := stack[top - 3];
      stack[top - 2] := stack[top + 2];
      stack[top - 3] := stack[top + 1];
      IsOverwrite(s, stack[..], at, cells);
    }

    /** Arithmetic leaves its result in the lowest cells it read. */
    method Arithmetic(top: int, op: Op) returns (ok: bool)
      requires IsMath(op) && Pops(op) <= top + 1 && top + 1 < stack.Length
      modifies stack
      ensures var c := ComputeMath(op, old(stack[top + 1 - Pops(op)..top + 1]));
              && ok == c.Some?
              && (ok ==> stack[..] == Overwrite(old(stack[..]), top + 1 - Pops(op), c.value))
    {
      ok := true;
      ghost var a := stack[top + 1 - Pops(op)..top + 1];
      ghost var s := stack[..];
      var at := top + 1 - Pops(op);
      match op
      case Cmp(c) =>
        stack[at] := Flag(Holds(c, stack[at], stack[at + 1]));
        Stored1(s, at, stack[at]);
      case IntMath(m) =>
        var v := IntResult(m, stack[at], stack[at + 1]);
        if v.None? { ok := false; return; }
        stack[at] := v.value;
        Stored1(s, at, v.value);
      case IntUnary(u) =>
        stack[at] := UnaryResult(u, stack[at]);
        Stored1(s, at, stack[at]);
      case LongCmp(c) =>
        stack[at] := Flag(Holds(c, Join(stack[at], stack[at + 1]), Join(stack[at + 2], stack[at + 3])));
        Stored1(s, at, stack[at]);
      case LongMath(m) =>
        var right := if IsLongShift(op) then stack[at + 2] else Join(stack[at + 2], stack[at + 3]);
        var v := LongResult(m, Join(stack[at], stack[at + 1]), right);
        if v.None? { ok := false; return; }
        stack[at], stack[at + 1] := Low(v.value), High(v.value);
        Stored2(s, at, Low(v.value), High(v.value));
      case LongUnary(u) =>
        var x := Join(stack[at], stack[at + 1]);
        var v := ToInt64(if u.Not? then -1 - x else -x);
        stack[at], stack[at + 1] := Low(v), High(v);
        Stored2(s, at, Low(v), High(v));
      case LongToInt =>
        stack[at] := Low(Join(stack[at], stack[at + 1]));
        Stored1(s, at, stack[at]);
      case IntToLong =>
        var x := stack[at];
        stack[at], stack[at + 1] := Low(x), High(x);
        Stored2(s, at, Low(x), High(x));
    }

    /** Octets into the data memory. */
    method StoreOctets(at: int, bs: seq<byte>)
      requires Readable(data[..], at, |bs|)
      modifies data
      ensures data[..] == Write(old(data[..]), at, bs)
    {
      forall i | 0 <= i < |bs| { data[at + i] := bs[i]; }
      assert data[..] == Write(old(data[..]), at, bs);
    }

    /** initArray: refs[i] = objs + size * i, the objects lying right after the table of
        references (vm.c:180-188). */
    method InitArray(base: int, length: int, size: int)
      requires length > 0 ==> Readable(data[..], base, 4 * length)
      modifies data
      ensures data[..] == if length <= 0 then old(data[..])
                          else ArrayInited(old(data[..]), base, length, size, length)
    {
      hide Bytes, Write, FromBytes;
      var objs := base + 4 * length;
      var i := 0;
      while i < length
        invariant 0 <= i && (length > 0 ==> i <= length)
        invariant length <= 0 ==> data[..] == old(data[..])
        invariant length > 0 ==> data[..] == ArrayInited(old(data[..]), base, length, size, i)
      {
        StoreOctets(base + 4 * i, Bytes((objs + size * i) % SPAN32, 4));
        i := i + 1;
      }
    }

    /** Consecutive cells, written upwards. */
    method Put(at: int, cells: seq<int>)
      requires Within(stack[..], at, |cells|)
      modifies stack
      ensures stack[..] == Overwrite(old(stack[..]), at, cells)
    {
      hide Overwrite;
      ghost var s := stack[..];
      forall i | 0 <= i < |cells| { stack[at + i] := cells[i]; }
      IsOverwrite(s, stack[..], at, cells);
    }

    /** Loads, stores and address computations leave their result in the lowest cells they read. */
    method Storage(top: int, op: Op) returns (ok: bool)
      requires IsStorage(op) && Pops(op) <= top + 1 && top + 2 < stack.Length
      modifies stack, data
      ensures var c := ComputeStorage(op, old(stack[top + 1 - Pops(op)..top + 1]), old(HeapView()));
              && ok == c.Some?
              && (ok ==> stack[..] == Overwrite(old(stack[..]), top + 1 - Pops(op), c.value.0)
                         && HeapView() == c.value.1)
    {
      hide ComputeStorage, Overwrite, Pops, Pushes;
      if op.StoreField? || op.StoreArray? || op.InitHeader? {
        ok := Stores(top, op);
      } else if op.InitArray? {
        ok := InitObjects(top, op);
      } else {
        ok := Loads(top, op);
      }
    }

    /** InitArray takes base, length and size off the stack. */
    method InitObjects(top: int, op: Op) returns (ok: bool)
      requires op.InitArray? && Pops(op) <= top + 1 && top + 2 < stack.Length
      modifies data
      ensures var c := ComputeStorage(op, old(stack[top + 1 - Pops(op)..top + 1]), old(HeapView()));
              && ok == c.Some?
              && (ok ==> stack[..] == Overwrite(old(stack[..]), top + 1 - Pops(op), c.value.0)
                         && HeapView() == c.value.1)
    {
      hide Overwrite, ArrayInited, Write, StoreBytes, LoadCells;
      Stored0(stack[..], top - 2);
      var base, length, size := stack[top - 2], stack[top - 1], stack[top];
      ok := length <= 0 || Readable(data[..], base, 4 * length);
      if ok {
        InitArray(base, length, size);
      }
    }

    method Loads(top: int, op: Op) returns (ok: bool)
      requires op.LoadField? || op.LoadArray? || op.AddArray? || op.InlineField?
      requires Pops(op) <= top + 1 && top + 2 < stack.Length
      modifies stack
      ensures var c := ComputeStorage(op, old(stack[top + 1 - Pops(op)..top + 1]), old(HeapView()));
              && ok == c.Some?
              && (ok ==> stack[..] == Overwrite(old(stack[..]), top + 1 - Pops(op), c.value.0)
                         && HeapView() == c.value.1)
    {
      hide Overwrite, LoadCells;
      var at := top + 1 - Pops(op);
      match op
      case LoadField(w, off) => ok := Load(at, stack[at] + off, w);
      case LoadArray(w) => ok := Load(at, stack[at] + stack[at + 1] * w, w);
      case AddArray(w) =>
        Put(at, [stack[at] + stack[at + 1] * w]);
        ok := true;
      case InlineField(off) =>
        Put(at, [stack[at] + off]);
        ok := true;
    }

    method Stores(top: int, op: Op) returns (ok: bool)
      requires op.StoreField? || op.StoreArray? || op.InitHeader?
      requires Pops(op) <= top + 1 && top + 2 < stack.Length
      modifies stack, data
      ensures var c := ComputeStorage(op, old(stack[top + 1 - Pops(op)..top + 1]), old(HeapView()));
              && ok == c.Some?
              && (ok ==> stack[..] == Overwrite(old(stack[..]), top + 1 - Pops(op), c.value.0)
                         && HeapView() == c.value.1)
    {
      hide Overwrite, Write, StoreBytes, Bytes;
      var at := top + 1 - Pops(op);
      ghost var a := stack[at..top + 1];
      Stored0(stack[..], at);
      match op
      case StoreField(w, off) =>
        assert a[1..] == stack[at + 1..top + 1];
        ok := Store(stack[at] + off, StoreBytes(stack[at + 1..top + 1], w));
      case StoreArray(w) =>
        assert a[2..] == stack[at + 2..top + 1];
        ok := Store(stack[at] + stack[at + 1] * w, StoreBytes(stack[at + 2..top + 1], w));
      case InitHeader(off, block) => ok := Store(stack[at] + off, Bytes(block, 2));
    }

    method Load(at: int, from: int, width: nat) returns (ok: bool)
      requires Within(stack[..], at, 2)
      modifies stack
      ensures ok == Readable(data[..], from, width)
      ensures ok ==> stack[..] == Overwrite(old(stack[..]), at, LoadCells(data[..], from, width))
    {
      hide LoadCells, Overwrite;
      ok := Readable(data[..], from, width);
      if ok {
        Put(at, LoadCells(data[..], from, width));
      }
    }

    method Store(at: int, bs: seq<byte>) returns (ok: bool)
      modifies data
      ensures ok == Readable(old(data[..]), at, |bs|)
      ensures data[..] == if ok then Write(old(data[..]), at, bs) else old(data[..])
    {
      hide Write;
      ok := Readable(data[..], at, |bs|);
      if ok {
        StoreOctets(at, bs);
      }
    }

    /** The registers of an activation that is about to execute below the stack limit. */
    ghost predicate Room(r: Regs, depth: nat)
      reads this, stack
    {
      Within(stack[..], r.sp + 1 - depth, depth) && r.sp + 8 < stack.Length
    }

    method Simple(r: Regs, op: Op, length: nat) returns (t: Turn)
      requires Room(r, Pops(op)) && r.sp + 1 - Pops(op) + Pushes(op) <= stack.Length
      requires Pushes(op) <= Pops(op) + 2
      modifies this, stack, data
      ensures sp == old(sp) && warnings == old(warnings)
      ensures OutcomeOf(t, View()) == SimpleStep(old(View()), r, op, length)
    {
      hide Overwrite, ComputeMath, ComputeStorage, Shuffled, Pops, Pushes, SimpleStep, IsMath, IsStorage, IsShuffle;
      var at := r.sp + 1 - Pops(op);
      SimpleStepIs(View(), r, op, length);
      t := Next(r.(sp := at - 1 + Pushes(op), cp := r.cp + length));
      Stored0(stack[..], at);
      if IsStorage(op) {
        var ok := Storage(r.sp, op);
        if !ok { t := NoMeaning; }
      } else if IsMath(op) {
        var ok := Arithmetic(r.sp, op);
        if !ok { t := NoMeaning; }
      } else if IsShuffle(op) {
        Shuffle(r.sp, op);
      } else {
        OtherOps(op);
        t := Other(r, op, length);
      }
    }

    /** Literals, pops and Assert. */
    method Other(r: Regs, op: Op, length: nat) returns (t: Turn)
      requires op.Push? || op.Drop? || op.Assert?
      requires Room(r, Pops(op)) && r.sp + 1 - Pops(op) + Pushes(op) <= stack.Length
      modifies this, stack
      ensures sp == old(sp) && warnings == old(warnings)
      ensures OutcomeOf(t, View()) == SimpleStep(old(View()), r, op, length)
    {
      hide Overwrite, SimpleStep, Compute;
      SimpleStepIs(View(), r, op, length);
      var at := r.sp + 1 - Pops(op);
      ComputeOther(op, stack[at..r.sp + 1], HeapView());
      t := Next(r.(sp := at - 1 + Pushes(op), cp := r.cp + length));
      if op.Push? {
        Put(at, op.cells);
      } else {
        Stored0(stack[..], at);
        if op.Assert? {
          if stack[r.sp] == 0 { failures := failures + 1; } else { passes := passes + 1; }
        }
      }
    }

    method PushAll(r: Regs, cells: seq<int>) returns (t: Turn)
      modifies stack
      ensures OutcomeOf(t, View()) == PushCells(old(View()), r, cells)
    {
      hide Overwrite;
      if !Within(stack[..], r.sp + 1, |cells|) { return Wild; }
      Put(r.sp + 1, cells);
      t := Next(r.(sp := r.sp + |cells|));
    }

    method LoadVariable(r: Regs, region: Region, index: nat, wide: bool, length: nat) returns (t: Turn)
      modifies stack
      ensures OutcomeOf(t, View()) == LoadVarStep(old(View()), r, region, index, wide, length)
    {
      hide Overwrite;
      var at := Slot(r, region, index);
      var n := if wide then 2 else 1;
      if !Within(stack[..], at, n) { return Wild; }
      t := PushAll(Advance(r, length), stack[at..at + n]);
    }

    method StoreVariable(r: Regs, region: Region, index: nat, wide: bool, length: nat) returns (t: Turn)
      modifies stack
      ensures OutcomeOf(t, View()) == StoreVarStep(old(View()), r, region, index, wide, length)
    {
      hide Overwrite;
      var at := Slot(r, region, index);
      var n := if wide then 2 else 1;
      if !Within(stack[..], at, n) || !Within(stack[..], r.sp + 1 - n, n) { return Wild; }
      Put(at, stack[r.sp + 1 - n..r.sp + 1]);
      t := Next(Advance(r.(sp := r.sp - n), length));
    }

    method ForeachTurn(r: Regs, offset: int, length: nat) returns (t: Turn)
      modifies stack
      ensures OutcomeOf(t, View()) == ForeachStep(old(View()), r, offset, length)
    {
      hide Overwrite;
      if !Within(stack[..], r.sp - 2, 3) { return Wild; }
      Stored1(stack[..], r.sp, ToInt32(stack[r.sp] + 1));
      ghost var m := View();
      var array_, count, counter := stack[r.sp - 2], stack[r.sp - 1], ToInt32(stack[r.sp] + 1);
      stack[r.sp] := counter;
      assert View() == m.(stack := Overwrite(m.stack, r.sp, [counter]));
      if counter >= count {
        t := Next(Advance(r, offset));
      } else {
        t := PushAll(Advance(r, length), [array_, counter]);
      }
    }

    method CallMethod(r: Regs, target: int, returnCp: int) returns (t: Turn)
      modifies stack
      ensures OutcomeOf(t, View()) == CallStep(img, old(View()), r, target, returnCp)
    {
      hide Overwrite;
      if !Within(stack[..], r.sp + 1, 3) { return Wild; }
      Stored3(stack[..], r.sp + 1, returnCp, r.fp, target);
      stack[r.sp + 1] := returnCp;
      stack[r.sp + 2] := r.fp;
      stack[r.sp + 3] := target;
      var fp := r.sp + 1;
      var numParams, numLocals := NumParams(img, target), NumLocals(img, target);
      t := Next(Regs(fp + 2 + numLocals, target + 2, fp, fp - numParams, fp + 3, numParams, numLocals));
    }

    method CallTurn(r: Regs, target: int, loadParam0: bool) returns (t: Turn)
      modifies stack
      ensures OutcomeOf(t, View()) == (if loadParam0 then CallParam0Step(img, old(View()), r, target)
                                       else CallStep(img, old(View()), r, target, r.cp + 3))
    {
      hide Overwrite, CallStep;
      if loadParam0 {
        if !Within(stack[..], r.pp, 1) { return Wild; }
        t := PushAll(r, [stack[r.pp]]);
        if t.Next? { t := CallMethod(t.r, target, r.cp + 3); }
      } else {
        t := CallMethod(r, target, r.cp + 3);
      }
    }

    method CallVirtualTurn(r: Regs, slot: nat, argc: nat) returns (t: Turn)
      modifies stack
      ensures OutcomeOf(t, View()) == CallVirtualStep(img, old(View()), r, slot, argc)
    {
      hide Overwrite, CallStep, Dispatch;
      if !Within(stack[..], r.sp + 1 - argc, 1) { return Wild; }
      var target := Dispatch(img, Heap(data[..], passes, failures), r.cp, stack[r.sp + 1 - argc], slot, argc);
      if target.None? { return NoMeaning; }
      t := CallMethod(r, target.value, r.cp + 4);
    }

    method ReturnTurn(r: Regs, cells: nat) returns (t: Turn)
      modifies this, stack
      ensures sp == old(sp)
      ensures OutcomeOf(t, View()) == ReturnStep(img, old(View()), r, cells)
    {
      hide Overwrite;
      if !Within(stack[..], r.sp + 1 - cells, cells) || !Within(stack[..], r.fp, 2) { return Wild; }
      var result := stack[r.sp + 1 - cells..r.sp + 1];
      if r.sp - cells - r.numLocals + 1 != r.lp { warnings := warnings + 1; }
      var top := r.fp - r.numParams - 1;
      var cp := stack[r.fp];
      if cp == 0 {
        if cells != 0 { return Result(if cells == 1 then result[0] else 0); }
        if !Within(stack[..], top, 1) { return Wild; }
        return Result(stack[top]);
      }
      var fp := stack[r.fp + 1];
      if !Within(stack[..], fp, 3) { return Wild; }
      var entry := stack[fp + 2];
      var numParams := NumParams(img, entry);
      t := PushAll(Regs(top, cp, fp, fp - numParams, fp + 3, numParams, NumLocals(img, entry)), result);
    }

    /** A word from outside over the cells it was computed from. */
    method GivenTurn(r: Regs, source: Source, length: nat, lo: int, hi: int) returns (t: Turn)
      requires Room(r, Takes(source))
      modifies stack
      ensures OutcomeOf(t, View()) == GivenStep(old(View()), r, source, length, lo, hi)
    {
      hide Overwrite, Takes, Gives, Defined;
      var k := Takes(source);
      if !Defined(source, stack[r.sp + 1 - k..r.sp + 1], Heap(data[..], passes, failures)) { return NoMeaning; }
      t := PushAll(Advance(r.(sp := r.sp - k), length), GivenWords(source, lo, hi));
    }

    /** One instruction that calls no native; `lo` and `hi` are the word it may be given. */
    method ExecuteTurn(r: Regs, i: Instr, lo: int, hi: int) returns (t: Turn)
      requires i == Fetch(img, r.cp) && !i.CallNative? && Room(r, Reads(i))
      modifies this, stack, data
      ensures sp == old(sp)
      ensures OutcomeOf(t, View()) == Execute(img, old(View()), r, i, NativeResult(old(View()), lo, hi))
    {
      DecodedBounds(img.code, r.cp, img.dataBase);
      hide Decode, Overwrite, SimpleStep, LoadVarStep, StoreVarStep, ForeachStep, CallParam0Step, CallStep,
           CallVirtualStep, ReturnStep, SwitchTarget, Pushes, Pops, GivenStep, Takes;
      match i
      case Simple(op, length) => t := Simple(r, op, length);
      case LoadVar(region, index, wide, length) => t := LoadVariable(r, region, index, wide, length);
      case StoreVar(region, index, wide, length) => t := StoreVariable(r, region, index, wide, length);
      case LoadParam0Inline(offset, length) =>
        if !Within(stack[..], r.pp, 1) { return Wild; }
        t := PushAll(Advance(r, length), [stack[r.pp] + offset]);
      case Jump(offset) => t := Next(Advance(r, offset));
      case Branch(cond, offset, length) =>
        var n := if cond.IntIs? then 2 else 1;
        var taken := Taken(cond, stack[r.sp + 1 - n], stack[r.sp]);
        t := Next(Advance(r.(sp := r.sp - n), if taken then offset else length));
      case Foreach(offset, length) => t := ForeachTurn(r, offset, length);
      case Switch(count) => t := Next(r.(sp := r.sp - 1, cp := SwitchTarget(img, r.cp, count, stack[r.sp])));
      case Call(target, loadParam0) => t := CallTurn(r, target, loadParam0);
      case CallVirtual(slot, argc) => t := CallVirtualTurn(r, slot, argc);
      case Return(cells) => t := ReturnTurn(r, cells);
      case Unaccepted => t := Error(ERR_UNKNOWN_OPCODE);
      case Given(source, length) => t := GivenTurn(r, source, length, lo, hi);
    }

    /** The debug build's tests before an instruction. */
    method CheckTraps(r: Regs, i: Instr) returns (e: Option<int>)
      requires Within(stack[..], r.sp + 1 - Reads(i), Reads(i))
      ensures e == Trap(img, View(), r, i)
    {
      hide Reads;
      var p := CheckedPointer(i);
      if p.Some? && p.value < Reads(i) && stack[r.sp - p.value] == 0 { return Some(ERR_NULL_POINTER); }
      if r.sp >= img.limit { return Some(ERR_STACK_OVERFLOW); }
      if i.CallNative? && i.cells > 0 && (i.kit, i.id) !in img.natives { return Some(ERR_MISSING_NATIVE); }
      e := None;
    }

    method SetHeap(heap: Heap)
      requires |heap.data| == data.Length
      modifies this`passes, this`failures, data
      ensures HeapView() == heap
    {
      forall i | 0 <= i < data.Length { data[i] := heap.data[i]; }
      passes, failures := heap.passes, heap.failures;
      assert data[..] == heap.data;
    }

    /** CallNative, CallNativeWide and CallNativeVoid: vm->sp is saved for the native's own calls. */
    method NativeTurn(r: Regs, i: Instr, ev: Event) returns (t: Turn)
      requires i == Fetch(img, r.cp) && i.CallNative?
      requires stack.Length >= img.limit + 16 && EventFits(ev, data.Length)
      modifies this, stack, data
      ensures OutcomeOf(t, View()) ==
              match RunCalls(img, old(View()).(sp := r.sp), ev.calls)
              case Returned(m', _) => NativeStep(r, i.cells, i.argc, NativeResult(m'.(heap := ev.heap), ev.lo, ev.hi))
              case o => o
      decreases ev, 0
    {
      hide Decode, RunCalls, Overwrite;
      sp := r.sp;
      t := CallBacks(ev.calls);
      if t.Result? {
        SetHeap(ev.heap);
        t := PushAll(Advance(r.(sp := r.sp - i.argc), 4),
                     if i.cells == 0 then [] else if i.cells == 1 then [ev.lo] else [ev.lo, ev.hi]);
      }
    }

    /** The calls a native makes back into the VM, one after the other. */
    method CallBacks(calls: seq<Nested>) returns (t: Turn)
      requires stack.Length >= img.limit + 16 && forall j :: 0 <= j < |calls| ==> NestedFits(calls[j], data.Length)
      modifies this, stack, data
      ensures OutcomeOf(t, View()) == RunCalls(img, old(View()), calls)
      decreases calls, 0
    {
      hide RunNested;
      t := Result(0);
      if calls != [] {
        t := VmCall(calls[0]);
        if t.Result? || t.Error? {
          t := CallBacks(calls[1..]);
        } else if t.Next? {
          t := Unfinished;
        }
      }
    }

    /** One turn of the dispatch loop. */
    method Step(r: Regs, ev: Event) returns (t: Turn)
      requires stack.Length >= img.limit + 16 && EventFits(ev, data.Length)
      modifies this, stack, data
      ensures OutcomeOf(t, View()) == EventStep(img, old(View()), r, ev)
      decreases ev, 1
    {
      hide Decode, Execute, NativeStep, RunCalls, Trap, Reads;
      var i := Fetch(img, r.cp);
      if !Within(stack[..], r.sp + 1 - Reads(i), Reads(i)) { return Wild; }
      var trap := CheckTraps(r, i);
      if trap.Some? { return Error(trap.value); }
      TrapNoneBelowLimit(img, View(), r, i);
      if i.CallNative? {
        t := NativeTurn(r, i, ev);
        ExecuteNative(img, old(View()), r, i);
      } else {
        t := ExecuteTurn(r, i, ev.lo, ev.hi);
      }
    }

    /** The arguments, one cell each, upwards from `at` (vm.c:432-433). */
    method PushArgs(at: int, args: seq<int>)
      requires Within(stack[..], at, |args|)
      modifies stack
      ensures stack[..] == Overwrite(old(stack[..]), at, args)
    {
      hide Overwrite;
      ghost var s := stack[..];
      for u2 := 0 to |args|
        invariant stack[..at] == s[..at]
        invariant forall k :: 0 <= k < u2 ==> stack[at + k] == args[k]
        invariant stack[at + u2..] == s[at + u2..]
      {
        stack[at + u2] := args[u2];
      }
      assert stack[at..at + |args|] == args;
      IsOverwrite(s, stack[..], at, args);
    }

    /** Frame set-up on entry (vm.c:416-441). */
    method EnterMethod(entry: int, args: seq<int>) returns (t: Turn)
      modifies stack
      ensures OutcomeOf(t, View()) == Enter(img, old(View()), entry, args)
    {
      hide Overwrite;
      var numLocals := NumLocals(img, entry);
      if NumParams(img, entry) != |args| { return Error(ERR_INVALID_METHOD_PARAMS); }
      if !Within(stack[..], sp + 1, |args| + 3) { return Wild; }
      ghost var s := stack[..];
      PushArgs(sp + 1, args);
      var fp := sp + 1 + |args|;
      OverwriteOn(s, sp + 1, args, [0, 0, entry]);
      Stored3(stack[..], fp, 0, 0, entry);
      stack[fp], stack[fp + 1], stack[fp + 2] := 0, 0, entry;
      t := Next(Regs(fp + 2 + numLocals, entry + 2, fp, fp - |args|, fp + 3, |args|, numLocals));
    }

    /** vmCall: enter the method, then dispatch until it returns, fails or the events run out. */
    method VmCall(call: Nested) returns (t: Turn)
      requires stack.Length >= img.limit + 16 && NestedFits(call, data.Length)
      modifies this, stack, data
      ensures OutcomeOf(t, View()) == RunNested(img, old(View()), call)
      decreases call, 0
    {
      hide Run, Enter;
      t := EnterMethod(call.entry, call.args);
      if t.Next? {
        t := DispatchLoop(t.r, call.events);
      }
    }

    method DispatchLoop(start: Regs, events: seq<Event>) returns (t: Turn)
      requires stack.Length >= img.limit + 16 && forall j :: 0 <= j < |events| ==> EventFits(events[j], data.Length)
      modifies this, stack, data
      ensures OutcomeOf(t, View()) == Run(img, old(View()), start, events)
      decreases events, 1
    {
      hide EventStep;
      t := Next(start);
      var j := 0;
      while t.Next? && j < |events|
        invariant 0 <= j <= |events|
        invariant Run(img, old(View()), start, events) ==
                  if t.Next? then Run(img, View(), t.r, events[j..]) else OutcomeOf(t, View())
        decreases |events| - j
      {
        assert events[j..][1..] == events[j + 1..];
        t := Step(t.r, events[j]);
        j := j + 1;
      }
    }

    /** vmEntry: the sentinel in cell 0, then the method whose block index the image holds. */
    method EnterVm(methodOffset: int, args: seq<int>, events: seq<Event>) returns (t: Turn)
      requires stack.Length >= img.limit + 16 && forall j :: 0 <= j < |events| ==> EventFits(events[j], data.Length)
      modifies this, stack, data
      ensures OutcomeOf(t, View()) == VmEntry(img, old(View()), methodOffset, args, events)
    {
      hide RunNested;
      sp := 0;
      ghost var m := old(View());
      stack[0] := -1;
      assert View() == m.(sp := 0, stack := m.stack[0 := -1]);
      t := VmCall(Nested(U2(img.code, methodOffset) * BLOCK, args, events));
    }
  }
}
