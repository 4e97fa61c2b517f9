/** Whole runs of vmCall, with natives that call back into it to any depth: the flat machine
    follows the frame machine, and suspended activations are never disturbed. */
module WholeRuns {
  import opened Words
  import opened Scode
  import opened FlatMachine
  import opened FrameMachine
  import opened StackCheck
  import opened Simulation

  /** Natives call back only methods of the image; nothing else is asked of them. */
  predicate EventOk(img: Image, e: Event)
    decreases e, 0
  {
    forall i :: 0 <= i < |e.calls| ==> NestedOk(img, e.calls[i])
  }

  predicate NestedOk(img: Image, call: Nested)
    decreases call, 0
  {
    IsMethod(img, call.entry) && forall i :: 0 <= i < |call.events| ==> EventOk(img, call.events[i])
  }

  predicate EventsOk(img: Image, events: seq<Event>)
  {
    forall i :: 0 <= i < |events| ==> EventOk(img, events[i])
  }

  predicate CallsOk(img: Image, calls: seq<Nested>)
  {
    forall i :: 0 <= i < |calls| ==> NestedOk(img, calls[i])
  }

  /** Room for the frames of one more call above any vm->sp below the limit. */
  predicate Roomy(img: Image, m: Memory)
  {
    img.limit + REDZONE <= |m.stack| && 0 <= m.sp < img.limit
  }

  /** An activation started above `base` in the middle of its run. */
  predicate Live(img: Image, d: Depths, m: Memory, r: Regs, base: int, s: State)
  {
    && Roomy(img, m) && base <= m.sp
    && Typed(img, d, s) && Encodes(m, r, base, s)
    && r.sp + HEADROOM < |m.stack|
  }

  /** No run writes a cell so far beyond maxStackAddr: entry to vmCall reaches furthest, with up to 255
      arguments and a header pushed from the last allowed vm->sp. */
  function WriteEnd(img: Image): nat { img.limit + 258 }

  /** Cells at and below `base` and from the write end on survive; vm->sp stays between `base` and the
      limit. */
  predicate Preserved(img: Image, m: Memory, m': Memory, base: int)
  {
    && Roomy(img, m') && 0 <= base <= m'.sp && base < |m.stack|
    && |m'.stack| == |m.stack| && m'.warnings == m.warnings
    && m'.stack[..base + 1] == m.stack[..base + 1]
    && m'.stack[WriteEnd(img)..] == m.stack[WriteEnd(img)..]
  }

  lemma PreservedTwice(img: Image, m: Memory, m1: Memory, m2: Memory, base: int, base': int)
    requires Preserved(img, m, m1, base) && Preserved(img, m1, m2, base') && base <= base'
    ensures Preserved(img, m, m2, base)
  {
    assert m2.stack[..base + 1] == m2.stack[..base' + 1][..base + 1] == m1.stack[..base' + 1][..base + 1];
  }

  // ---------------------------------------------------------- stack growth

  lemma CallGrowth(img: Image, base: int, s: State, target: int, returnCp: int, above: seq<int>)
    ensures var o := CallFrame(img, s, target, returnCp, above);
            o.Goes? ==> StackTop(base, o.s) <= StackTop(base, s) + 3 + 255
  {
    var o := CallFrame(img, s, target, returnCp, above);
    if o.Goes? {
      var callers := o.s.callers;
      assert callers[..|callers| - 1] == s.callers;
    }
  }

  lemma ExecuteGrowth(img: Image, base: int, s: State, e: Effect)
    requires var i := Fetch(img, s.cp); (i.Simple? ==> Pushes(i.op) <= Pops(i.op) + 2)
    ensures var o := ExecuteFrame(img, s, Fetch(img, s.cp), e);
            o.Goes? ==> StackTop(base, o.s) <= StackTop(base, s) + 4 + 255
  {
    hide Decode, Compute, Pops, Pushes, CallFrame, Dispatch, SwitchTarget;
    match Fetch(img, s.cp)
    case Call(target, loadParam0) =>
      CallGrowth(img, base, s, target, s.cp + 3, e.above);
      if loadParam0 && s.top.params != [] && e.above != [] {
        CallGrowth(img, base, WithOps(s, s.top.ops + [s.top.params[0]], s.cp), target, s.cp + 3, e.above[1..]);
      }
    case CallVirtual(slot, argc) =>
      if 0 < argc <= |s.top.ops| {
        var t := Dispatch(img, s.heap, s.cp, s.top.ops[|s.top.ops| - argc], slot, argc);
        if t.Some? { CallGrowth(img, base, s, t.value, s.cp + 4, e.above); }
      }
    case _ =>
  }

  lemma StepGrowth(img: Image, base: int, s: State, e: Effect)
    ensures var o := FrameStep(img, base, s, e); o.Goes? ==> StackTop(base, o.s) < img.limit + 4 + 255
  {
    hide Decode, ExecuteFrame, Reads, CheckedPointer;
    var o := FrameStep(img, base, s, e);
    if o.Goes? {
      StepNotStuck(img, base, s, e);
      DecodedBounds(img.code, s.cp, img.dataBase);
      ExecuteGrowth(img, base, s, e);
    }
  }

  // ------------------------------------------------------------------ entry

  lemma EnterEncodes(img: Image, d: Depths, m: Memory, entry: int, args: seq<int>)
    requires Checked(img, d) && IsMethod(img, entry) && Roomy(img, m)
    requires NumParams(img, entry) == |args|
    ensures var o := Enter(img, m, entry, args);
            var at := m.sp + |args| + 4;
            && o.Running? && at + NumLocals(img, entry) <= |m.stack|
            && Live(img, d, o.m, o.r, m.sp,
                    StartState(entry, args, m.stack[at..at + NumLocals(img, entry)], m.heap))
            && Preserved(img, m, o.m, m.sp)
            && o.m == m.(stack := Overwrite(m.stack, m.sp + 1, args + [0, 0, entry]))
  {
    hide Checked, Typed, FrameAt, Chained, Preserved;
    var o := Enter(img, m, entry, args);
    var at := m.sp + |args| + 4;
    var locals := m.stack[at..at + NumLocals(img, entry)];
    var s := StartState(entry, args, locals, m.heap);
    StartIsTyped(img, d, entry, args, locals, m.heap);
    EnteredFrame(m.stack, m.sp, s.top);
    EnterPreserves(img, m, entry, args);
  }

  lemma EnterPreserves(img: Image, m: Memory, entry: int, args: seq<int>)
    requires Roomy(img, m) && NumParams(img, entry) == |args|
    ensures var o := Enter(img, m, entry, args); o.Running? && Preserved(img, m, o.m, m.sp)
  {
    var t := Enter(img, m, entry, args).m.stack;
    assert |args| <= 255;
    assert t[..m.sp + 1] == m.stack[..m.sp + 1];
    assert t[WriteEnd(img)..] == m.stack[WriteEnd(img)..];
  }

  lemma EnteredFrame(stack: seq<int>, sp: int, f: Frame)
    requires 0 <= sp && sp + |f.params| + 4 + |f.locals| <= |stack| && f.returnCp == 0 && f.ops == []
    requires var at := sp + |f.params| + 4; f.locals == stack[at..at + |f.locals|]
    ensures var t := Overwrite(stack, sp + 1, f.params + [0, 0, f.entry]);
            var fp := sp + 1 + |f.params|;
            FrameAt(t, f, fp) && Chained(t, sp, [], f, fp)
  {
    var header := f.params + [0, 0, f.entry];
    var t := Overwrite(stack, sp + 1, header);
    var fp := sp + 1 + |f.params|;
    assert t[sp + 1..fp] == header[..|f.params|] == f.params;
    assert t[fp] == header[|f.params|] && t[fp + 1] == header[|f.params| + 1] && t[fp + 2] == header[|f.params| + 2];
    assert t[fp + 3..fp + 3 + |f.locals|] == stack[fp + 3..fp + 3 + |f.locals|];
  }

  // --------------------------------------------------------------- soundness

  /** What a run says about the frame machine's run `p` that it follows. */
  predicate Follows(img: Image, d: Depths, m: Memory, o: Outcome, base: int, p: Result)
    requires 0 <= base < |m.stack|
  {
    match o
    case Running(m', r') => p.Goes? && Live(img, d, m', r', base, p.s)
    case Suspended(_) => p.Goes?
    case Undefined => p.Goes? || p.Undetermined?   // undefined here, or inside a callback
    case WildAccess => false
    case _ => !p.Goes? && !p.Stuck? && Matches(m, o, base, p)
  }

  predicate Safe(img: Image, m: Memory, o: Outcome, base: int)
  {
    !o.WildAccess? && (!o.Undefined? ==> Preserved(img, m, MemoryOf(o, m), base))
  }

  /** The native's result once its callbacks are done; they cannot touch the stack it was given. */
  lemma {:induction false} CallsSound(img: Image, d: Depths, m: Memory, calls: seq<Nested>)
    requires Checked(img, d) && Roomy(img, m) && CallsOk(img, calls)
    ensures var o := RunCalls(img, m, calls); !o.Running? && !o.Failed? && Safe(img, m, o, m.sp)
    decreases calls, 0
  {
    hide RunNested, Checked, NestedOk;
    if calls != [] {
      NestedSound(img, d, m, calls[0]);
      var o := RunNested(img, m, calls[0]);
      if o.Returned? || o.Failed? {
        CallsSound(img, d, o.m, calls[1..]);
        var p := RunCalls(img, o.m, calls[1..]);
        if !p.Undefined? {
          PreservedTwice(img, m, o.m, MemoryOf(p, o.m), m.sp, o.m.sp);
        }
      }
    }
  }

  /** Re-entrancy: a vmCall started from vm->sp leaves every cell at or below it alone, however
      deeply its own natives call back. */
  lemma {:induction false} NestedSound(img: Image, d: Depths, m: Memory, call: Nested)
    requires Checked(img, d) && Roomy(img, m) && NestedOk(img, call)
    ensures Safe(img, m, RunNested(img, m, call), m.sp)
    decreases call, 0
  {
    if NumParams(img, call.entry) == |call.args| {
      hide Checked, Run, Live, Overwrite, NumParams, NumLocals, EventOk;
      EnterEncodes(img, d, m, call.entry, call.args);
      var o := Enter(img, m, call.entry, call.args);
      var at := m.sp + |call.args| + 4;
      var s := StartState(call.entry, call.args, m.stack[at..at + NumLocals(img, call.entry)], m.heap);
      RunSound(img, d, o.m, o.r, m.sp, s, call.events);
      var p := Run(img, o.m, o.r, call.events);
      if !p.Undefined? {
        PreservedTwice(img, m, o.m, MemoryOf(p, o.m), m.sp, m.sp);
      }
    }
  }

  /** What an event is to the frame machine: the cells above the stack top, and the heap and words the
      event holds; nothing while the native has not come back from its callbacks. */
  function EventEffects(img: Image, m: Memory, r: Regs, ev: Event): (es: seq<Effect>)
    ensures |es| <= 1 && forall e :: e in es ==> e.heap == ev.heap && e.lo == ev.lo && e.hi == ev.hi
  {
    if !(0 <= r.sp + 1 <= |m.stack|) || (CallsOut(img, m, r) && !RunCalls(img, m.(sp := r.sp), ev.calls).Returned?)
    then []
    else [Effect(m.stack[r.sp + 1..], ev.heap, ev.lo, ev.hi)]
  }

  /** The effects of the events of a run, as far as it goes. */
  function EffectsOf(img: Image, m: Memory, r: Regs, events: seq<Event>): seq<Effect>
    decreases |events|
  {
    if events == [] then []
    else
      var o := EventStep(img, m, r, events[0]);
      var es := EventEffects(img, m, r, events[0]);
      if o.Running? && es != [] then es + EffectsOf(img, o.m, o.r, events[1..]) else es
  }

  /** Effects hold the heaps and words of the events, one for one, and enough cells. */
  predicate HeldBy(es: seq<Effect>, events: seq<Event>)
  {
    && |es| <= |events|
    && (forall k :: 0 <= k < |es| ==>
          && es[k].heap == events[k].heap && es[k].lo == events[k].lo && es[k].hi == events[k].hi
          && |es[k].above| >= HEADROOM)
  }

  lemma HeldByMore(es: seq<Effect>, rest: seq<Effect>, events: seq<Event>)
    requires events != [] && HeldBy(es, [events[0]]) && |es| == 1 && HeldBy(rest, events[1..])
    ensures HeldBy(es + rest, events)
  {
    forall k | 0 < k < |es + rest|
      ensures (es + rest)[k] == rest[k - 1] && events[k] == events[1..][k - 1]
    {
    }
  }

  /** Only a native that is called uses the heap of an effect. */
  lemma HeapUnused(img: Image, d: Depths, m: Memory, r: Regs, base: int, s: State, e: Effect, heap: Heap)
    requires Checked(img, d) && Live(img, d, m, r, base, s) && !CallsOut(img, m, r)
    ensures FrameStep(img, base, s, e.(heap := heap)) == FrameStep(img, base, s, e)
  {
    hide Decode, Trap, Reads, Encodes, FrameTrap, CallersOk, Compute, Pops, Pushes, Dispatch, CallFrame, ReturnFrame;
    assert Checks(img, d, s.cp, d[s.cp].0, d[s.cp].1);
    SameRegisters(m, r, base, s);
    TrapSimulates(img, m, r, base, s);
  }

  /** One event: an instruction, with everything its native does. */
  lemma {:induction false} EventSound(img: Image, d: Depths, m: Memory, r: Regs, base: int, s: State, ev: Event)
    requires Checked(img, d) && Live(img, d, m, r, base, s) && EventOk(img, ev)
    ensures 0 <= base < |m.stack|
    ensures var o, es := EventStep(img, m, r, ev), EventEffects(img, m, r, ev);
            && Follows(img, d, m, o, base, FrameRun(img, base, s, es)) && Safe(img, m, o, base)
            && HeldBy(es, [ev]) && (o.Running? ==> |es| == 1)
    decreases ev, 0
  {
    hide Checked, Decode, Encodes, Typed, FlatStep, FrameStep, Matches, CallsOut, RunCalls, NestedOk;
    EncodedOps(m, r, base, s);
    var es := EventEffects(img, m, r, ev);
    if CallsOut(img, m, r) {
      CallsOutBelowLimit(img, m, r);
      var m1 := m.(sp := r.sp);
      CallsSound(img, d, m1, ev.calls);
      var o := RunCalls(img, m1, ev.calls);
      if o.Returned? {
        StepFollows(img, d, m, r, base, s, NativeResult(o.m.(heap := ev.heap), ev.lo, ev.hi));
        OneStep(img, base, s, es[0]);
      } else if o.Suspended? {
        PreservedLower(img, m, o.m, r.sp, base);
      }
    } else {
      var n := NativeResult(m, ev.lo, ev.hi);
      StepFollows(img, d, m, r, base, s, n);
      HeapUnused(img, d, m, r, base, s, EffectOf(m, r, n), ev.heap);
      OneStep(img, base, s, es[0]);
    }
  }

  lemma PreservedLower(img: Image, m: Memory, m': Memory, sp: int, base: int)
    requires Preserved(img, m.(sp := sp), m', sp) && 0 <= base <= sp
    ensures Preserved(img, m, m', base)
  {
    assert m'.stack[..base + 1] == m'.stack[..sp + 1][..base + 1] == m.stack[..sp + 1][..base + 1];
  }

  lemma CallsOutBelowLimit(img: Image, m: Memory, r: Regs)
    requires CallsOut(img, m, r)
    ensures r.sp < img.limit
  {
    hide Decode, Reads;
  }

  lemma StepFollows(img: Image, d: Depths, m: Memory, r: Regs, base: int, s: State, n: NativeResult)
    requires Checked(img, d) && Live(img, d, m, r, base, s) && 0 <= base <= r.sp < |m.stack|
    requires CallsOut(img, m, r) ==> Preserved(img, m.(sp := r.sp), n.m, r.sp)
    requires !CallsOut(img, m, r) ==> n.m == m
    ensures var o := FlatStep(img, m, r, n);
            var p := FrameStep(img, base, s, EffectOf(m, r, n));
            && Follows(img, d, m, o, base, p) && Safe(img, m, o, base)
            && !p.Stuck? && Matches(m, o, base, p) && (!o.Undefined? ==> MemoryOf(o, m).sp == n.m.sp)
  {
    hide Checked, Decode, Encodes, Typed, FlatStep, FrameStep, CallsOut;
    var o := FlatStep(img, m, r, n);
    var p := FrameStep(img, base, s, EffectOf(m, r, n));
    if CallsOut(img, m, r) {
      CallsOutBelowLimit(img, m, r);
      PreservedLower(img, m, n.m, r.sp, base);
    } else {
      LiveBase(img, d, m, r, base, s);
    }
    StepSimulates(img, d, m, r, base, s, n);
    StepGrowth(img, base, s, EffectOf(m, r, n));
    FlatStepEnds(img, m, r, n);
    assert !o.WildAccess?;
    if !o.Undefined? {
      ConfinedPreserves(img, m, if CallsOut(img, m, r) then n.m else m, o.m, base);
    }
    if o.Running? {
      EncodedHeight(o.m, o.r, base, p.s);
    }
  }

  lemma ConfinedPreserves(img: Image, m: Memory, m1: Memory, m2: Memory, base: int)
    requires Preserved(img, m, m1, base) && Confined(m1, m2, base, img.limit + 4)
    ensures Preserved(img, m, m2, base)
  {
    var a, b := img.limit + 4, WriteEnd(img);
    assert m2.stack[b..] == m2.stack[a..][b - a..] == m1.stack[a..][b - a..];
  }

  lemma FlatStepEnds(img: Image, m: Memory, r: Regs, n: NativeResult)
    ensures !FlatStep(img, m, r, n).Suspended?
  {
    hide Decode, Reads, Trap, Compute, Dispatch, NumLocals, NumParams, Overwrite, SwitchTarget;
  }

  /** Every run of checked code: given the same heaps and words, the flat machine follows the frame
      machine instruction by instruction, and disturbs nothing at or below `base`. */
  lemma {:induction false} RunSound(img: Image, d: Depths, m: Memory, r: Regs, base: int, s: State, events: seq<Event>)
    requires Checked(img, d) && Live(img, d, m, r, base, s) && EventsOk(img, events)
    ensures 0 <= base < |m.stack|
    ensures var o, es := Run(img, m, r, events), EffectsOf(img, m, r, events);
            && Follows(img, d, m, o, base, FrameRun(img, base, s, es)) && Safe(img, m, o, base)
            && HeldBy(es, events) && (o.Running? ==> |es| == |events|)
    decreases events, 1
  {
    hide Checked, EventStep, FrameStep, EventOk, EventEffects;
    LiveBase(img, d, m, r, base, s);
    if events != [] {
      EventSound(img, d, m, r, base, s, events[0]);
      var o, es := EventStep(img, m, r, events[0]), EventEffects(img, m, r, events[0]);
      if o.Running? {
        var p := FrameRun(img, base, s, es);
        RunSound(img, d, o.m, o.r, base, p.s, events[1..]);
        var rest := EffectsOf(img, o.m, o.r, events[1..]);
        FrameRunConcat(img, base, s, es, rest);
        HeldByMore(es, rest, events);
        RunJoins(img, d, m, o.m, Run(img, o.m, o.r, events[1..]), base, FrameRun(img, base, p.s, rest));
      }
    }
  }

  lemma LiveBase(img: Image, d: Depths, m: Memory, r: Regs, base: int, s: State)
    requires Live(img, d, m, r, base, s)
    ensures 0 <= base < |m.stack| && Preserved(img, m, m, base)
  {
    hide Typed;
    EncodedOps(m, r, base, s);
  }

  lemma RunJoins(img: Image, d: Depths, m: Memory, m1: Memory, o: Outcome, base: int, p: Result)
    requires Preserved(img, m, m1, base) && 0 <= base < |m1.stack|
    requires Follows(img, d, m1, o, base, p) && Safe(img, m1, o, base)
    ensures Follows(img, d, m, o, base, p) && Safe(img, m, o, base)
  {
    hide Live, Encodes, Typed;
    assert m1.stack[base] == m1.stack[..base + 1][base] == m.stack[base];
    if !o.Undefined? {
      PreservedTwice(img, m, m1, MemoryOf(o, m1), base, base);
    }
  }

  // ------------------------------------------------------- what callers see

  /** vmCall from outside: a void method leaves its caller with the cell at vm->sp. */
  lemma VoidCallReturnsCellBelow(img: Image, d: Depths, m: Memory, call: Nested)
    requires Checked(img, d) && Roomy(img, m) && NestedOk(img, call)
    ensures var o := RunNested(img, m, call);
            && Safe(img, m, o, m.sp)
            && (o.Returned? && img.results[call.entry] == 0 ==> o.value == m.stack[m.sp])
  {
    NestedSound(img, d, m, call);
    if NumParams(img, call.entry) == |call.args| {
      hide Checked, Run, Live, Overwrite, FrameRun, NumParams, NumLocals, EventOk, EffectsOf, Typed;
      EnterEncodes(img, d, m, call.entry, call.args);
      var o := Enter(img, m, call.entry, call.args);
      var at := m.sp + |call.args| + 4;
      var s := StartState(call.entry, call.args, m.stack[at..at + NumLocals(img, call.entry)], m.heap);
      RunSound(img, d, o.m, o.r, m.sp, s, call.events);
      var es := EffectsOf(img, o.m, o.r, call.events);
      LiveTyped(img, d, o.m, o.r, m.sp, s);
      RunEndsAsDeclared(img, d, m.sp, s, es);
      assert o.m.stack[m.sp] == o.m.stack[..m.sp + 1][m.sp] == m.stack[m.sp];
    }
  }

  lemma LiveTyped(img: Image, d: Depths, m: Memory, r: Regs, base: int, s: State)
    requires Live(img, d, m, r, base, s)
    ensures Typed(img, d, s)
  {
  }

  /** vmEntry: whatever a checked image does, no stack access is wild, the sentinel in cell 0
      survives, and a void entry method returns it. */
  lemma VmEntryReturnsSentinel(img: Image, d: Depths, m: Memory, methodOffset: int, args: seq<int>, events: seq<Event>)
    requires Checked(img, d) && Roomy(img, m) && EventsOk(img, events)
    requires IsMethod(img, U2(img.code, methodOffset) * BLOCK)
    ensures var entry := U2(img.code, methodOffset) * BLOCK;
            var o := VmEntry(img, m, methodOffset, args, events);
            && !o.WildAccess?
            && (!o.Undefined? ==>
                  var m' := MemoryOf(o, m); |m'.stack| > 0 && m'.stack[0] == -1 && m'.warnings == m.warnings)
            && (o.Returned? && img.results[entry] == 0 ==> o.value == -1)
  {
    var m0 := m.(sp := 0, stack := m.stack[0 := -1]);
    var call := Nested(U2(img.code, methodOffset) * BLOCK, args, events);
    VoidCallReturnsCellBelow(img, d, m0, call);
    var o := RunNested(img, m0, call);
    if !o.Undefined? {
      assert MemoryOf(o, m0).stack[0] == MemoryOf(o, m0).stack[..1][0] == m0.stack[..1][0];
    }
  }

  /** The bound of the per-instruction guard is met: LoadParam0Call at the last allowed sp
      writes its method address at maxStackAddr + 3. */
  lemma GuardBoundIsMet(img: Image, m: Memory, r: Regs, target: int)
    requires r.sp == img.limit - 1 && img.limit + REDZONE <= |m.stack| && Within(m.stack, r.pp, 1)
    ensures var o := CallParam0Step(img, m, r, target);
            o.Running? && o.m.stack[img.limit + 3] == target
            && o.m.stack[img.limit + 4..] == m.stack[img.limit + 4..]
  {
    var cell := [m.stack[r.pp]];
    var m1 := m.(stack := Overwrite(m.stack, r.sp + 1, cell));
    var header := [r.cp + 3, r.fp, target];
    assert CallParam0Step(img, m, r, target).m.stack == Overwrite(m1.stack, r.sp + 2, header);
    assert Overwrite(m1.stack, r.sp + 2, header)[r.sp + 4] == header[2];
  }

  /** Entry to vmCall has no such guard. From any vm->sp the highest cell it writes holds the method's
      address; the bound of the guard is kept exactly if the arguments end early enough. */
  lemma EntryIsUnguarded(img: Image, m: Memory, entry: int, args: seq<int>)
    requires 0 <= m.sp < img.limit && img.limit + REDZONE <= |m.stack| && NumParams(img, entry) == |args|
    ensures |args| <= 255
    ensures var o, last := Enter(img, m, entry, args), m.sp + |args| + 3;
            && o.Running? && o.m.stack[last] == entry && o.m.stack[last + 1..] == m.stack[last + 1..]
            && (last < img.limit + 4 <==> m.sp + |args| <= img.limit)
            && (last < img.limit + 4 ==> o.m.stack[img.limit + 4..] == m.stack[img.limit + 4..])
            && last < WriteEnd(img)
  {
    var header := args + [0, 0, entry];
    var t := Overwrite(m.stack, m.sp + 1, header);
    var last := m.sp + |args| + 3;
    assert t[m.sp + |header|] == header[|args| + 2];
    assert t[last + 1..] == m.stack[last + 1..];
    if last < img.limit + 4 {
      var k := img.limit + 3 - last;
      assert t[img.limit + 4..] == t[last + 1..][k..] == m.stack[last + 1..][k..];
    }
  }

  /** The write end is met: 255 arguments pushed from the last allowed vm->sp. */
  lemma WriteEndIsMet(img: Image, m: Memory, entry: int, args: seq<int>)
    requires m.sp == img.limit - 1 && img.limit + REDZONE <= |m.stack| && img.limit > 0
    requires NumParams(img, entry) == |args| == 255
    ensures var o := Enter(img, m, entry, args); o.Running? && o.m.stack[WriteEnd(img) - 1] == entry
  {
    EntryIsUnguarded(img, m, entry, args);
  }

  // ------------------------------------------------- runs without callbacks

  predicate NoCallbacks(events: seq<Event>)
  {
    forall i :: 0 <= i < |events| ==> events[i].calls == []
  }

  predicate GuardKept(img: Image, m: Memory, o: Outcome)
  {
    !o.Undefined? ==>
      var m' := MemoryOf(o, m);
      && img.limit + 4 <= |m.stack| == |m'.stack|
      && m'.stack[img.limit + 4..] == m.stack[img.limit + 4..]
  }

  lemma StepKeepsGuard(img: Image, d: Depths, m: Memory, r: Regs, base: int, s: State, ev: Event)
    requires Checked(img, d) && Live(img, d, m, r, base, s) && ev.calls == []
    ensures GuardKept(img, m, EventStep(img, m, r, ev))
  {
    hide Checked, Decode, Encodes, Typed, FlatStep, FrameStep, CallsOut, Matches;
    EncodedOps(m, r, base, s);
    var n := NativeResult(m, ev.lo, ev.hi);
    if CallsOut(img, m, r) {
      CallsOutBelowLimit(img, m, r);
      n := NativeResult(m.(sp := r.sp, heap := ev.heap), ev.lo, ev.hi);
    }
    StepSimulates(img, d, m, r, base, s, n);
  }

  /** A run without callbacks keeps the bound of the guard: no cell from maxStackAddr + 4 on. */
  lemma {:induction false} RunKeepsGuard(img: Image, d: Depths, m: Memory, r: Regs, base: int, s: State,
                                         events: seq<Event>)
    requires Checked(img, d) && Live(img, d, m, r, base, s) && EventsOk(img, events) && NoCallbacks(events)
    ensures GuardKept(img, m, Run(img, m, r, events))
    decreases |events|
  {
    hide Checked, Live, EventStep, FrameStep, EventOk, EventEffects, Safe, FrameRun;
    LiveRoom(img, d, m, r, base, s);
    if events != [] {
      StepKeepsGuard(img, d, m, r, base, s, events[0]);
      EventSound(img, d, m, r, base, s, events[0]);
      var o := EventStep(img, m, r, events[0]);
      if o.Running? {
        var p := FrameRun(img, base, s, EventEffects(img, m, r, events[0]));
        RunKeepsGuard(img, d, o.m, o.r, base, p.s, events[1..]);
      }
    }
  }

  lemma LiveRoom(img: Image, d: Depths, m: Memory, r: Regs, base: int, s: State)
    requires Live(img, d, m, r, base, s)
    ensures img.limit + 4 <= |m.stack|
  {
    hide Typed, Encodes;
  }
}
