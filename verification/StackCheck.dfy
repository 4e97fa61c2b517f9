/** A static check of a code image, and its soundness: every instruction of every method has
    one operand depth, consistent along all edges, so no reachable state is stuck. */
module StackCheck {
  import opened Words
  import opened Scode
  import opened FlatMachine
  import opened FrameMachine

  /** For each instruction start: the method it belongs to and its operand depth. */
  type Depths = map<int, (int, nat)>

  predicate At(d: Depths, cp: int, entry: int, depth: int)
  {
    cp in d && d[cp].0 == entry && d[cp].1 == depth
  }

  predicate IsMethod(img: Image, entry: int)
  {
    entry in img.results && 0 <= img.results[entry] <= 2
  }

  function VarCount(img: Image, entry: int, region: Region): int
  {
    if region.Params? then NumParams(img, entry) else NumLocals(img, entry)
  }

  /** The instruction at `cp` of method `entry`, entered with `depth` operands, has its operands,
      stays within its parameters and locals, and hands every successor the depth recorded for it. */
  predicate Checks(img: Image, d: Depths, cp: int, entry: int, depth: nat)
  {
    var i := Fetch(img, cp);
    Reads(i) <= depth &&
    match i
    case Simple(op, length) => At(d, cp + length, entry, depth - Pops(op) + Pushes(op))
    case LoadVar(region, index, wide, length) =>
      && index + (if wide then 2 else 1) <= VarCount(img, entry, region)
      && At(d, cp + length, entry, depth + if wide then 2 else 1)
    case StoreVar(region, index, wide, length) =>
      && index + (if wide then 2 else 1) <= VarCount(img, entry, region)
      && At(d, cp + length, entry, depth - if wide then 2 else 1)
    case LoadParam0Inline(_, length) => NumParams(img, entry) > 0 && At(d, cp + length, entry, depth + 1)
    case Jump(offset) => At(d, cp + offset, entry, depth)
    case Branch(cond, offset, length) =>
      && At(d, cp + offset, entry, depth - Reads(i))
      && At(d, cp + length, entry, depth - Reads(i))
    case Foreach(offset, length) => At(d, cp + offset, entry, depth) && At(d, cp + length, entry, depth + 2)
    case Switch(count) =>
      && At(d, cp + 3 + count * 2, entry, depth - 1)
      && forall v :: 0 <= v < count ==> At(d, SwitchTarget(img, cp, count, v), entry, depth - 1)
    case Call(target, loadParam0) =>
      var given := if loadParam0 then depth + 1 else depth;
      && (loadParam0 ==> NumParams(img, entry) > 0)
      && IsMethod(img, target) && NumParams(img, target) <= given
      && At(d, cp + 3, entry, given - NumParams(img, target) + img.results[target])
    case CallVirtual(_, argc) =>
      && 1 <= argc && cp in img.slots && 0 <= img.slots[cp] <= 2
      && At(d, cp + 4, entry, depth - argc + img.slots[cp])
    case CallNative(cells, _, _, argc) => cells <= 2 && At(d, cp + 4, entry, depth - argc + cells)
    case Return(cells) => depth == cells && IsMethod(img, entry) && img.results[entry] == cells
    case Given(source, length) => At(d, cp + length, entry, depth - Takes(source) + Gives(source))
    case Unaccepted => false
  }

  ghost predicate Checked(img: Image, d: Depths)
  {
    && 0 !in d
    && (forall entry :: entry in img.results ==> IsMethod(img, entry) && At(d, entry + 2, entry, 0))
    && (forall cp {:trigger Checks(img, d, cp, d[cp].0, d[cp].1)} ::
          cp in d ==> IsMethod(img, d[cp].0) && Checks(img, d, cp, d[cp].0, d[cp].1))
  }

  // ------------------------------------------------------------- soundness

  /** A frame has the parameters and locals its method declares. */
  predicate FrameOk(img: Image, f: Frame)
  {
    IsMethod(img, f.entry) && |f.params| == NumParams(img, f.entry) && |f.locals| == NumLocals(img, f.entry)
  }

  /** Below a callee: every suspended frame resumes, with the callee's result pushed, at an
      instruction expecting exactly that depth; the outermost returns to cp zero. */
  predicate CallersOk(img: Image, d: Depths, callers: seq<Frame>, callee: Frame)
    decreases |callers|
  {
    FrameOk(img, callee) &&
    if callers == [] then callee.returnCp == 0
    else
      var n := |callers| - 1;
      var caller := callers[n];
      && At(d, callee.returnCp, caller.entry, |caller.ops| + img.results[callee.entry])
      && CallersOk(img, d, callers[..n], caller)
  }

  predicate Typed(img: Image, d: Depths, s: State)
  {
    CallersOk(img, d, s.callers, s.top) && At(d, s.cp, s.top.entry, |s.top.ops|)
  }

  const HEADROOM := 600   // cells an effect supplies above the operand stack

  lemma CallersIgnoreOps(img: Image, d: Depths, callers: seq<Frame>, f: Frame, g: Frame)
    requires CallersOk(img, d, callers, f)
    requires f.entry == g.entry && f.returnCp == g.returnCp
    requires |f.params| == |g.params| && |f.locals| == |g.locals|
    ensures CallersOk(img, d, callers, g)
  {
  }

  lemma CalleeOk(img: Image, d: Depths, callers: seq<Frame>, f: Frame)
    requires CallersOk(img, d, callers, f)
    ensures FrameOk(img, f)
  {
  }

  lemma DispatchIsMethod(img: Image, heap: Heap, cp: int, self: int, slot: nat, argc: nat)
    requires Dispatch(img, heap, cp, self, slot, argc).Some?
    ensures var t := Dispatch(img, heap, cp, self, slot, argc).value;
            && t in img.results && NumParams(img, t) == argc
            && cp in img.slots && img.results[t] == img.slots[cp]
  {
  }

  lemma CallKeepsTyping(img: Image, d: Depths, s: State, target: int, returnCp: int, above: seq<int>)
    requires Checked(img, d) && CallersOk(img, d, s.callers, s.top)
    requires IsMethod(img, target) && NumParams(img, target) <= |s.top.ops| && |above| >= 3 + 255
    requires At(d, returnCp, s.top.entry, |s.top.ops| - NumParams(img, target) + img.results[target])
    ensures var o := CallFrame(img, s, target, returnCp, above); o.Goes? && Typed(img, d, o.s)
  {
    hide Decode;
    var caller := s.top.(ops := Keep(s.top.ops, NumParams(img, target)));
    CallersIgnoreOps(img, d, s.callers, s.top, caller);
    var callers := s.callers + [caller];
    assert callers[..|callers| - 1] == s.callers;
  }

  lemma ReturnKeepsTyping(img: Image, d: Depths, s: State, cells: nat)
    requires Checked(img, d) && CallersOk(img, d, s.callers, s.top)
    requires |s.top.ops| == cells == img.results[s.top.entry]
    ensures var o := ReturnFrame(s, cells);
            if s.callers == [] then o.Ends? && (o.value.None? <==> cells == 0)
            else o.Goes? && Typed(img, d, o.s)
  {
    if s.callers != [] {
      var n := |s.callers| - 1;
      var caller := s.callers[n];
      CallersIgnoreOps(img, d, s.callers[..n], caller, caller.(ops := caller.ops + s.top.ops));
    }
  }

  /** Instructions that stay in their frame and fall through; those that stay and may jump. */
  predicate Straight(i: Instr)
  {
    i.Simple? || i.LoadVar? || i.StoreVar? || i.LoadParam0Inline? || i.CallNative? || i.Given?
    || i.Unaccepted?
  }

  predicate Jumping(i: Instr) { i.Jump? || i.Branch? || i.Foreach? || i.Switch? }

  lemma StraightKeepsTyping(img: Image, d: Depths, s: State, e: Effect)
    requires CallersOk(img, d, s.callers, s.top) && Straight(Fetch(img, s.cp))
    requires Checks(img, d, s.cp, s.top.entry, |s.top.ops|)
    ensures var o := ExecuteFrame(img, s, Fetch(img, s.cp), e);
            !o.Stuck? && !o.Fails? && (o.Goes? ==> Typed(img, d, o.s))
  {
    hide Decode, Compute, CallersOk, Pops, Pushes, Overwrite, NumParams, NumLocals;
    var o := ExecuteFrame(img, s, Fetch(img, s.cp), e);
    CalleeOk(img, d, s.callers, s.top);
    if o.Goes? {
      CallersIgnoreOps(img, d, s.callers, s.top, o.s.top);
      assert At(d, o.s.cp, o.s.top.entry, |o.s.top.ops|);
    }
  }

  lemma JumpKeepsTyping(img: Image, d: Depths, s: State, e: Effect)
    requires CallersOk(img, d, s.callers, s.top) && Jumping(Fetch(img, s.cp))
    requires Checks(img, d, s.cp, s.top.entry, |s.top.ops|)
    ensures var o := ExecuteFrame(img, s, Fetch(img, s.cp), e); o.Goes? && Typed(img, d, o.s)
  {
    hide Decode, CallersOk;
    var o := ExecuteFrame(img, s, Fetch(img, s.cp), e);
    CallersIgnoreOps(img, d, s.callers, s.top, o.s.top);
  }

  lemma ControlKeepsTyping(img: Image, d: Depths, s: State, e: Effect)
    requires Checked(img, d) && CallersOk(img, d, s.callers, s.top)
    requires !Straight(Fetch(img, s.cp)) && !Jumping(Fetch(img, s.cp))
    requires Checks(img, d, s.cp, s.top.entry, |s.top.ops|) && |e.above| >= HEADROOM
    ensures var o := ExecuteFrame(img, s, Fetch(img, s.cp), e);
            !o.Stuck? && !o.Fails? && (o.Goes? ==> Typed(img, d, o.s))
  {
    hide Decode, Dispatch, CallFrame, ReturnFrame, CallersOk;
    CalleeOk(img, d, s.callers, s.top);
    match Fetch(img, s.cp)
    case Call(target, loadParam0) =>
      if loadParam0 {
        var s' := WithOps(s, s.top.ops + [s.top.params[0]], s.cp);
        CallersIgnoreOps(img, d, s.callers, s.top, s'.top);
        CallKeepsTyping(img, d, s', target, s.cp + 3, e.above[1..]);
      } else {
        CallKeepsTyping(img, d, s, target, s.cp + 3, e.above);
      }
    case CallVirtual(slot, argc) =>
      var ops := s.top.ops;
      var t := Dispatch(img, s.heap, s.cp, ops[|ops| - argc], slot, argc);
      if t.Some? {
        DispatchIsMethod(img, s.heap, s.cp, ops[|ops| - argc], slot, argc);
        CallKeepsTyping(img, d, s, t.value, s.cp + 4, e.above);
      }
    case Return(cells) => ReturnKeepsTyping(img, d, s, cells);
  }

  /** Progress and preservation for one instruction: checked code never gets stuck, so it never
      underflows its operand stack, leaves its variables, or returns unbalanced. */
  lemma StepKeepsTyping(img: Image, d: Depths, base: int, s: State, e: Effect)
    requires Checked(img, d) && Typed(img, d, s) && |e.above| >= HEADROOM
    ensures var o := FrameStep(img, base, s, e);
            && !o.Stuck?
            && (o.Goes? ==> Typed(img, d, o.s))
            && (o.Fails? ==> o.error in {ERR_NULL_POINTER, ERR_STACK_OVERFLOW, ERR_MISSING_NATIVE})
  {
    hide Decode, ExecuteFrame;
    assert Checks(img, d, s.cp, d[s.cp].0, d[s.cp].1);
    if Straight(Fetch(img, s.cp)) {
      StraightKeepsTyping(img, d, s, e);
    } else if Jumping(Fetch(img, s.cp)) {
      JumpKeepsTyping(img, d, s, e);
    } else {
      ControlKeepsTyping(img, d, s, e);
    }
  }

  /** The state vmCall starts a method in. */
  function StartState(entry: int, args: seq<int>, locals: seq<int>, heap: Heap): State
  {
    State([], Frame(entry, 0, args, locals, []), entry + 2, heap)
  }

  lemma StartIsTyped(img: Image, d: Depths, entry: int, args: seq<int>, locals: seq<int>, heap: Heap)
    requires Checked(img, d) && IsMethod(img, entry)
    requires |args| == NumParams(img, entry) && |locals| == NumLocals(img, entry)
    ensures Typed(img, d, StartState(entry, args, locals, heap))
  {
  }

  /** Soundness over whole runs: from a typed state no run of checked code is ever stuck. */
  lemma {:induction false} RunKeepsTyping(img: Image, d: Depths, base: int, s: State, es: seq<Effect>)
    requires Checked(img, d) && Typed(img, d, s)
    requires forall e :: e in es ==> |e.above| >= HEADROOM
    ensures var o := FrameRun(img, base, s, es); !o.Stuck? && (o.Goes? ==> Typed(img, d, o.s))
    decreases |es|
  {
    if es != [] {
      StepKeepsTyping(img, d, base, s, es[0]);
      var o := FrameStep(img, base, s, es[0]);
      if o.Goes? {
        RunKeepsTyping(img, d, base, o.s, es[1..]);
      }
    }
  }

  /** The method vmCall was asked to run. */
  function Outermost(s: State): int
  {
    if s.callers == [] then s.top.entry else s.callers[0].entry
  }

  lemma LocalKeepsCallers(img: Image, s: State, e: Effect)
    requires Straight(Fetch(img, s.cp)) || Jumping(Fetch(img, s.cp))
    ensures var o := ExecuteFrame(img, s, Fetch(img, s.cp), e);
            !o.Ends? && (o.Goes? ==> o.s.callers == s.callers && o.s.top.entry == s.top.entry)
  {
    hide Decode, Compute, Pops, Pushes, SwitchTarget, Overwrite;
  }

  lemma ExecuteKeepsOutermost(img: Image, d: Depths, s: State, e: Effect)
    requires Outermost(s) in img.results
    requires CallersOk(img, d, s.callers, s.top) && 0 !in d
    requires Checks(img, d, s.cp, s.top.entry, |s.top.ops|)
    ensures var o := ExecuteFrame(img, s, Fetch(img, s.cp), e);
            && (o.Goes? ==> Outermost(o.s) == Outermost(s))
            && (o.Ends? ==> (o.value.None? <==> img.results[Outermost(s)] == 0))
  {
    hide Decode, Compute, Pops, Pushes, Dispatch, SwitchTarget, NumParams, NumLocals, Overwrite, ExecuteFrame;
    if Straight(Fetch(img, s.cp)) || Jumping(Fetch(img, s.cp)) {
      LocalKeepsCallers(img, s, e);
    } else {
      ControlKeepsOutermost(img, d, s, e);
    }
  }

  lemma ControlKeepsOutermost(img: Image, d: Depths, s: State, e: Effect)
    requires Outermost(s) in img.results
    requires CallersOk(img, d, s.callers, s.top) && 0 !in d
    requires !Straight(Fetch(img, s.cp)) && !Jumping(Fetch(img, s.cp))
    requires Checks(img, d, s.cp, s.top.entry, |s.top.ops|)
    ensures var o := ExecuteFrame(img, s, Fetch(img, s.cp), e);
            && (o.Goes? ==> Outermost(o.s) == Outermost(s))
            && (o.Ends? ==> (o.value.None? <==> img.results[Outermost(s)] == 0))
  {
    hide Decode, Dispatch, NumParams, NumLocals;
  }

  /** A finished run has no value exactly when the method it ran is void. */
  lemma {:induction false} RunEndsAsDeclared(img: Image, d: Depths, base: int, s: State, es: seq<Effect>)
    requires Checked(img, d) && Typed(img, d, s)
    requires forall e :: e in es ==> |e.above| >= HEADROOM
    ensures Outermost(s) in img.results
    ensures var o := FrameRun(img, base, s, es);
            o.Ends? ==> (o.value.None? <==> img.results[Outermost(s)] == 0)
    decreases |es|
  {
    hide Decode, Checks, CallersOk, ExecuteFrame;
    OutermostIsMethod(img, d, s.callers, s.top);
    if es != [] {
      assert Checks(img, d, s.cp, d[s.cp].0, d[s.cp].1);
      StepKeepsTyping(img, d, base, s, es[0]);
      ExecuteKeepsOutermost(img, d, s, es[0]);
      var o := FrameStep(img, base, s, es[0]);
      if o.Goes? {
        RunEndsAsDeclared(img, d, base, o.s, es[1..]);
      }
    }
  }

  lemma {:induction false} OutermostIsMethod(img: Image, d: Depths, callers: seq<Frame>, callee: Frame)
    requires CallersOk(img, d, callers, callee)
    ensures IsMethod(img, if callers == [] then callee.entry else callers[0].entry)
    decreases |callers|
  {
    if callers != [] {
      var n := |callers| - 1;
      OutermostIsMethod(img, d, callers[..n], callers[n]);
    }
  }
}
