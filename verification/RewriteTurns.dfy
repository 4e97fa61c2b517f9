/** Branch rewriting, turn by turn: the flat machines of an image and of its rewriting stay in
    corresponding states when each takes its turn, a fused pair being two turns of the old one. */
module RewriteTurns {
  import opened Words
  import opened Scode
  import opened FlatMachine
  import opened FrameMachine
  import opened StackCheck
  import opened Simulation
  import opened WholeRuns
  import opened BranchRewrite

  /** An image, its rewriting, and what is known of them. */
  datatype Rewriting = Rewriting(a: Image, b: Image, l: Layout, u: Assigned, da: Depths, db: Depths)

  ghost predicate Sound(w: Rewriting)
  {
    Rewrites(w.a, w.b, w.l) && DefinitelyAssigned(w.a, w.u) && Checked(w.a, w.da) && Checked(w.b, w.db)
  }

  /** Activations of the two images above cell `base`, in the middle of their runs. */
  predicate BothLive(w: Rewriting, base: int, m: Memory, r: Regs, s: State, m': Memory, r': Regs, t: State)
  {
    && Live(w.a, w.da, m, r, base, s) && Live(w.b, w.db, m', r', base, t)
    && m.sp == m'.sp && Tracks(w.a, w.b, w.l, w.u, base, s, t)
  }

  /** How two activations ended: the frame's result, if it has one, or the states they go on from. */
  datatype End = End(value: Option<int>, s: State, t: State)

  /** A finished activation's value: the frame's result, or for a void method the cell below it. */
  function ValueOf(v: Option<int>, below: int): int { if v.Some? then v.value else below }

  /** Outcomes of activations above `base`, started from memories `m` and `m'`, that end alike. */
  predicate SameOutcome(w: Rewriting, base: int, m: Memory, m': Memory, o: Outcome, o': Outcome, e: End)
    requires 0 <= base < |m.stack| && base < |m'.stack|
  {
    match o
    case Running(n, r) => o'.Running? && BothLive(w, base, n, r, e.s, o'.m, o'.r, e.t)
    case Returned(n, x) =>
      && o'.Returned? && n.heap == o'.m.heap && n.sp == o'.m.sp
      && x == ValueOf(e.value, m.stack[base]) && o'.value == ValueOf(e.value, m'.stack[base])
    case Failed(n, error) => o'.Failed? && n.heap == o'.m.heap && n.sp == o'.m.sp && o'.error == error
    case Suspended(n) => o'.Suspended? && n.heap == o'.m.heap
    case Undefined => o'.Undefined?
    case WildAccess => false
  }

  /** Outcomes of whole calls that end alike, values aside. */
  predicate SameEnd(o: Outcome, o': Outcome)
  {
    match o
    case Running(n, _) => o'.Running? && n.heap == o'.m.heap && n.sp == o'.m.sp
    case Returned(n, _) => o'.Returned? && n.heap == o'.m.heap && n.sp == o'.m.sp
    case Failed(n, error) => o'.Failed? && n.heap == o'.m.heap && n.sp == o'.m.sp && o'.error == error
    case Suspended(n) => o'.Suspended? && n.heap == o'.m.heap
    case Undefined => o'.Undefined?
    case WildAccess => false
  }

  /** They answer alike, too, if the method is not void or the cell a void call answers is the same. */
  predicate SameCall(w: Rewriting, entry: int, m: Memory, m': Memory, o: Outcome, o': Outcome)
    requires 0 <= m.sp < |m.stack| && m.sp < |m'.stack| && entry in w.a.results
  {
    && SameEnd(o, o')
    && (o.Returned? && (w.a.results[entry] != 0 || m.stack[m.sp] == m'.stack[m.sp]) ==> o.value == o'.value)
  }

  /** The method vmCall entered goes on, or has ended as it declares. */
  predicate AsDeclared(img: Image, s: State, o: Outcome, e: End)
  {
    && Outermost(s) in img.results
    && (o.Running? ==> Outermost(e.s) == Outermost(s))
    && (o.Returned? ==> (e.value.None? <==> img.results[Outermost(s)] == 0))
  }

  // --------------------------------------------------------------- one turn

  lemma CheckedHere(img: Image, d: Depths, s: State)
    requires Checked(img, d) && Typed(img, d, s)
    ensures Checks(img, d, s.cp, s.top.entry, |s.top.ops|) && CallsMethod(img, s)
    ensures CallersOk(img, d, s.callers, s.top) && 0 !in d
  {
    hide Decode, CallersOk;
    assert Checks(img, d, s.cp, d[s.cp].0, d[s.cp].1);
  }

  lemma StepKeepsOutermost(img: Image, d: Depths, base: int, s: State, e: Effect)
    requires Checked(img, d) && Typed(img, d, s)
    ensures Outermost(s) in img.results
    ensures var p := FrameStep(img, base, s, e);
            && (p.Goes? ==> Outermost(p.s) == Outermost(s))
            && (p.Ends? ==> (p.value.None? <==> img.results[Outermost(s)] == 0))
  {
    hide Decode, Checks, CallersOk, ExecuteFrame, Reads, FrameTrap;
    CheckedHere(img, d, s);
    OutermostIsMethod(img, d, s.callers, s.top);
    ExecuteKeepsOutermost(img, d, s, e);
  }

  lemma LiveFacts(img: Image, d: Depths, m: Memory, r: Regs, base: int, s: State)
    requires Live(img, d, m, r, base, s)
    ensures 0 <= base <= r.sp < |m.stack| && |m.stack[r.sp + 1..]| >= HEADROOM
    ensures r.cp == s.cp && r.sp == StackTop(base, s) && m.heap == s.heap && Typed(img, d, s)
    ensures Roomy(img, m) && base <= m.sp
  {
    hide Typed;
    EncodedOps(m, r, base, s);
    EncodedHeight(m, r, base, s);
    SameRegisters(m, r, base, s);
  }

  /** What a native, or the word an instruction is given, may be at a turn from `m` and `r`. */
  predicate Answers(img: Image, m: Memory, r: Regs, n: NativeResult)
  {
    && (CallsOut(img, m, r) ==> Preserved(img, m.(sp := r.sp), n.m, r.sp))
    && (!CallsOut(img, m, r) ==> n.m == m)
  }

  /** Both machines take one turn, and the frame machines they follow arrive at the same place. */
  lemma TurnsMatch(w: Rewriting, base: int, m: Memory, r: Regs, s: State, m': Memory, r': Regs, t: State,
                   n: NativeResult, n': NativeResult) returns (e: End)
    requires Sound(w) && BothLive(w, base, m, r, s, m', r', t)
    requires 0 <= base <= r.sp < |m.stack| && base <= r'.sp < |m'.stack|
    requires Answers(w.a, m, r, n) && Answers(w.b, m', r', n') && n.m.sp == n'.m.sp
    requires var p, q := FrameStep(w.a, base, s, EffectOf(m, r, n)), FrameStep(w.b, base, t, EffectOf(m', r', n'));
             if p.Goes? then q.Goes? && Tracks(w.a, w.b, w.l, w.u, base, p.s, q.s) else p == q
    ensures SameOutcome(w, base, m, m', FlatStep(w.a, m, r, n), FlatStep(w.b, m', r', n'), e)
    ensures AsDeclared(w.a, s, FlatStep(w.a, m, r, n), e)
  {
    hide Rewrites, DefinitelyAssigned, Checked, Tracks, FlatStep, FrameStep, Encodes, Typed, CallsOut, Preserved;
    StepFollows(w.a, w.da, m, r, base, s, n);
    StepFollows(w.b, w.db, m', r', base, t, n');
    LiveFacts(w.a, w.da, m, r, base, s);
    StepKeepsOutermost(w.a, w.da, base, s, EffectOf(m, r, n));
    var p, q := FrameStep(w.a, base, s, EffectOf(m, r, n)), FrameStep(w.b, base, t, EffectOf(m', r', n'));
    e := End(if p.Ends? then p.value else None, if p.Goes? then p.s else s, if q.Goes? then q.s else t);
  }

  lemma BothFacts(w: Rewriting, base: int, m: Memory, r: Regs, s: State, m': Memory, r': Regs, t: State)
    requires BothLive(w, base, m, r, s, m', r', t)
    ensures 0 <= base <= r.sp < |m.stack| && base <= r'.sp < |m'.stack|
    ensures |m.stack[r.sp + 1..]| >= HEADROOM && |m'.stack[r'.sp + 1..]| >= HEADROOM
    ensures r.cp == s.cp && r'.cp == t.cp && m.heap == s.heap && m'.heap == t.heap
    ensures r.sp == StackTop(base, s) && r'.sp == StackTop(base, t)
  {
    hide Live, Tracks;
    LiveFacts(w.a, w.da, m, r, base, s);
    LiveFacts(w.b, w.db, m', r', base, t);
  }

  predicate SameAnswers(n: NativeResult, n': NativeResult)
  {
    n.m.heap == n'.m.heap && n.m.sp == n'.m.sp && n.lo == n'.lo && n.hi == n'.hi
  }

  /** An instruction kept as it is: both machines take it. */
  lemma PlainTurns(w: Rewriting, base: int, m: Memory, r: Regs, s: State, m': Memory, r': Regs, t: State,
                   n: NativeResult, n': NativeResult) returns (e: End)
    requires Sound(w) && BothLive(w, base, m, r, s, m', r', t) && SameState(w.l, w.u, s, t)
    requires Same(w.a, w.b, w.l, s.cp, Fetch(w.a, s.cp), t.cp, Fetch(w.b, t.cp))
    requires Answers(w.a, m, r, n) && Answers(w.b, m', r', n') && SameAnswers(n, n')
    ensures 0 <= base < |m.stack| && base < |m'.stack|
    ensures SameOutcome(w, base, m, m', FlatStep(w.a, m, r, n), FlatStep(w.b, m', r', n'), e)
    ensures AsDeclared(w.a, s, FlatStep(w.a, m, r, n), e)
  {
    hide Rewrites, DefinitelyAssigned, Checked, Live, FlatStep, FrameStep, Same, Answers, SameState, Midway,
         SameOutcome;
    BothFacts(w, base, m, r, s, m', r', t);
    LiveFacts(w.a, w.da, m, r, base, s);
    CheckedHere(w.a, w.da, s);
    PlainStepRewrites(w.a, w.b, w.l, w.u, base, s, t, EffectOf(m, r, n), EffectOf(m', r', n'));
    e := TurnsMatch(w, base, m, r, s, m', r', t, n, n');
  }

  lemma NotCalling(img: Image, m: Memory, r: Regs, n: NativeResult)
    requires !Fetch(img, r.cp).CallNative? && n.m == m
    ensures !CallsOut(img, m, r) && Answers(img, m, r, n)
  {
    hide Decode, Trap, Reads;
  }

  /** The comparison of a fused pair: the old machine takes it, the new one waits, unless it fails;
      then the fused jump fails alike. */
  lemma FirstTurn(w: Rewriting, base: int, m: Memory, r: Regs, s: State, m': Memory, r': Regs, t: State,
                  n: NativeResult, n': NativeResult) returns (e: End)
    requires Sound(w) && BothLive(w, base, m, r, s, m', r', t) && SameState(w.l, w.u, s, t)
    requires !Same(w.a, w.b, w.l, s.cp, Fetch(w.a, s.cp), t.cp, Fetch(w.b, t.cp)) && n.m == m && n'.m == m'
    ensures 0 <= base < |m.stack| && base < |m'.stack|
    ensures !CallsOut(w.a, m, r) && !CallsOut(w.b, m', r')
    ensures var o := FlatStep(w.a, m, r, n);
            && AsDeclared(w.a, s, o, e)
            && if o.Running?
               then BothLive(w, base, o.m, o.r, e.s, m', r', t) && e.t == t && Midway(w.a, w.b, w.l, w.u, base, e.s, t)
               else SameOutcome(w, base, m, m', o, FlatStep(w.b, m', r', n'), e)
  {
    hide Rewrites, DefinitelyAssigned, Checked, Live, FlatStep, FrameStep, Same, SameState, Midway, SameOutcome, Fused;
    BothFacts(w, base, m, r, s, m', r', t);
    IsFused(w.a, w.b, w.l, w.u, s, t);
    FusedInstructions(w.a, w.l, s.cp, Fetch(w.a, s.cp), t.cp, Fetch(w.b, t.cp));
    NotCalling(w.a, m, r, n);
    NotCalling(w.b, m', r', n');
    var p := FrameStep(w.a, base, s, EffectOf(m, r, n));
    FusedFirst(w.a, w.b, w.l, w.u, base, s, t, EffectOf(m, r, n), EffectOf(m', r', n'));
    if p.Goes? {
      e := ComparisonTaken(w, base, m, r, s, m', r', t, n);
    } else {
      e := TurnsMatch(w, base, m, r, s, m', r', t, n, n');
      StepOfGoing(w, base, m, r, s, n);
    }
  }

  lemma FusedInstructions(a: Image, l: Layout, cp: int, i: Instr, cp': int, j: Instr)
    requires Fused(a, l, cp, i, cp', j)
    ensures i.Simple? && j.Branch?
  {
    hide Decode;
  }

  /** The flat machine runs on exactly if the frame machine does. */
  lemma StepOfGoing(w: Rewriting, base: int, m: Memory, r: Regs, s: State, n: NativeResult)
    requires Sound(w) && Live(w.a, w.da, m, r, base, s) && Answers(w.a, m, r, n) && 0 <= base <= r.sp < |m.stack|
    ensures FlatStep(w.a, m, r, n).Running? <==> FrameStep(w.a, base, s, EffectOf(m, r, n)).Goes?
  {
    hide Rewrites, DefinitelyAssigned, Checked, FlatStep, FrameStep, Encodes, Typed, CallsOut, Preserved;
    StepFollows(w.a, w.da, m, r, base, s, n);
  }

  lemma ComparisonTaken(w: Rewriting, base: int, m: Memory, r: Regs, s: State, m': Memory, r': Regs, t: State,
                        n: NativeResult) returns (e: End)
    requires Sound(w) && BothLive(w, base, m, r, s, m', r', t) && 0 <= base <= r.sp < |m.stack|
    requires !CallsOut(w.a, m, r) && n.m == m
    requires var p := FrameStep(w.a, base, s, EffectOf(m, r, n));
             p.Goes? && Midway(w.a, w.b, w.l, w.u, base, p.s, t)
    ensures var o := FlatStep(w.a, m, r, n);
            && o.Running? && AsDeclared(w.a, s, o, e) && Midway(w.a, w.b, w.l, w.u, base, e.s, t)
            && BothLive(w, base, o.m, o.r, e.s, m', r', t) && e.t == t
  {
    hide Rewrites, DefinitelyAssigned, Checked, FlatStep, FrameStep, Encodes, Typed, CallsOut, Midway,
         SameState, Preserved;
    StepFollows(w.a, w.da, m, r, base, s, n);
    LiveFacts(w.a, w.da, m, r, base, s);
    StepKeepsOutermost(w.a, w.da, base, s, EffectOf(m, r, n));
    e := End(None, FrameStep(w.a, base, s, EffectOf(m, r, n)).s, t);
  }

  /** The JumpNonZero and the fused jump. */
  lemma SecondTurns(w: Rewriting, base: int, m: Memory, r: Regs, s: State, m': Memory, r': Regs, t: State,
                    n: NativeResult, n': NativeResult) returns (e: End)
    requires Sound(w) && BothLive(w, base, m, r, s, m', r', t) && Midway(w.a, w.b, w.l, w.u, base, s, t)
    requires n.m == m && n'.m == m'
    ensures 0 <= base < |m.stack| && base < |m'.stack|
    ensures !CallsOut(w.a, m, r) && !CallsOut(w.b, m', r')
    ensures SameOutcome(w, base, m, m', FlatStep(w.a, m, r, n), FlatStep(w.b, m', r', n'), e)
    ensures AsDeclared(w.a, s, FlatStep(w.a, m, r, n), e)
  {
    hide DefinitelyAssigned, Checked, Live, FlatStep, FrameStep, SameState, SameOutcome, MethodsLaidOut,
         TablesLaidOut, Corresponds;
    BothFacts(w, base, m, r, s, m', r', t);
    MidwayInstructions(w, base, s, t);
    NotCalling(w.a, m, r, n);
    NotCalling(w.b, m', r', n');
    hide Midway;
    FusedSecond(w.a, w.b, w.l, w.u, base, s, t, EffectOf(m, r, n), EffectOf(m', r', n'));
    e := TurnsMatch(w, base, m, r, s, m', r', t, n, n');
  }

  lemma MidwayInstructions(w: Rewriting, base: int, s: State, t: State)
    requires Midway(w.a, w.b, w.l, w.u, base, s, t)
    ensures Fetch(w.a, s.cp).Branch? && Fetch(w.b, t.cp).Branch?
  {
    hide Decode, SameCallers, SameFrame;
  }

  // ---------------------------------------------------------------- events

  lemma TrapIsFrameTrap(img: Image, d: Depths, m: Memory, r: Regs, base: int, s: State)
    requires Checked(img, d) && Live(img, d, m, r, base, s)
    ensures var i := Fetch(img, s.cp);
            && r.cp == s.cp && Reads(i) <= |s.top.ops|
            && Within(m.stack, r.sp + 1 - Reads(i), Reads(i)) && Trap(img, m, r, i) == FrameTrap(img, base, s, i)
  {
    hide Decode, Trap, FrameTrap, CallersOk, Encodes;
    LiveFacts(img, d, m, r, base, s);
    CheckedHere(img, d, s);
    TrapSimulates(img, m, r, base, s);
  }

  /** Corresponding instructions call natives alike, from the same vm->sp. */
  lemma CallsOutAlike(w: Rewriting, base: int, m: Memory, r: Regs, s: State, m': Memory, r': Regs, t: State)
    requires Sound(w) && BothLive(w, base, m, r, s, m', r', t) && SameState(w.l, w.u, s, t)
    requires Same(w.a, w.b, w.l, s.cp, Fetch(w.a, s.cp), t.cp, Fetch(w.b, t.cp))
    ensures CallsOut(w.a, m, r) <==> CallsOut(w.b, m', r')
    ensures r.sp == r'.sp && m.heap == m'.heap
  {
    hide Decode, Trap, FrameTrap, Live, Checked, SameState, Midway, Same, DefinitelyAssigned, MethodsLaidOut,
         TablesLaidOut, Corresponds, Reads;
    TrapIsFrameTrap(w.a, w.da, m, r, base, s);
    TrapIsFrameTrap(w.b, w.db, m', r', base, t);
    BothFacts(w, base, m, r, s, m', r', t);
    SameTrap(w.a, w.b, w.l, w.u, base, s, t, Fetch(w.a, s.cp), Fetch(w.b, t.cp));
    SameReads(w.a, w.b, w.l, s.cp, Fetch(w.a, s.cp), t.cp, Fetch(w.b, t.cp));
    SameHeap(w, s, t);
  }

  lemma SameHeap(w: Rewriting, s: State, t: State)
    requires SameState(w.l, w.u, s, t)
    ensures s.heap == t.heap
  {
    hide SameCallers, SameFrame;
  }

  /** The memory a native is called with. */
  lemma NativeStarts(img: Image, d: Depths, m: Memory, r: Regs, base: int, s: State)
    requires Live(img, d, m, r, base, s) && CallsOut(img, m, r)
    ensures Roomy(img, m.(sp := r.sp))
  {
    hide CallsOut, Typed;
    LiveFacts(img, d, m, r, base, s);
    CallsOutBelowLimit(img, m, r);
  }

  /** After its callbacks a native answers. */
  lemma NativeAnswers(img: Image, d: Depths, m: Memory, r: Regs, calls: seq<Nested>, heap: Heap, lo: int, hi: int)
    requires Checked(img, d) && Roomy(img, m.(sp := r.sp)) && CallsOk(img, calls) && CallsOut(img, m, r)
    requires RunCalls(img, m.(sp := r.sp), calls).Returned?
    ensures Answers(img, m, r, NativeResult(RunCalls(img, m.(sp := r.sp), calls).m.(heap := heap), lo, hi))
  {
    hide Checked, CallsOut, RunCalls, NestedOk;
    CallsSound(img, d, m.(sp := r.sp), calls);
  }

  function NoCalls(e: Event): Event { Event([], e.heap, e.lo, e.hi) }

  lemma QuietEvent(img: Image, m: Memory, r: Regs, e: Event)
    requires !CallsOut(img, m, r)
    ensures EventStep(img, m, r, e) == FlatStep(img, m, r, NativeResult(m, e.lo, e.hi))
  {
    hide CallsOut, FlatStep;
  }

  lemma CallingEvent(img: Image, m: Memory, r: Regs, e: Event)
    requires CallsOut(img, m, r)
    ensures var o := RunCalls(img, m.(sp := r.sp), e.calls);
            EventStep(img, m, r, e) ==
              if o.Returned? then FlatStep(img, m, r, NativeResult(o.m.(heap := e.heap), e.lo, e.hi)) else o
  {
    hide CallsOut, FlatStep, RunCalls;
  }

  lemma QuietAnswers(img: Image, m: Memory, r: Regs, lo: int, hi: int)
    requires !CallsOut(img, m, r)
    ensures Answers(img, m, r, NativeResult(m, lo, hi))
  {
    hide CallsOut;
  }

  lemma BaseKept(img: Image, m: Memory, o: Outcome, base: int)
    requires Safe(img, m, o, base) && o.Running?
    ensures 0 <= base < |m.stack| == |o.m.stack| && o.m.stack[base] == m.stack[base]
  {
    assert o.m.stack[base] == o.m.stack[..base + 1][base] == m.stack[..base + 1][base];
  }

  lemma Joined(w: Rewriting, base: int, m: Memory, m': Memory, n: Memory, n': Memory, o: Outcome, o': Outcome, e: End)
    requires 0 <= base < |m.stack| == |n.stack| && base < |m'.stack| == |n'.stack|
    requires n.stack[base] == m.stack[base] && n'.stack[base] == m'.stack[base]
    requires SameOutcome(w, base, n, n', o, o', e)
    ensures SameOutcome(w, base, m, m', o, o', e)
  {
    hide BothLive;
  }
}
