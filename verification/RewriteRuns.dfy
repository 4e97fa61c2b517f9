/** Branch rewriting over whole runs of the interpreter: of two checked images, one the rewriting of
    the other, both return the same results and errors and leave the same heap when they are given the
    same natives and the same words, however deeply the natives call back, provided no method reads a
    local before it stores it. */
module RewriteRuns {
  import opened Words
  import opened Scode
  import opened FlatMachine
  import opened FrameMachine
  import opened StackCheck
  import opened Simulation
  import opened WholeRuns
  import opened BranchRewrite
  import opened RewriteTurns

  // ---------------------------------------------------------- the same events

  /** The old image has a comparison at `cp` that the new one has fused with the jump after it. */
  predicate Fuses(w: Rewriting, cp: int)
  {
    cp in w.l.code && Fused(w.a, w.l, cp, Fetch(w.a, cp), w.l.code[cp], Fetch(w.b, w.l.code[cp]))
  }

  /** Both are given the same heap and words, and where the old image calls a native from `m` and `r`,
      the natives call back alike. */
  predicate EventMatches(w: Rewriting, m: Memory, r: Regs, e: Event, f: Event)
    decreases e, 0
  {
    && e.heap == f.heap && e.lo == f.lo && e.hi == f.hi
    && (CallsOut(w.a, m, r) ==> CallsMatch(w, m.(sp := r.sp), e.calls, f.calls))
  }

  /** One callback for one, as far as they are run. */
  predicate CallsMatch(w: Rewriting, m: Memory, cs: seq<Nested>, ds: seq<Nested>)
    decreases cs, 0
  {
    if cs == [] || ds == [] then cs == ds
    else
      && NestedMatches(w, m, cs[0], ds[0])
      && var o := RunNested(w.a, m, cs[0]);
         o.Returned? || o.Failed? ==> CallsMatch(w, o.m, cs[1..], ds[1..])
  }

  /** The rewritten method with the same arguments and the same events. */
  predicate NestedMatches(w: Rewriting, m: Memory, c: Nested, d: Nested)
    decreases c, 0
  {
    && MapsMethod(w.l, c.entry, d.entry) && d.args == c.args
    && var o := Enter(w.a, m, c.entry, c.args);
       o.Running? ==> RunMatches(w, o.m, o.r, c.events, d.events)
  }

  /** The new image is given the events the old one is given in its run from `m` and `r`, without those
      of fused comparisons that succeed; what lies beyond the end of the run does not matter. */
  predicate RunMatches(w: Rewriting, m: Memory, r: Regs, es: seq<Event>, fs: seq<Event>)
    decreases es, 1
  {
    if es == [] then fs == []
    else
      var o := EventStep(w.a, m, r, es[0]);
      if Fuses(w, r.cp) && o.Running? then RunMatches(w, o.m, o.r, es[1..], fs)
      else
        && fs != [] && EventMatches(w, m, r, es[0], fs[0])
        && (o.Running? ==> RunMatches(w, o.m, o.r, es[1..], fs[1..]))
  }

  // ------------------------------------------------------ the same outcome

  /** A fused pair is met only in corresponding states; elsewhere the two instructions are the same, or
      the old machine is at the JumpNonZero. */
  lemma FusesFacts(w: Rewriting, base: int, m: Memory, r: Regs, s: State, m': Memory, r': Regs, t: State)
    requires Sound(w) && BothLive(w, base, m, r, s, m', r', t)
    ensures var same := Same(w.a, w.b, w.l, s.cp, Fetch(w.a, s.cp), t.cp, Fetch(w.b, t.cp));
            if Fuses(w, r.cp) then SameState(w.l, w.u, s, t) && !same
            else SameState(w.l, w.u, s, t) ==> same
  {
    hide Rewrites, DefinitelyAssigned, Checked, Live, Same, Fused, SameCallers, SameFrame;
    BothFacts(w, base, m, r, s, m', r', t);
    if !SameState(w.l, w.u, s, t) {
      NotAtBranch(w, s);
    } else if Fuses(w, r.cp) {
      FusedIsNotSame(w, s.cp, t.cp);
    } else if !Same(w.a, w.b, w.l, s.cp, Fetch(w.a, s.cp), t.cp, Fetch(w.b, t.cp)) {
      IsFused(w.a, w.b, w.l, w.u, s, t);
    }
  }

  lemma NotAtBranch(w: Rewriting, s: State)
    requires Fetch(w.a, s.cp).Branch?
    ensures !Fuses(w, s.cp)
  {
    hide Decode;
  }

  lemma FusedIsNotSame(w: Rewriting, cp: int, cp': int)
    requires Fused(w.a, w.l, cp, Fetch(w.a, cp), cp', Fetch(w.b, cp'))
    ensures !Same(w.a, w.b, w.l, cp, Fetch(w.a, cp), cp', Fetch(w.b, cp'))
  {
    hide Decode;
  }

  /** One event of each, not at a fused pair. */
  lemma {:induction false} EventAlike(w: Rewriting, base: int, m: Memory, r: Regs, s: State,
                                      m': Memory, r': Regs, t: State, ev: Event, f: Event) returns (e: End)
    requires Sound(w) && BothLive(w, base, m, r, s, m', r', t) && EventOk(w.a, ev) && EventOk(w.b, f)
    requires EventMatches(w, m, r, ev, f) && !Fuses(w, r.cp)
    ensures 0 <= base < |m.stack| && base < |m'.stack|
    ensures SameOutcome(w, base, m, m', EventStep(w.a, m, r, ev), EventStep(w.b, m', r', f), e)
    ensures AsDeclared(w.a, s, EventStep(w.a, m, r, ev), e)
    decreases ev, 1
  {
    hide Sound, Live, SameState, Midway, Same, Fuses, SameOutcome, FlatStep, CallsOut, EventStep, RunCalls, EventOk,
         CallsMatch, Answers, AsDeclared;
    FusesFacts(w, base, m, r, s, m', r', t);
    if SameState(w.l, w.u, s, t) {
      e := PlainAlike(w, base, m, r, s, m', r', t, ev, f);
    } else {
      e := SecondTurns(w, base, m, r, s, m', r', t, NativeResult(m, ev.lo, ev.hi), NativeResult(m', f.lo, f.hi));
      QuietEvent(w.a, m, r, ev);
      QuietEvent(w.b, m', r', f);
    }
  }

  lemma {:induction false} PlainAlike(w: Rewriting, base: int, m: Memory, r: Regs, s: State,
                                      m': Memory, r': Regs, t: State, ev: Event, f: Event) returns (e: End)
    requires Sound(w) && BothLive(w, base, m, r, s, m', r', t) && EventOk(w.a, ev) && EventOk(w.b, f)
    requires SameState(w.l, w.u, s, t) && EventMatches(w, m, r, ev, f)
    requires Same(w.a, w.b, w.l, s.cp, Fetch(w.a, s.cp), t.cp, Fetch(w.b, t.cp))
    ensures 0 <= base < |m.stack| && base < |m'.stack|
    ensures SameOutcome(w, base, m, m', EventStep(w.a, m, r, ev), EventStep(w.b, m', r', f), e)
    ensures AsDeclared(w.a, s, EventStep(w.a, m, r, ev), e)
    decreases ev, 0
  {
    hide Rewrites, DefinitelyAssigned, Checked, Live, SameState, Midway, Same, FlatStep, CallsOut, EventStep, RunCalls,
         NestedOk, CallsMatch, Answers, SameOutcome, AsDeclared;
    BothFacts(w, base, m, r, s, m', r', t);
    CallsOutAlike(w, base, m, r, s, m', r', t);
    if CallsOut(w.a, m, r) {
      NativeStarts(w.a, w.da, m, r, base, s);
      NativeStarts(w.b, w.db, m', r', base, t);
      CallsAlike(w, m.(sp := r.sp), m'.(sp := r'.sp), ev.calls, f.calls);
      CallingEvent(w.a, m, r, ev);
      CallingEvent(w.b, m', r', f);
      var o, o' := RunCalls(w.a, m.(sp := r.sp), ev.calls), RunCalls(w.b, m'.(sp := r'.sp), f.calls);
      if o.Returned? {
        NativeAnswers(w.a, w.da, m, r, ev.calls, ev.heap, ev.lo, ev.hi);
        NativeAnswers(w.b, w.db, m', r', f.calls, f.heap, f.lo, f.hi);
        e := PlainTurns(w, base, m, r, s, m', r', t, NativeResult(o.m.(heap := ev.heap), ev.lo, ev.hi),
                        NativeResult(o'.m.(heap := f.heap), f.lo, f.hi));
      } else {
        OutermostKnown(w, base, m, r, s);
        e := StillCalling(w, base, m, s, m', t, o, o');
      }
    } else {
      QuietEvent(w.a, m, r, ev);
      QuietEvent(w.b, m', r', f);
      QuietAnswers(w.a, m, r, ev.lo, ev.hi);
      QuietAnswers(w.b, m', r', f.lo, f.hi);
      e := PlainTurns(w, base, m, r, s, m', r', t, NativeResult(m, ev.lo, ev.hi), NativeResult(m', f.lo, f.hi));
    }
  }

  lemma OutermostKnown(w: Rewriting, base: int, m: Memory, r: Regs, s: State)
    requires Live(w.a, w.da, m, r, base, s)
    ensures Outermost(s) in w.a.results
  {
    hide CallersOk;
    LiveFacts(w.a, w.da, m, r, base, s);
    OutermostIsMethod(w.a, w.da, s.callers, s.top);
  }

  /** Callbacks that have not finished, or have no meaning. */
  lemma StillCalling(w: Rewriting, base: int, m: Memory, s: State, m': Memory, t: State, o: Outcome, o': Outcome)
      returns (e: End)
    requires 0 <= base < |m.stack| && base < |m'.stack|
    requires SameEnd(o, o') && (o.Suspended? || o.Undefined?) && Outermost(s) in w.a.results
    ensures SameOutcome(w, base, m, m', o, o', e) && AsDeclared(w.a, s, o, e)
  {
    e := End(None, s, t);
  }

  /** Natives that call back alike leave the same heap and vm->sp. */
  lemma {:induction false} CallsAlike(w: Rewriting, m: Memory, m': Memory, cs: seq<Nested>, ds: seq<Nested>)
    requires Sound(w) && Roomy(w.a, m) && Roomy(w.b, m') && m.sp == m'.sp && m.heap == m'.heap
    requires CallsOk(w.a, cs) && CallsOk(w.b, ds) && CallsMatch(w, m, cs, ds)
    ensures var o := RunCalls(w.a, m, cs);
            SameEnd(o, RunCalls(w.b, m', ds)) && (o.Returned? || o.Suspended? || o.Undefined?)
    decreases cs, 0
  {
    hide Rewrites, DefinitelyAssigned, Checked, RunNested, NestedOk, NestedMatches;
    CallsSound(w.a, w.da, m, cs);
    if cs != [] && ds != [] {
      NestedAlike(w, m, m', cs[0], ds[0]);
      NestedSound(w.a, w.da, m, cs[0]);
      NestedSound(w.b, w.db, m', ds[0]);
      var o, o' := RunNested(w.a, m, cs[0]), RunNested(w.b, m', ds[0]);
      if o.Returned? || o.Failed? { CallsAlike(w, o.m, o'.m, cs[1..], ds[1..]); }
    }
  }

  /** One vmCall: the rewritten method entered with the same arguments and events ends alike. */
  lemma {:induction false} NestedAlike(w: Rewriting, m: Memory, m': Memory, c: Nested, d: Nested)
    requires Sound(w) && Roomy(w.a, m) && Roomy(w.b, m') && m.sp == m'.sp && m.heap == m'.heap
    requires NestedOk(w.a, c) && NestedOk(w.b, d) && NestedMatches(w, m, c, d)
    ensures var o, o' := RunNested(w.a, m, c), RunNested(w.b, m', d); SameCall(w, c.entry, m, m', o, o')
    decreases c, 0
  {
    hide Rewrites, DefinitelyAssigned, Checked, Run, Enter, Live, Tracks, SameState, RunMatches;
    var entry := MethodRewritten(w, c.entry);
    if NumParams(w.a, c.entry) == |c.args| {
      var s, t := Entered(w, m, m', c.entry, d.entry, c.args);
      var o, o' := Enter(w.a, m, c.entry, c.args), Enter(w.b, m', d.entry, c.args);
      var e := RunAlike(w, m.sp, o.m, o.r, s, o'.m, o'.r, t, c.events, d.events);
      NestedEnds(w, m, m', c, d, s, t, e);
    } else {
      WrongArity(w.a, m, c);
      WrongArity(w.b, m', d);
    }
  }

  /** Runs given the same events end alike, or go on from corresponding states. */
  lemma {:induction false} RunAlike(w: Rewriting, base: int, m: Memory, r: Regs, s: State,
                                    m': Memory, r': Regs, t: State, es: seq<Event>, fs: seq<Event>) returns (e: End)
    requires Sound(w) && BothLive(w, base, m, r, s, m', r', t)
    requires EventsOk(w.a, es) && EventsOk(w.b, fs) && RunMatches(w, m, r, es, fs)
    ensures 0 <= base < |m.stack| && base < |m'.stack|
    ensures SameOutcome(w, base, m, m', Run(w.a, m, r, es), Run(w.b, m', r', fs), e)
    ensures AsDeclared(w.a, s, Run(w.a, m, r, es), e)
    decreases es, 1
  {
    hide Sound, BothLive, EventStep, EventOk, EventMatches, Fuses, SameOutcome, AsDeclared;
    BothFacts(w, base, m, r, s, m', r', t);
    if es == [] {
      e := End(None, s, t);
      NothingRun(w, base, m, r, s, m', r', t);
    } else if Fuses(w, r.cp) {
      e := FusedAlike(w, base, m, r, s, m', r', t, es, fs);
      var o := EventStep(w.a, m, r, es[0]);
      if o.Running? {
        var e0 := e;
        e := RunAlike(w, base, o.m, o.r, e0.s, m', r', t, es[1..], fs);
        StackKept(w, base, m, r, s, m', r', t, es[0], fs);
        Joined(w, base, m, m', o.m, m', Run(w.a, o.m, o.r, es[1..]), Run(w.b, m', r', fs), e);
        DeclaredOn(w.a, s, o, e0, Run(w.a, o.m, o.r, es[1..]), e);
      }
    } else {
      e := EventAlike(w, base, m, r, s, m', r', t, es[0], fs[0]);
      var o, o' := EventStep(w.a, m, r, es[0]), EventStep(w.b, m', r', fs[0]);
      RunningAlike(w, base, m, m', o, o', e);
      if o.Running? {
        var e0 := e;
        e := RunAlike(w, base, o.m, o.r, e0.s, o'.m, o'.r, e0.t, es[1..], fs[1..]);
        StackKept(w, base, m, r, s, m', r', t, es[0], fs);
        Joined(w, base, m, m', o.m, o'.m, Run(w.a, o.m, o.r, es[1..]), Run(w.b, o'.m, o'.r, fs[1..]), e);
        DeclaredOn(w.a, s, o, e0, Run(w.a, o.m, o.r, es[1..]), e);
      }
    }
  }

  /** A step leaves the cell at `base`. */
  lemma StackKept(w: Rewriting, base: int, m: Memory, r: Regs, s: State, m': Memory, r': Regs, t: State,
                  ev: Event, fs: seq<Event>)
    requires Sound(w) && BothLive(w, base, m, r, s, m', r', t) && EventOk(w.a, ev) && EventsOk(w.b, fs)
    ensures 0 <= base < |m.stack| && base < |m'.stack|
    ensures var o := EventStep(w.a, m, r, ev);
            o.Running? ==> |o.m.stack| == |m.stack| && o.m.stack[base] == m.stack[base]
    ensures fs != [] ==>
              var o := EventStep(w.b, m', r', fs[0]);
              o.Running? ==> |o.m.stack| == |m'.stack| && o.m.stack[base] == m'.stack[base]
  {
    hide Rewrites, DefinitelyAssigned, Checked, Live, Tracks, EventStep, EventOk, Safe, Follows;
    BothFacts(w, base, m, r, s, m', r', t);
    var o := EventStep(w.a, m, r, ev);
    EventSound(w.a, w.da, m, r, base, s, ev);
    if o.Running? { BaseKept(w.a, m, o, base); }
    if fs != [] {
      EventSound(w.b, w.db, m', r', base, t, fs[0]);
      var o' := EventStep(w.b, m', r', fs[0]);
      if o'.Running? { BaseKept(w.b, m', o', base); }
    }
  }

  /** The comparison of a fused pair: the new machine waits, or both fail alike. */
  lemma FusedAlike(w: Rewriting, base: int, m: Memory, r: Regs, s: State,
                   m': Memory, r': Regs, t: State, es: seq<Event>, fs: seq<Event>) returns (e: End)
    requires Sound(w) && BothLive(w, base, m, r, s, m', r', t)
    requires es != [] && Fuses(w, r.cp) && RunMatches(w, m, r, es, fs)
    ensures 0 <= base < |m.stack| && base < |m'.stack|
    ensures var o := EventStep(w.a, m, r, es[0]);
            && AsDeclared(w.a, s, o, e)
            && if o.Running? then BothLive(w, base, o.m, o.r, e.s, m', r', t)
               else SameOutcome(w, base, m, m', Run(w.a, m, r, es), Run(w.b, m', r', fs), e)
  {
    hide Sound, Live, SameState, Midway, Same, Fuses, SameOutcome, FlatStep, CallsOut, EventStep, CallsMatch,
         AsDeclared;
    FusesFacts(w, base, m, r, s, m', r', t);
    var lo, hi := es[0].lo, es[0].hi;
    e := FirstTurn(w, base, m, r, s, m', r', t, NativeResult(m, lo, hi), NativeResult(m', lo, hi));
    QuietEvent(w.a, m, r, es[0]);
    var o := FlatStep(w.a, m, r, NativeResult(m, lo, hi));
    if !o.Running? {
      QuietEvent(w.b, m', r', fs[0]);
      BothFacts(w, base, m, r, s, m', r', t);
      NotRunningAlike(w, base, m, m', o, FlatStep(w.b, m', r', NativeResult(m', lo, hi)), e);
    }
  }

  lemma NotRunningAlike(w: Rewriting, base: int, m: Memory, m': Memory, o: Outcome, o': Outcome, e: End)
    requires 0 <= base < |m.stack| && base < |m'.stack| && SameOutcome(w, base, m, m', o, o', e) && !o.Running?
    ensures !o'.Running?
  {
    hide BothLive;
  }

  lemma NothingRun(w: Rewriting, base: int, m: Memory, r: Regs, s: State, m': Memory, r': Regs, t: State)
    requires Sound(w) && BothLive(w, base, m, r, s, m', r', t) && 0 <= base < |m.stack| && base < |m'.stack|
    ensures SameOutcome(w, base, m, m', Running(m, r), Running(m', r'), End(None, s, t))
    ensures AsDeclared(w.a, s, Running(m, r), End(None, s, t))
  {
    hide Rewrites, DefinitelyAssigned, Checked, Tracks, Live;
    OutermostKnown(w, base, m, r, s);
  }

  lemma RunningAlike(w: Rewriting, base: int, m: Memory, m': Memory, o: Outcome, o': Outcome, e: End)
    requires 0 <= base < |m.stack| && base < |m'.stack| && SameOutcome(w, base, m, m', o, o', e)
    ensures o.Running? ==> o'.Running? && BothLive(w, base, o.m, o.r, e.s, o'.m, o'.r, e.t)
    ensures o'.Running? ==> o.Running?
  {
    hide BothLive;
  }

  lemma DeclaredOn(img: Image, s: State, o: Outcome, e: End, p: Outcome, f: End)
    requires o.Running? && AsDeclared(img, s, o, e) && AsDeclared(img, e.s, p, f)
    ensures AsDeclared(img, s, p, f)
  {
  }

  // ---------------------------------------------------------------- entry

  lemma MethodRewritten(w: Rewriting, entry: int) returns (entry': int)
    requires Sound(w) && IsMethod(w.a, entry)
    ensures MapsMethod(w.l, entry, entry') && IsMethod(w.b, entry')
    ensures NumParams(w.b, entry') == NumParams(w.a, entry) && NumLocals(w.b, entry') == NumLocals(w.a, entry)
    ensures w.b.results[entry'] == w.a.results[entry]
  {
    hide Corresponds, TablesLaidOut, DefinitelyAssigned, Checked, NumParams, NumLocals;
    entry' := w.l.methods[entry];
  }

  lemma WrongArity(img: Image, m: Memory, call: Nested)
    requires NumParams(img, call.entry) != |call.args|
    ensures RunNested(img, m, call) == Failed(m, ERR_INVALID_METHOD_PARAMS)
  {
  }

  /** Both machines as a method is entered; its locals hold whatever lies above vm->sp. */
  lemma Entered(w: Rewriting, m: Memory, m': Memory, entry: int, entry': int, args: seq<int>)
      returns (s: State, t: State)
    requires Sound(w) && Roomy(w.a, m) && Roomy(w.b, m') && m.sp == m'.sp && m.heap == m'.heap
    requires IsMethod(w.a, entry) && IsMethod(w.b, entry') && MapsMethod(w.l, entry, entry')
    requires NumParams(w.a, entry) == NumParams(w.b, entry') == |args|
    requires NumLocals(w.b, entry') == NumLocals(w.a, entry)
    ensures var o, o' := Enter(w.a, m, entry, args), Enter(w.b, m', entry', args);
            && o.Running? && o'.Running? && BothLive(w, m.sp, o.m, o.r, s, o'.m, o'.r, t)
            && Preserved(w.a, m, o.m, m.sp) && Preserved(w.b, m', o'.m, m.sp)
    ensures Outermost(s) == entry && SameState(w.l, w.u, s, t)
  {
    hide Checked, Live, Typed, Corresponds, TablesLaidOut;
    EnterEncodes(w.a, w.da, m, entry, args);
    EnterEncodes(w.b, w.db, m', entry', args);
    var at := m.sp + |args| + 4;
    s := StartState(entry, args, m.stack[at..at + NumLocals(w.a, entry)], m.heap);
    t := StartState(entry', args, m'.stack[at..at + NumLocals(w.b, entry')], m'.heap);
    StartsAlike(w, s, t);
  }

  lemma StartsAlike(w: Rewriting, s: State, t: State)
    requires Sound(w) && s.top.entry in w.a.results && MapsMethod(w.l, s.top.entry, t.top.entry)
    requires s.callers == t.callers == [] && s.cp == s.top.entry + 2 && t.cp == t.top.entry + 2 && s.heap == t.heap
    requires s.top.params == t.top.params && s.top.ops == t.top.ops && |s.top.locals| == |t.top.locals|
    requires s.top.returnCp == t.top.returnCp == 0
    ensures SameState(w.l, w.u, s, t)
  {
    hide Checked, Corresponds, TablesLaidOut, NumParams, NumLocals;
  }

  /** At every moment both hold the same heap. */
  lemma LiveSameHeap(w: Rewriting, base: int, m: Memory, r: Regs, s: State, m': Memory, r': Regs, t: State)
    requires BothLive(w, base, m, r, s, m', r', t)
    ensures m.heap == m'.heap && m.sp == m'.sp
  {
    hide Live, SameCallers, SameFrame, Decode;
    BothFacts(w, base, m, r, s, m', r', t);
  }

  /** From the outcome of the run to that of the call. */
  lemma NestedEnds(w: Rewriting, m: Memory, m': Memory, call: Nested, call': Nested, s: State, t: State, e: End)
    requires var o, o' := Enter(w.a, m, call.entry, call.args), Enter(w.b, m', call'.entry, call'.args);
             && o.Running? && o'.Running? && 0 <= m.sp < |o.m.stack| && m.sp < |o'.m.stack|
             && Preserved(w.a, m, o.m, m.sp) && Preserved(w.b, m', o'.m, m.sp)
             && var p := Run(w.a, o.m, o.r, call.events);
                && SameOutcome(w, m.sp, o.m, o'.m, p, Run(w.b, o'.m, o'.r, call'.events), e)
                && AsDeclared(w.a, s, p, e)
    requires Outermost(s) == call.entry
    ensures m.sp < |m.stack| && m.sp < |m'.stack| && 0 <= m.sp && call.entry in w.a.results
    ensures var o, o' := RunNested(w.a, m, call), RunNested(w.b, m', call'); SameCall(w, call.entry, m, m', o, o')
  {
    hide Run, Enter, BothLive;
    var o, o' := Enter(w.a, m, call.entry, call.args), Enter(w.b, m', call'.entry, call'.args);
    var p, p' := Run(w.a, o.m, o.r, call.events), Run(w.b, o'.m, o'.r, call'.events);
    if p.Running? { LiveSameHeap(w, m.sp, p.m, p.r, e.s, p'.m, p'.r, e.t); }
    var sp := m.sp;
    assert o.m.stack[sp] == o.m.stack[..sp + 1][sp] == m.stack[..sp + 1][sp] == m.stack[sp];
    assert o'.m.stack[sp] == o'.m.stack[..sp + 1][sp] == m'.stack[..sp + 1][sp] == m'.stack[sp];
  }

  // ------------------------------------------------- from the old to the new

  lemma {:induction false} EventRewritten(w: Rewriting, m: Memory, r: Regs, e: Event) returns (f: Event)
    requires Sound(w) && EventOk(w.a, e)
    ensures EventMatches(w, m, r, e, f) && EventOk(w.b, f)
    decreases e, 0
  {
    hide Sound, CallsOut, CallsMatch, NestedOk;
    f := NoCalls(e);
    if CallsOut(w.a, m, r) {
      var calls := CallsRewritten(w, m.(sp := r.sp), e.calls);
      f := Event(calls, e.heap, e.lo, e.hi);
    }
  }

  lemma {:induction false} CallsRewritten(w: Rewriting, m: Memory, cs: seq<Nested>) returns (ds: seq<Nested>)
    requires Sound(w) && CallsOk(w.a, cs)
    ensures CallsMatch(w, m, cs, ds) && CallsOk(w.b, ds) && |ds| == |cs|
    decreases cs, 0
  {
    hide Sound, NestedMatches, NestedOk, RunNested;
    ds := [];
    if cs != [] {
      var d := NestedRewritten(w, m, cs[0]);
      var o := RunNested(w.a, m, cs[0]);
      var rest := CallsRewritten(w, if o.Returned? || o.Failed? then o.m else m, cs[1..]);
      ds := [d] + rest;
      assert ds[1..] == rest;
    }
  }

  lemma {:induction false} NestedRewritten(w: Rewriting, m: Memory, c: Nested) returns (d: Nested)
    requires Sound(w) && NestedOk(w.a, c)
    ensures NestedMatches(w, m, c, d) && NestedOk(w.b, d) && |d.events| <= |c.events|
    decreases c, 0
  {
    hide Sound, Enter, RunMatches, EventOk;
    var entry := MethodRewritten(w, c.entry);
    d := Nested(entry, c.args, []);
    var o := Enter(w.a, m, c.entry, c.args);
    if o.Running? {
      var fs := RunRewritten(w, o.m, o.r, c.events);
      d := Nested(entry, c.args, fs);
    }
  }

  /** Every run of the old image has its events for the new one. */
  lemma {:induction false} RunRewritten(w: Rewriting, m: Memory, r: Regs, es: seq<Event>) returns (fs: seq<Event>)
    requires Sound(w) && EventsOk(w.a, es)
    ensures RunMatches(w, m, r, es, fs) && EventsOk(w.b, fs) && |fs| <= |es|
    decreases es, 1
  {
    hide Sound, EventStep, EventMatches, EventOk, Fuses;
    fs := [];
    if es != [] {
      var o := EventStep(w.a, m, r, es[0]);
      var rest := [];
      if o.Running? { rest := RunRewritten(w, o.m, o.r, es[1..]); }
      if Fuses(w, r.cp) && o.Running? {
        fs := rest;
      } else {
        var f := EventRewritten(w, m, r, es[0]);
        fs := [f] + rest;
        assert fs[1..] == rest;
      }
    }
  }

  // ------------------------------------------------- from the new to the old

  lemma {:induction false} EventBefore(w: Rewriting, m: Memory, r: Regs, f: Event) returns (e: Event)
    requires Sound(w) && EventOk(w.b, f)
    ensures EventMatches(w, m, r, e, f) && EventOk(w.a, e)
    decreases f, 0
  {
    hide Sound, CallsOut, CallsMatch, NestedOk;
    e := NoCalls(f);
    if CallsOut(w.a, m, r) {
      var calls := CallsBefore(w, m.(sp := r.sp), f.calls);
      e := Event(calls, f.heap, f.lo, f.hi);
    }
  }

  lemma {:induction false} CallsBefore(w: Rewriting, m: Memory, ds: seq<Nested>) returns (cs: seq<Nested>)
    requires Sound(w) && CallsOk(w.b, ds)
    ensures CallsMatch(w, m, cs, ds) && CallsOk(w.a, cs) && |cs| == |ds|
    decreases ds, 0
  {
    hide Sound, NestedMatches, NestedOk, RunNested;
    cs := [];
    if ds != [] {
      var c := NestedBefore(w, m, ds[0]);
      var o := RunNested(w.a, m, c);
      var rest := CallsBefore(w, if o.Returned? || o.Failed? then o.m else m, ds[1..]);
      cs := [c] + rest;
      assert cs[1..] == rest;
    }
  }

  lemma {:induction false} NestedBefore(w: Rewriting, m: Memory, d: Nested) returns (c: Nested)
    requires Sound(w) && NestedOk(w.b, d)
    ensures NestedMatches(w, m, c, d) && NestedOk(w.a, c) && |c.events| <= 2 * |d.events|
    decreases d, 0
  {
    hide Sound, Enter, RunMatches, EventOk;
    var entry := MethodBefore(w, d.entry);
    c := Nested(entry, d.args, []);
    var o := Enter(w.a, m, entry, d.args);
    if o.Running? {
      var es := RunBefore(w, o.m, o.r, d.events);
      c := Nested(entry, d.args, es);
    }
  }

  /** Every sequence of events of the new image is that of a run of the old one. */
  lemma {:induction false} RunBefore(w: Rewriting, m: Memory, r: Regs, fs: seq<Event>) returns (es: seq<Event>)
    requires Sound(w) && EventsOk(w.b, fs)
    ensures RunMatches(w, m, r, es, fs) && EventsOk(w.a, es) && |es| <= 2 * |fs|
    decreases fs, 1
  {
    hide Sound, EventStep, EventMatches, EventOk, Fuses;
    es := [];
    if fs != [] {
      var e := EventBefore(w, m, r, fs[0]);
      var o := EventStep(w.a, m, r, e);
      if Fuses(w, r.cp) && o.Running? {
        FusedThenBranch(w, m, r, e);
        var e' := EventBefore(w, o.m, o.r, fs[0]);
        var p := EventStep(w.a, o.m, o.r, e');
        var rest := [];
        if p.Running? { rest := RunBefore(w, p.m, p.r, fs[1..]); }
        es := [e] + ([e'] + rest);
        assert es[1..] == [e'] + rest && ([e'] + rest)[1..] == rest;
      } else {
        var rest := [];
        if o.Running? { rest := RunBefore(w, o.m, o.r, fs[1..]); }
        es := [e] + rest;
        assert es[1..] == rest;
      }
    }
  }

  /** After the comparison of a fused pair comes its JumpNonZero. */
  lemma FusedThenBranch(w: Rewriting, m: Memory, r: Regs, e: Event)
    requires Fuses(w, r.cp) && EventStep(w.a, m, r, e).Running?
    ensures !Fuses(w, EventStep(w.a, m, r, e).r.cp)
  {
    hide Decode, Compute, Overwrite, RunCalls;
    QuietEvent(w.a, m, r, e);
  }

  lemma MethodBefore(w: Rewriting, entry': int) returns (entry: int)
    requires Sound(w) && IsMethod(w.b, entry')
    ensures MapsMethod(w.l, entry, entry') && IsMethod(w.a, entry)
    ensures NumParams(w.b, entry') == NumParams(w.a, entry) && NumLocals(w.b, entry') == NumLocals(w.a, entry)
    ensures w.b.results[entry'] == w.a.results[entry]
  {
    hide Corresponds, TablesLaidOut, DefinitelyAssigned, Checked, NumParams, NumLocals;
    entry :| entry in w.a.results && w.l.methods[entry] == entry';
  }

  // ------------------------------------------------------ what callers see

  /** Two memories a call may start from: whatever else is on the stacks, the heap, vm->sp and the
      cell there are the same, that cell being what a void call answers. */
  predicate SameStart(w: Rewriting, m: Memory, m': Memory)
  {
    && Roomy(w.a, m) && Roomy(w.b, m') && m.heap == m'.heap && m.sp == m'.sp && m.stack[m.sp] == m'.stack[m.sp]
  }

  /** The same end, result and heap. */
  predicate SameAnswer(o: Outcome, o': Outcome)
  {
    SameEnd(o, o') && (o.Returned? ==> o.value == o'.value)
  }

  /** A call of the old image and a call of the rewritten method with the same arguments, natives and
      words answer alike: every such pair of calls. */
  lemma RewritingAnswersAlike(w: Rewriting, m: Memory, m': Memory, call: Nested, call': Nested)
    requires Sound(w) && SameStart(w, m, m')
    requires NestedOk(w.a, call) && NestedOk(w.b, call') && NestedMatches(w, m, call, call')
    ensures SameAnswer(RunNested(w.a, m, call), RunNested(w.b, m', call'))
  {
    hide Sound, RunNested, NestedOk, NestedMatches;
    NestedAlike(w, m, m', call, call');
  }

  /** Every call of the old image has such a call of the new one, in no more events. */
  lemma RewriteMatchesRun(w: Rewriting, m: Memory, m': Memory, call: Nested) returns (call': Nested)
    requires Sound(w) && SameStart(w, m, m') && NestedOk(w.a, call)
    ensures NestedOk(w.b, call') && NestedMatches(w, m, call, call') && |call'.events| <= |call.events|
    ensures SameAnswer(RunNested(w.a, m, call), RunNested(w.b, m', call'))
  {
    hide Sound, RunNested, NestedOk, NestedMatches;
    call' := NestedRewritten(w, m, call);
    RewritingAnswersAlike(w, m, m', call, call');
  }

  /** And every call of the new image is such a call of an old one, in at most twice the events. */
  lemma RunMatchesRewrite(w: Rewriting, m: Memory, m': Memory, call': Nested) returns (call: Nested)
    requires Sound(w) && SameStart(w, m, m') && NestedOk(w.b, call')
    ensures NestedOk(w.a, call) && NestedMatches(w, m, call, call') && |call.events| <= 2 * |call'.events|
    ensures SameAnswer(RunNested(w.a, m, call), RunNested(w.b, m', call'))
  {
    hide Sound, RunNested, NestedOk, NestedMatches;
    call := NestedBefore(w, m, call');
    RewritingAnswersAlike(w, m, m', call, call');
  }

  /** The memory vmEntry calls from. */
  function WithSentinel(m: Memory): Memory
    requires |m.stack| > 0
  {
    m.(sp := 0, stack := m.stack[0 := -1])
  }

  /** vmEntry runs the rewritten program as it ran the old one, from any two stacks. */
  lemma VmEntryRewrites(w: Rewriting, m: Memory, m': Memory, methodOffset: int, args: seq<int>,
                        events: seq<Event>, events': seq<Event>)
    requires Sound(w) && Roomy(w.a, m.(sp := 0)) && Roomy(w.b, m'.(sp := 0)) && m.heap == m'.heap
    requires EventsOk(w.a, events) && EventsOk(w.b, events')
    requires var entry, entry' := U2(w.a.code, methodOffset) * BLOCK, U2(w.b.code, methodOffset) * BLOCK;
             && IsMethod(w.a, entry)
             && NestedMatches(w, WithSentinel(m), Nested(entry, args, events), Nested(entry', args, events'))
    ensures SameAnswer(VmEntry(w.a, m, methodOffset, args, events), VmEntry(w.b, m', methodOffset, args, events'))
  {
    hide Sound, RunNested, EventOk, RunMatches;
    var entry, entry' := U2(w.a.code, methodOffset) * BLOCK, U2(w.b.code, methodOffset) * BLOCK;
    var _ := MethodRewritten(w, entry);
    var call, call' := Nested(entry, args, events), Nested(entry', args, events');
    RewritingAnswersAlike(w, WithSentinel(m), WithSentinel(m'), call, call');
  }
}
