/** Why the rewriting asks that locals be stored first: two images that pass the static check, one the
    rewriting of the other, whose main method answers differently. The method at 32 returns a local it
    never stored; the cell holds a return address left there by the call the method at 16 made. */
module StaleLocals {
  import opened Words
  import opened Scode
  import opened FlatMachine
  import opened FrameMachine
  import opened StackCheck
  import opened WholeRuns
  import opened BranchRewrite
  import opened RewriteTurns
  import opened Sample

  /** main at 4 calls the methods at 16 and 32 and returns what the second returns; the method at 16
      jumps over nothing and calls the empty method at 28. */
  function NearOctet(i: int): byte
  {
    match i
    case 6 => 221 case 7 => 4 case 9 => 221 case 10 => 8 case 12 => 227
    case 18 => 142 case 19 => 2 case 20 => 221 case 21 => 7 case 23 => 226
    case 30 => 226 case 33 => 1 case 34 => 37 case 35 => 227
    case _ => 0
  }

  /** The same with a far jump, one octet longer. */
  function FarOctet(i: int): byte
  {
    match i
    case 6 => 221 case 7 => 4 case 9 => 221 case 10 => 8 case 12 => 227
    case 18 => 146 case 19 => 3 case 21 => 221 case 22 => 7 case 24 => 226
    case 30 => 226 case 33 => 1 case 34 => 37 case 35 => 227
    case _ => 0
  }

  const Results := map[4 := 1, 16 := 0, 28 := 0, 32 := 1]
  const Near := Image(seq(36, i => NearOctet(i)), Results, map[], map[], {}, 0, 100)
  const Far := Image(seq(36, i => FarOctet(i)), Results, map[], map[], {}, 0, 100)

  /** Code and headers of both, the jump at 18 being `j` octets long. */
  predicate MainCode(img: Image)
  {
    && Fetch(img, 6) == Call(16, false) && Fetch(img, 9) == Call(32, false) && Fetch(img, 12) == Return(1)
    && Fetch(img, 30) == Return(0) && Fetch(img, 34) == LoadVar(Locals, 0, false, 1) && Fetch(img, 35) == Return(1)
  }

  predicate JumpCode(img: Image, j: nat)
  {
    Fetch(img, 18) == Jump(j) && Fetch(img, 18 + j) == Call(28, false) && Fetch(img, 21 + j) == Return(0)
  }

  predicate Header(img: Image, entry: int, locals: nat)
  {
    NumParams(img, entry) == 0 && NumLocals(img, entry) == locals
  }

  predicate Headers(img: Image) { Header(img, 4, 0) && Header(img, 16, 0) && Header(img, 28, 0) && Header(img, 32, 1) }

  lemma NearDecodes(a: Image)
    requires a.code == seq(36, i => NearOctet(i))
    ensures MainCode(a) && JumpCode(a, 2) && Headers(a)
  {
    hide Fetch;
    LongForms(a, 6);
    LongForms(a, 9);
    ShortForms(a, 12);
    LongForms(a, 18);
    LongForms(a, 20);
    ShortForms(a, 23);
    ShortForms(a, 30);
    ShortForms(a, 34);
    ShortForms(a, 35);
  }

  lemma FarDecodes(b: Image)
    requires b.code == seq(36, i => FarOctet(i))
    ensures MainCode(b) && JumpCode(b, 3) && Headers(b)
  {
    hide Fetch;
    LongForms(b, 6);
    LongForms(b, 9);
    ShortForms(b, 12);
    LongForms(b, 18);
    LongForms(b, 21);
    ShortForms(b, 24);
    ShortForms(b, 30);
    ShortForms(b, 34);
    ShortForms(b, 35);
  }

  /** Instruction starts: those of the far form, the three in the method at 16 moved back by 3 - `j`. */
  function DepthsOf(j: nat): Depths
    requires 2 <= j <= 3
  {
    map[6 := (4, 0), 9 := (4, 0), 12 := (4, 1), 18 := (16, 0), 18 + j := (16, 0), 21 + j := (16, 0),
        30 := (28, 0), 34 := (32, 0), 35 := (32, 1)]
  }

  lemma MainChecks(img: Image, j: nat)
    requires 2 <= j <= 3 && MainCode(img) && Headers(img) && img.results == Results
    ensures var d := DepthsOf(j);
            && Checks(img, d, 6, 4, 0) && Checks(img, d, 9, 4, 0) && Checks(img, d, 12, 4, 1)
            && Checks(img, d, 30, 28, 0) && Checks(img, d, 34, 32, 0) && Checks(img, d, 35, 32, 1)
  {
    hide Fetch, NumParams, NumLocals;
  }

  lemma JumpChecks(img: Image, j: nat)
    requires 2 <= j <= 3 && JumpCode(img, j) && Headers(img) && img.results == Results
    ensures var d := DepthsOf(j);
            Checks(img, d, 18, 16, 0) && Checks(img, d, 18 + j, 16, 0) && Checks(img, d, 21 + j, 16, 0)
  {
    hide Fetch, NumParams, NumLocals;
  }

  lemma PairIsChecked(img: Image, j: nat)
    requires 2 <= j <= 3 && MainCode(img) && JumpCode(img, j) && Headers(img) && img.results == Results
    ensures Checked(img, DepthsOf(j))
  {
    hide MainCode, JumpCode, Headers, Checks;
    MainChecks(img, j);
    JumpChecks(img, j);
  }

  const Moves := Layout(map[6 := 6, 9 := 9, 12 := 12, 18 := 18, 20 := 21, 23 := 24, 30 := 30, 34 := 34, 35 := 35],
                        map entry | entry in Results :: entry)

  lemma MainCorresponds(a: Image, b: Image)
    requires MainCode(a) && MainCode(b)
    ensures Corresponds(a, b, Moves, 6) && Corresponds(a, b, Moves, 9) && Corresponds(a, b, Moves, 12)
            && Corresponds(a, b, Moves, 30) && Corresponds(a, b, Moves, 34) && Corresponds(a, b, Moves, 35)
  {
    hide Fetch;
  }

  lemma JumpCorresponds(a: Image, b: Image)
    requires JumpCode(a, 2) && JumpCode(b, 3)
    ensures Corresponds(a, b, Moves, 18) && Corresponds(a, b, Moves, 20) && Corresponds(a, b, Moves, 23)
  {
    hide Fetch;
  }

  lemma MethodsStay(a: Image, b: Image)
    requires a.results == Results && b.results == Results
    requires forall entry :: entry in Results ==>
               NumParams(a, entry) == NumParams(b, entry) && NumLocals(a, entry) == NumLocals(b, entry)
    ensures MethodsLaidOut(a, b, Moves)
  {
    hide NumParams, NumLocals;
    assert forall entry :: entry in Results ==> Maps(Moves, entry + 2, entry + 2);
    forall entry' | entry' in b.results ensures exists entry :: entry in a.results && Moves.methods[entry] == entry' {
      assert entry' in a.results && Moves.methods[entry'] == entry';
    }
  }

  lemma PairRewrites(a: Image, b: Image)
    requires MainCode(a) && JumpCode(a, 2) && Headers(a) && a.results == Results && a.tables == map[]
    requires MainCode(b) && JumpCode(b, 3) && Headers(b) && b.results == Results && b.tables == map[]
    requires a.limit == b.limit && a.natives == b.natives
    ensures Rewrites(a, b, Moves)
  {
    hide MainCode, JumpCode, MethodsLaidOut, Corresponds, TableEntry, NumParams, NumLocals;
    MainCorresponds(a, b);
    JumpCorresponds(a, b);
    MethodsStay(a, b);
  }

  lemma NeverAssigned(u: Assigned)
    ensures !DefinitelyAssigned(Near, u)
  {
    hide Fetch;
    NearDecodes(Near);
    assert 32 in Near.results && 0 in Loaded(Fetch(Near, 34));
    assert DefinitelyAssigned(Near, u) ==> Flows(Near, u, 34);
  }

  // ------------------------------------------------------------------ the run

  /** An instruction that needs nothing from outside. */
  function Quiet(m: Memory): Event { Event([], m.heap, 0, 0) }

  /** Room for `n` cells above sp, and no overflow yet. */
  predicate Room(img: Image, m: Memory, r: Regs, n: nat)
  {
    0 <= r.sp < img.limit && r.sp + 1 + n <= |m.stack|
  }

  lemma Calls(img: Image, m: Memory, r: Regs, target: nat, e: Event)
    requires Fetch(img, r.cp) == Call(target, false) && Room(img, m, r, 3)
    ensures EventStep(img, m, r, e) == CallStep(img, m, r, target, r.cp + 3)
  {
    hide Fetch, CallStep;
  }

  lemma Jumps(img: Image, m: Memory, r: Regs, offset: int, e: Event)
    requires Fetch(img, r.cp) == Jump(offset) && Room(img, m, r, 0)
    ensures EventStep(img, m, r, e) == Running(m, Advance(r, offset))
  {
    hide Fetch;
  }

  lemma Loads(img: Image, m: Memory, r: Regs, e: Event)
    requires Fetch(img, r.cp) == LoadVar(Locals, 0, false, 1) && Room(img, m, r, 1) && 0 <= r.lp <= r.sp
    ensures EventStep(img, m, r, e) ==
            Running(m.(stack := Overwrite(m.stack, r.sp + 1, [m.stack[r.lp]])), Advance(r, 1).(sp := r.sp + 1))
  {
    hide Fetch, Overwrite;
    assert m.stack[r.lp..r.lp + 1] == [m.stack[r.lp]];
  }

  lemma Returns(img: Image, m: Memory, r: Regs, cells: nat, e: Event)
    requires Fetch(img, r.cp) == Return(cells) && Room(img, m, r, 0) && cells <= r.sp + 1
    ensures EventStep(img, m, r, e) == ReturnStep(img, m, r, cells)
  {
    hide Fetch, ReturnStep;
  }

  /** main, just entered or resumed: its header is three cells up from `p`. */
  predicate InMain(img: Image, m: Memory, r: Regs, p: int, cp: int)
  {
    && 0 <= p && p + 10 < img.limit <= |m.stack| && m.stack[p + 1] == 0 && m.stack[p + 3] == 4
    && r == Regs(p + 3, cp, p + 1, p + 1, p + 4, 0, 0)
  }

  lemma CallLeavesHeader(img: Image, m: Memory, r: Regs, target: nat, e: Event, locals: nat)
    requires Fetch(img, r.cp) == Call(target, false) && Room(img, m, r, 3) && Header(img, target, locals)
    ensures var o := EventStep(img, m, r, e);
            && o.Running? && |o.m.stack| == |m.stack| && o.m.stack[..r.sp + 1] == m.stack[..r.sp + 1]
            && o.m.stack[r.sp + 1] == r.cp + 3 && o.m.stack[r.sp + 2] == r.fp && o.m.stack[r.sp + 3] == target
            && o.m.stack[r.sp + 4..] == m.stack[r.sp + 4..]
            && o.r == Regs(r.sp + 3 + locals, target + 2, r.sp + 1, r.sp + 1, r.sp + 4, 0, locals)
  {
    hide Fetch, NumParams, NumLocals;
    Calls(img, m, r, target, e);
    var header := [r.cp + 3, r.fp, target];
    assert header[0] == r.cp + 3 && header[1] == r.fp && header[2] == target;
  }

  /** A method without parameters and with `locals` locals returns to its caller at `fp`. */
  lemma ReturnDropsFrame(img: Image, m: Memory, r: Regs, fp: int, entry: int, cells: nat, e: Event)
    requires Fetch(img, r.cp) == Return(cells) && Room(img, m, r, 0) && cells <= 1 && r.numParams == 0
    requires 0 <= r.fp && r.fp + 2 < r.sp + 1 - cells && r.fp >= 1
    requires m.stack[r.fp] != 0 && m.stack[r.fp + 1] == fp && 0 <= fp && fp + 3 <= |m.stack|
    requires m.stack[fp + 2] == entry && Header(img, entry, 0)
    ensures var o := EventStep(img, m, r, e);
            && o.Running? && |o.m.stack| == |m.stack| && o.m.stack[..r.fp] == m.stack[..r.fp]
            && (cells == 0 ==> o.m.stack == m.stack) && (cells == 1 ==> o.m.stack[r.fp] == m.stack[r.sp])
            && o.r == Regs(r.fp - 1 + cells, m.stack[r.fp], fp, fp, fp + 3, 0, 0)
  {
    hide Fetch, NumParams, NumLocals;
    Returns(img, m, r, cells, e);
  }

  /** `n` instructions that need nothing from outside. */
  function Turns(e: Event, n: nat): seq<Event> { if n == 0 then [] else [e] + Turns(e, n - 1) }

  lemma OneTurn(img: Image, m: Memory, r: Regs, e: Event, n: nat)
    requires n > 0
    ensures var o := EventStep(img, m, r, e);
            Run(img, m, r, Turns(e, n)) == if o.Running? then Run(img, o.m, o.r, Turns(e, n - 1)) else o
  {
    hide EventStep;
    assert Turns(e, n)[1..] == Turns(e, n - 1);
  }

  /** main calls the method at 16, which jumps, calls and returns: main is as it was, but the cell
      above the next frame's header holds the return address of the innermost call. */
  lemma FirstCall(img: Image, m: Memory, r: Regs, p: int, j: nat, e: Event)
    requires MainCode(img) && JumpCode(img, j) && Headers(img) && InMain(img, m, r, p, 6)
    ensures exists m': Memory, r': Regs ::
              && Run(img, m, r, Turns(e, 9)) == Run(img, m', r', Turns(e, 4)) && InMain(img, m', r', p, 9)
              && m'.stack[p + 7] == 21 + j
  {
    hide Fetch, EventStep, NumParams, NumLocals, Run, Turns;
    CallLeavesHeader(img, m, r, 16, e, 0);
    OneTurn(img, m, r, e, 9);
    var a := EventStep(img, m, r, e);
    Jumps(img, a.m, a.r, j, e);
    OneTurn(img, a.m, a.r, e, 8);
    var b := EventStep(img, a.m, a.r, e);
    CallLeavesHeader(img, b.m, b.r, 28, e, 0);
    OneTurn(img, b.m, b.r, e, 7);
    var c := EventStep(img, b.m, b.r, e);
    ReturnDropsFrame(img, c.m, c.r, p + 4, 16, 0, e);
    OneTurn(img, c.m, c.r, e, 6);
    var d := EventStep(img, c.m, c.r, e);
    ReturnDropsFrame(img, d.m, d.r, p + 1, 4, 0, e);
    OneTurn(img, d.m, d.r, e, 5);
    var o := EventStep(img, d.m, d.r, e);
    assert o.m.stack[p + 1] == m.stack[p + 1] && o.m.stack[p + 3] == m.stack[p + 3];
  }

  /** main calls the method at 32, which returns the cell where its local is. */
  lemma SecondCall(img: Image, m: Memory, r: Regs, p: int, e: Event)
    requires MainCode(img) && Headers(img) && InMain(img, m, r, p, 9)
    ensures var o := Run(img, m, r, Turns(e, 4)); o.Returned? && o.value == m.stack[p + 7]
  {
    hide Fetch, EventStep, NumParams, NumLocals, Run, Turns;
    CallLeavesHeader(img, m, r, 32, e, 1);
    OneTurn(img, m, r, e, 4);
    var a := EventStep(img, m, r, e);
    Loads(img, a.m, a.r, e);
    OneTurn(img, a.m, a.r, e, 3);
    var b := EventStep(img, a.m, a.r, e);
    ReturnDropsFrame(img, b.m, b.r, p + 1, 4, 1, e);
    OneTurn(img, b.m, b.r, e, 2);
    var c := EventStep(img, b.m, b.r, e);
    Returns(img, c.m, c.r, 1, e);
    OneTurn(img, c.m, c.r, e, 1);
  }

  /** From any memory with room for the frames, main returns the return address after the inner call. */
  lemma MainReturnsStaleCell(img: Image, m: Memory, j: nat, e: Event)
    requires MainCode(img) && JumpCode(img, j) && Headers(img)
    requires 0 <= m.sp && m.sp + 10 < img.limit <= |m.stack|
    ensures var o := RunNested(img, m, Nested(4, [], Turns(e, 9))); o.Returned? && o.value == 21 + j
  {
    hide Fetch, EventStep, NumParams, NumLocals, Run, Turns;
    var o := Enter(img, m, 4, []);
    assert o.m.stack[m.sp + 1] == [0, 0, 4][0] && o.m.stack[m.sp + 3] == [0, 0, 4][2];
    FirstCall(img, o.m, o.r, m.sp, j, e);
    var m', r' :| && Run(img, o.m, o.r, Turns(e, 9)) == Run(img, m', r', Turns(e, 4)) && InMain(img, m', r', m.sp, 9)
                  && m'.stack[m.sp + 7] == 21 + j;
    SecondCall(img, m', r', m.sp, e);
  }

  /** Both images pass the static check and the one is the rewriting of the other, no locals are stored
      first, and the same call answers 23 and 24. */
  lemma StaleLocalsDiffer(m: Memory)
    requires 0 <= m.sp < 89 && |m.stack| >= 100
    ensures Checked(Near, DepthsOf(2)) && Checked(Far, DepthsOf(3)) && Rewrites(Near, Far, Moves)
    ensures forall u :: !DefinitelyAssigned(Near, u)
    ensures var call := Nested(4, [], Turns(Quiet(m), 9));
            var o, o' := RunNested(Near, m, call), RunNested(Far, m, call);
            o.Returned? && o'.Returned? && o.value == 23 && o'.value == 24
  {
    hide Checked, Rewrites, DefinitelyAssigned, MainCode, JumpCode, Headers, RunNested, Turns;
    NearDecodes(Near);
    FarDecodes(Far);
    PairIsChecked(Near, 2);
    PairIsChecked(Far, 3);
    PairRewrites(Near, Far);
    forall u ensures !DefinitelyAssigned(Near, u) {
      NeverAssigned(u);
    }
    MainReturnsStaleCell(Near, m, 2, Quiet(m));
    MainReturnsStaleCell(Far, m, 3, Quiet(m));
  }
}
