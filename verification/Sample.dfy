/** A method that compares, calls directly and through a virtual table, with a far jump after the
    comparison and with the fused jump: the one passes the static check and rewrites to the other,
    although every method after it moves. */
module Sample {
  import opened Words
  import opened Scode
  import opened FlatMachine
  import opened FrameMachine
  import opened StackCheck
  import opened BranchRewrite
  import opened RewriteChecks
  import opened RewriteTurns

  /** Methods at 4, 24 and 28; a virtual table at 36, whose second entry is the method at 28. */
  function PlainOctet(i: int): byte
  {
    match i
    case 4 => 2 case 6 => 30 case 7 => 2 case 8 => 57 case 9 => 147 case 10 => 11 case 12 => 221 case 13 => 6
    case 15 => 29 case 16 => 222 case 17 => 1 case 19 => 1 case 20 => 226 case 26 => 226 case 28 => 1
    case 29 => 1 case 30 => 2 case 31 => 47 case 32 => 37 case 33 => 133 case 34 => 226 case 38 => 7
    case _ => 0
  }

  /** Methods at 4, 20 and 24; the table is where it was. */
  function FusedOctet(i: int): byte
  {
    match i
    case 4 => 2 case 6 => 30 case 7 => 2 case 8 => 150 case 9 => 10 case 10 => 221 case 11 => 5 case 13 => 29
    case 14 => 222 case 15 => 1 case 17 => 1 case 18 => 226 case 22 => 226 case 24 => 1 case 25 => 1
    case 26 => 2 case 27 => 47 case 28 => 37 case 29 => 133 case 30 => 226 case 38 => 6
    case _ => 0
  }

  const Old := Image(seq(40, i => PlainOctet(i)), map[4 := 0, 24 := 0, 28 := 0], map[16 := 0], map[36 := 2],
                    {}, 0, 100)
  const Fresh := Image(seq(40, i => FusedOctet(i)), map[4 := 0, 20 := 0, 24 := 0], map[14 := 0], map[36 := 2],
                      {}, 0, 100)

  const OldStarts := {6, 7, 8, 9, 12, 15, 16, 20, 26, 30, 31, 32, 33, 34}

  function OldDepth(cp: int): (int, nat)
  {
    match cp
    case 6 => (4, 0) case 7 => (4, 1) case 8 => (4, 2) case 9 => (4, 1) case 12 => (4, 0) case 15 => (4, 0)
    case 16 => (4, 1) case 20 => (4, 0) case 26 => (24, 0) case 30 => (28, 0) case 31 => (28, 1)
    case 32 => (28, 0) case 33 => (28, 1) case 34 => (28, 0)
    case _ => (0, 0)
  }

  const OldDepths: Depths := map cp | cp in OldStarts :: OldDepth(cp)

  /** The comparison at 8 and the jump at 9 become one instruction. */
  const Moved := Layout(map cp | cp in OldStarts - {9} :: MovedTo(cp), map[4 := 4, 24 := 20, 28 := 24])

  function MovedTo(cp: int): int
  {
    match cp
    case 6 => 6 case 7 => 7 case 8 => 8 case 12 => 10 case 15 => 13 case 16 => 14 case 20 => 18 case 26 => 22
    case 30 => 26 case 31 => 27 case 32 => 28 case 33 => 29 case 34 => 30
    case _ => 0
  }

  const LocalsStored: Assigned := map cp | cp in OldStarts :: if cp < 32 then {} else {0}

  /** What the code of the two images decodes to. */
  predicate OldMain(a: Image)
  {
    && Fetch(a, 6) == LoadVar(Params, 1, false, 1) && Fetch(a, 7) == Simple(Push([0]), 1)
    && Fetch(a, 8) == Simple(Cmp(Eq), 1) && Fetch(a, 9) == Branch(IsNonZero, 11, 3)
    && Fetch(a, 12) == Call(24, false) && Fetch(a, 15) == LoadVar(Params, 0, false, 1)
    && Fetch(a, 16) == CallVirtual(1, 1) && Fetch(a, 20) == Return(0)
    && NumParams(a, 4) == 2 && NumLocals(a, 4) == 0 && TableEntry(a, 36, 0) == 0 && TableEntry(a, 36, 1) == 28
  }

  predicate OldCallees(a: Image)
  {
    && Fetch(a, 26) == Return(0) && Fetch(a, 30) == Simple(Push([0]), 1)
    && Fetch(a, 31) == StoreVar(Locals, 0, false, 1) && Fetch(a, 32) == LoadVar(Locals, 0, false, 1)
    && Fetch(a, 33) == Simple(Drop(1), 1) && Fetch(a, 34) == Return(0)
    && NumParams(a, 24) == 0 && NumLocals(a, 24) == 0 && NumParams(a, 28) == 1 && NumLocals(a, 28) == 1
  }

  predicate FreshMain(b: Image)
  {
    && Fetch(b, 6) == LoadVar(Params, 1, false, 1) && Fetch(b, 7) == Simple(Push([0]), 1)
    && Fetch(b, 8) == Branch(IntIs(Eq), 10, 2)
    && Fetch(b, 10) == Call(20, false) && Fetch(b, 13) == LoadVar(Params, 0, false, 1)
    && Fetch(b, 14) == CallVirtual(1, 1) && Fetch(b, 18) == Return(0)
    && NumParams(b, 4) == 2 && NumLocals(b, 4) == 0 && TableEntry(b, 36, 0) == 0 && TableEntry(b, 36, 1) == 24
  }

  predicate FreshCallees(b: Image)
  {
    && Fetch(b, 22) == Return(0) && Fetch(b, 26) == Simple(Push([0]), 1)
    && Fetch(b, 27) == StoreVar(Locals, 0, false, 1) && Fetch(b, 28) == LoadVar(Locals, 0, false, 1)
    && Fetch(b, 29) == Simple(Drop(1), 1) && Fetch(b, 30) == Return(0)
    && NumParams(b, 20) == 0 && NumLocals(b, 20) == 0 && NumParams(b, 24) == 1 && NumLocals(b, 24) == 1
  }

  /** The opcodes used below. */
  lemma ShortForms(img: Image, cp: int)
    ensures var o, i := U1(img.code, cp), Fetch(img, cp);
            && (o == 2 ==> i == Simple(Push([0]), 1)) && (o == 29 ==> i == LoadVar(Params, 0, false, 1))
            && (o == 30 ==> i == LoadVar(Params, 1, false, 1)) && (o == 37 ==> i == LoadVar(Locals, 0, false, 1))
            && (o == 47 ==> i == StoreVar(Locals, 0, false, 1)) && (o == 57 ==> i == Simple(Cmp(Eq), 1))
            && (o == 133 ==> i == Simple(Drop(1), 1)) && (o == 226 ==> i == Return(0)) && (o == 227 ==> i == Return(1))
  {
  }

  lemma LongForms(img: Image, cp: int)
    ensures var o, i := U1(img.code, cp), Fetch(img, cp);
            && (o == 142 ==> i == Jump(S1(img.code, cp + 1))) && (o == 146 ==> i == Jump(S2(img.code, cp + 1)))
            && (o == 147 ==> i == Branch(IsNonZero, S2(img.code, cp + 1), 3))
            && (o == 150 ==> i == Branch(IntIs(Eq), S1(img.code, cp + 1), 2))
            && (o == 221 ==> i == Call(U2(img.code, cp + 1) * BLOCK, false))
            && (o == 222 ==> i == CallVirtual(U2(img.code, cp + 1), U1(img.code, cp + 3)))
  {
  }

  lemma OldMainDecodes(a: Image)
    requires a.code == seq(40, i => PlainOctet(i))
    ensures OldMain(a)
  {
    hide Fetch;
    ShortForms(a, 6);
    ShortForms(a, 7);
    ShortForms(a, 8);
    LongForms(a, 9);
    LongForms(a, 12);
    ShortForms(a, 15);
    LongForms(a, 16);
    ShortForms(a, 20);
  }

  lemma OldCalleesDecode(a: Image)
    requires a.code == seq(40, i => PlainOctet(i))
    ensures OldCallees(a)
  {
    hide Fetch;
    ShortForms(a, 26);
    ShortForms(a, 30);
    ShortForms(a, 31);
    ShortForms(a, 32);
    ShortForms(a, 33);
    ShortForms(a, 34);
  }

  lemma FreshMainDecodes(b: Image)
    requires b.code == seq(40, i => FusedOctet(i))
    ensures FreshMain(b)
  {
    hide Fetch;
    ShortForms(b, 6);
    ShortForms(b, 7);
    LongForms(b, 8);
    LongForms(b, 10);
    ShortForms(b, 13);
    LongForms(b, 14);
    ShortForms(b, 18);
  }

  lemma FreshCalleesDecode(b: Image)
    requires b.code == seq(40, i => FusedOctet(i))
    ensures FreshCallees(b)
  {
    hide Fetch;
    ShortForms(b, 22);
    ShortForms(b, 26);
    ShortForms(b, 27);
    ShortForms(b, 28);
    ShortForms(b, 29);
    ShortForms(b, 30);
  }

  lemma OldMainChecks(a: Image)
    requires OldMain(a) && a.results == map[4 := 0, 24 := 0, 28 := 0] && a.slots == map[16 := 0]
    ensures Checks(a, OldDepths, 6, 4, 0) && Checks(a, OldDepths, 7, 4, 1) && Checks(a, OldDepths, 8, 4, 2)
            && Checks(a, OldDepths, 9, 4, 1)
  {
    hide Fetch, NumParams, NumLocals;
  }

  lemma OldCallsCheck(a: Image)
    requires OldMain(a) && OldCallees(a) && a.results == map[4 := 0, 24 := 0, 28 := 0] && a.slots == map[16 := 0]
    ensures Checks(a, OldDepths, 12, 4, 0) && Checks(a, OldDepths, 15, 4, 0) && Checks(a, OldDepths, 16, 4, 1)
            && Checks(a, OldDepths, 20, 4, 0)
  {
    hide Fetch, NumParams, NumLocals;
  }

  lemma OldCalleesCheck(a: Image)
    requires OldCallees(a) && a.results == map[4 := 0, 24 := 0, 28 := 0] && a.slots == map[16 := 0]
    ensures Checks(a, OldDepths, 26, 24, 0) && Checks(a, OldDepths, 30, 28, 0)
            && Checks(a, OldDepths, 31, 28, 1) && Checks(a, OldDepths, 32, 28, 0)
            && Checks(a, OldDepths, 33, 28, 1) && Checks(a, OldDepths, 34, 28, 0)
  {
    hide Fetch, NumParams, NumLocals;
  }

  lemma OldIsChecked()
    ensures Checked(Old, OldDepths)
  {
    hide Fetch, OldMain, OldCallees, Checks, NumParams, NumLocals;
    OldMainDecodes(Old);
    OldCalleesDecode(Old);
    OldMainChecks(Old);
    OldCallsCheck(Old);
    OldCalleesCheck(Old);
  }

  lemma MainCorresponds(a: Image, b: Image)
    requires OldMain(a) && FreshMain(b) && a.slots == map[16 := 0] && b.slots == map[14 := 0]
    ensures Corresponds(a, b, Moved, 6) && Corresponds(a, b, Moved, 7) && Corresponds(a, b, Moved, 8)
  {
    hide Fetch, NumParams, NumLocals, TableEntry;
  }

  lemma CallsCorrespond(a: Image, b: Image)
    requires OldMain(a) && FreshMain(b) && a.slots == map[16 := 0] && b.slots == map[14 := 0]
    ensures Corresponds(a, b, Moved, 12) && Corresponds(a, b, Moved, 15) && Corresponds(a, b, Moved, 16)
            && Corresponds(a, b, Moved, 20)
  {
    hide Fetch, NumParams, NumLocals, TableEntry;
  }

  lemma CalleesCorrespond(a: Image, b: Image)
    requires OldCallees(a) && FreshCallees(b)
    requires a.slots == map[16 := 0] && b.slots == map[14 := 0]
    ensures Corresponds(a, b, Moved, 26) && Corresponds(a, b, Moved, 30) && Corresponds(a, b, Moved, 31)
            && Corresponds(a, b, Moved, 32) && Corresponds(a, b, Moved, 33) && Corresponds(a, b, Moved, 34)
  {
    hide Fetch, NumParams, NumLocals;
  }

  lemma MethodsMoved(a: Image, b: Image)
    requires a.results == map[4 := 0, 24 := 0, 28 := 0] && b.results == map[4 := 0, 20 := 0, 24 := 0]
    requires NumParams(a, 4) == NumParams(b, 4) && NumLocals(a, 4) == NumLocals(b, 4)
    requires NumParams(a, 24) == NumParams(b, 20) && NumLocals(a, 24) == NumLocals(b, 20)
    requires NumParams(a, 28) == NumParams(b, 24) && NumLocals(a, 28) == NumLocals(b, 24)
    ensures MethodsLaidOut(a, b, Moved)
  {
    hide NumParams, NumLocals;
    assert a.results.Keys == {4, 24, 28};
    forall entry' | entry' in b.results ensures exists entry :: entry in a.results && Moved.methods[entry] == entry' {
      var entry := if entry' == 4 then 4 else if entry' == 20 then 24 else 28;
      assert entry in a.results && Moved.methods[entry] == entry';
    }
  }

  lemma HeadersMoved(a: Image, b: Image)
    requires OldMain(a) && OldCallees(a) && a.results == map[4 := 0, 24 := 0, 28 := 0]
    requires FreshMain(b) && FreshCallees(b) && b.results == map[4 := 0, 20 := 0, 24 := 0]
    ensures MethodsLaidOut(a, b, Moved)
  {
    hide MethodsLaidOut, Fetch, TableEntry, NumParams, NumLocals;
    MethodsMoved(a, b);
  }

  lemma TablesMoved(a: Image, b: Image)
    requires OldMain(a) && a.results == map[4 := 0, 24 := 0, 28 := 0] && a.tables == map[36 := 2]
    requires FreshMain(b) && b.results == map[4 := 0, 20 := 0, 24 := 0] && b.tables == map[36 := 2]
    ensures TablesLaidOut(a, b, Moved)
  {
    hide Fetch, NumParams, NumLocals, TableEntry;
  }

  lemma SampleRewrites()
    ensures Rewrites(Old, Fresh, Moved)
  {
    hide OldMain, OldCallees, FreshMain, FreshCallees, Corresponds, MethodsLaidOut, TablesLaidOut;
    OldMainDecodes(Old);
    OldCalleesDecode(Old);
    FreshMainDecodes(Fresh);
    FreshCalleesDecode(Fresh);
    MainCorresponds(Old, Fresh);
    CallsCorrespond(Old, Fresh);
    CalleesCorrespond(Old, Fresh);
    HeadersMoved(Old, Fresh);
    TablesMoved(Old, Fresh);
  }

  lemma SampleStoresFirst()
    ensures DefinitelyAssigned(Old, LocalsStored)
  {
    hide Fetch;
    OldMainDecodes(Old);
    OldCalleesDecode(Old);
  }

  lemma NoClashes()
    ensures Injective(Moved)
  {
  }

  /** So every call of the one form is matched by a call of the other. */
  lemma SampleIsSound()
    ensures Sound(Rewriting(Old, Fresh, Moved, LocalsStored, OldDepths, MovedDepths(Moved, OldDepths)))
  {
    hide Rewrites, Checked, DefinitelyAssigned, Injective;
    OldIsChecked();
    SampleRewrites();
    SampleStoresFirst();
    NoClashes();
    SoundFromOld(Old, Fresh, Moved, LocalsStored, OldDepths);
  }
}
