/** The rewriting of a checked image is checked: its operand depths are those of the old image, moved. */
module RewriteChecks {
  import opened Words
  import opened Scode
  import opened FlatMachine
  import opened FrameMachine
  import opened StackCheck
  import opened BranchRewrite
  import opened RewriteTurns

  /** No two instructions are laid out at one place. */
  predicate Injective(l: Layout)
  {
    forall x, y :: x in l.code && y in l.code && l.code[x] == l.code[y] ==> x == y
  }

  /** The depths of the old image at the places where its instructions are now. */
  function MovedDepths(l: Layout, d: Depths): Depths
    requires Injective(l)
  {
    map cp | cp in d && cp in l.code && d[cp].0 in l.methods :: l.code[cp] := (l.methods[d[cp].0], d[cp].1)
  }

  lemma MovedAt(l: Layout, d: Depths, entry: int)
    requires Injective(l) && entry in l.methods
    ensures forall cp, cp', depth {:trigger At(d, cp, entry, depth), Maps(l, cp, cp')} ::
              At(d, cp, entry, depth) && Maps(l, cp, cp') ==> At(MovedDepths(l, d), cp', l.methods[entry], depth)
  {
  }

  /** What the rewriting keeps of the method an instruction belongs to. */
  predicate SameMethod(a: Image, b: Image, l: Layout, entry: int)
  {
    && IsMethod(a, entry) && entry in l.methods
    && var entry' := l.methods[entry];
       && IsMethod(b, entry') && b.results[entry'] == a.results[entry]
       && NumParams(b, entry') == NumParams(a, entry) && NumLocals(b, entry') == NumLocals(a, entry)
  }

  lemma MethodKept(a: Image, b: Image, l: Layout, entry: int)
    requires MethodsLaidOut(a, b, l) && IsMethod(a, entry)
    ensures SameMethod(a, b, l, entry)
  {
    hide NumParams, NumLocals;
  }

  lemma StraightChecks(a: Image, b: Image, l: Layout, d: Depths, cp: int, cp': int, entry: int, depth: nat)
    requires Injective(l) && SameMethod(a, b, l, entry) && Checks(a, d, cp, entry, depth)
    requires Same(a, b, l, cp, Fetch(a, cp), cp', Fetch(b, cp')) && Straight(Fetch(a, cp))
    ensures Checks(b, MovedDepths(l, d), cp', l.methods[entry], depth)
  {
    hide Decode, At, Maps, MovedDepths, NumParams, NumLocals, Injective, Pops, Pushes, Takes, Gives;
    MovedAt(l, d, entry);
  }

  lemma JumpChecks(a: Image, b: Image, l: Layout, d: Depths, cp: int, cp': int, entry: int, depth: nat)
    requires Injective(l) && SameMethod(a, b, l, entry) && Checks(a, d, cp, entry, depth)
    requires Same(a, b, l, cp, Fetch(a, cp), cp', Fetch(b, cp')) && Jumping(Fetch(a, cp))
    ensures Checks(b, MovedDepths(l, d), cp', l.methods[entry], depth)
  {
    hide Decode, At, Maps, MovedDepths, NumParams, NumLocals, Injective, SwitchTarget;
    MovedAt(l, d, entry);
  }

  lemma ControlChecks(a: Image, b: Image, l: Layout, d: Depths, cp: int, cp': int, entry: int, depth: nat)
    requires Injective(l) && SameMethod(a, b, l, entry) && Checks(a, d, cp, entry, depth) && MethodsLaidOut(a, b, l)
    requires Same(a, b, l, cp, Fetch(a, cp), cp', Fetch(b, cp'))
    requires !Straight(Fetch(a, cp)) && !Jumping(Fetch(a, cp))
    ensures Checks(b, MovedDepths(l, d), cp', l.methods[entry], depth)
  {
    hide Decode, At, Maps, MovedDepths, MethodsLaidOut, NumParams, NumLocals, Injective;
    MovedAt(l, d, entry);
    var i := Fetch(a, cp);
    if i.Call? { MethodKept(a, b, l, i.target); }
  }

  lemma ComparisonChecks(a: Image, d: Depths, cp: int, entry: int, depth: nat, n: int)
    requires Checks(a, d, cp, entry, depth) && Fetch(a, cp).Simple? && Fetch(a, cp).op.Cmp?
    requires n == cp + Fetch(a, cp).length
    ensures depth >= 2 && n in d && d[n] == (entry, depth - 1)
  {
    hide Decode;
  }

  /** The fused jump takes both operands of the comparison and has the successors of the JumpNonZero. */
  lemma FusedChecks(a: Image, b: Image, l: Layout, d: Depths, cp: int, cp': int, entry: int, depth: nat)
    requires Injective(l) && entry in l.methods && Checks(a, d, cp, entry, depth)
    requires Fused(a, l, cp, Fetch(a, cp), cp', Fetch(b, cp'))
    requires forall n {:trigger Checks(a, d, n, d[n].0, d[n].1)} :: n in d ==> Checks(a, d, n, d[n].0, d[n].1)
    ensures Checks(b, MovedDepths(l, d), cp', l.methods[entry], depth)
  {
    hide Decode, At, Maps, MovedDepths, NumParams, NumLocals, Injective;
    MovedAt(l, d, entry);
    var next := cp + Fetch(a, cp).length;
    ComparisonChecks(a, d, cp, entry, depth, next);
    assert Checks(a, d, next, d[next].0, d[next].1);
  }

  lemma EntryChecks(a: Image, b: Image, l: Layout, d: Depths, entry': int)
    requires Checked(a, d) && MethodsLaidOut(a, b, l) && Injective(l) && entry' in b.results
    ensures IsMethod(b, entry') && At(MovedDepths(l, d), entry' + 2, entry', 0)
  {
    hide Checks, MovedDepths, Injective, NumParams, NumLocals;
    var entry :| entry in a.results && l.methods[entry] == entry';
    MethodKept(a, b, l, entry);
    MovedAt(l, d, entry);
    assert At(d, entry + 2, entry, 0) && Maps(l, entry + 2, entry' + 2);
  }

  /** A layout without clashes carries the check over, so only the old image has to be checked. */
  lemma RewriteIsChecked(a: Image, b: Image, l: Layout, d: Depths)
    requires Checked(a, d) && Rewrites(a, b, l) && Injective(l)
    ensures Checked(b, MovedDepths(l, d))
  {
    hide Checks, At, Rewrites, IsMethod, MovedDepths, Injective, MethodsLaidOut;
    var d' := MovedDepths(l, d);
    NothingAtZero(a, b, l, d);
    forall cp' | cp' in d'
      ensures IsMethod(b, d'[cp'].0) && Checks(b, d', cp', d'[cp'].0, d'[cp'].1)
    {
      MovedChecks(a, b, l, d, cp');
    }
    forall entry' | entry' in b.results
      ensures IsMethod(b, entry') && At(d', entry' + 2, entry', 0)
    {
      LaidOut(a, b, l);
      EntryChecks(a, b, l, d, entry');
    }
  }

  lemma LaidOut(a: Image, b: Image, l: Layout)
    requires Rewrites(a, b, l)
    ensures MethodsLaidOut(a, b, l)
  {
    hide MethodsLaidOut, TablesLaidOut, Corresponds;
  }

  lemma NothingAtZero(a: Image, b: Image, l: Layout, d: Depths)
    requires Rewrites(a, b, l) && Injective(l)
    ensures 0 !in MovedDepths(l, d)
  {
    hide MethodsLaidOut, TablesLaidOut, Corresponds;
  }

  lemma MovedChecks(a: Image, b: Image, l: Layout, d: Depths, cp': int)
    requires Checked(a, d) && Rewrites(a, b, l) && Injective(l) && cp' in MovedDepths(l, d)
    ensures var d' := MovedDepths(l, d); IsMethod(b, d'[cp'].0) && Checks(b, d', cp', d'[cp'].0, d'[cp'].1)
  {
    var cp :| cp in d && cp in l.code && d[cp].0 in l.methods && l.code[cp] == cp';
    assert MovedDepths(l, d)[cp'] == (l.methods[d[cp].0], d[cp].1);
    hide Checked, Checks, Rewrites, MovedDepths, Injective, IsMethod;
    InstructionChecks(a, b, l, d, cp);
  }

  lemma InstructionChecks(a: Image, b: Image, l: Layout, d: Depths, cp: int)
    requires Checked(a, d) && Rewrites(a, b, l) && Injective(l) && cp in d && cp in l.code
    ensures d[cp].0 in l.methods
    ensures var entry' := l.methods[d[cp].0];
            IsMethod(b, entry') && Checks(b, MovedDepths(l, d), l.code[cp], entry', d[cp].1)
  {
    hide Decode, Checks, Same, Fused, MethodsLaidOut, TablesLaidOut, MovedDepths, Injective;
    var (entry, depth) := d[cp];
    var i, cp' := Fetch(a, cp), l.code[cp];
    assert Checks(a, d, cp, d[cp].0, d[cp].1);
    MethodKept(a, b, l, entry);
    assert Corresponds(a, b, l, cp);
    if Fused(a, l, cp, i, cp', Fetch(b, cp')) {
      FusedChecks(a, b, l, d, cp, cp', entry, depth);
    } else if Straight(i) {
      StraightChecks(a, b, l, d, cp, cp', entry, depth);
    } else if Jumping(i) {
      JumpChecks(a, b, l, d, cp, cp', entry, depth);
    } else {
      ControlChecks(a, b, l, d, cp, cp', entry, depth);
    }
  }

  /** What the theorems about runs ask, from the old image alone. */
  lemma SoundFromOld(a: Image, b: Image, l: Layout, u: Assigned, d: Depths)
    requires Rewrites(a, b, l) && DefinitelyAssigned(a, u) && Checked(a, d) && Injective(l)
    ensures Sound(Rewriting(a, b, l, u, d, MovedDepths(l, d)))
  {
    hide Rewrites, DefinitelyAssigned, Checked;
    RewriteIsChecked(a, b, l, d);
  }

  // --------------------------------------------- what the conditions allow

  /** Every instruction and method where it is. */
  function Stay(img: Image, d: Depths): Layout
  {
    Layout(map cp | cp in d :: cp, map entry | entry in img.results :: entry)
  }

  /** A checked image is a rewriting of itself, whatever its instructions. */
  lemma ItselfRewrites(img: Image, d: Depths)
    requires Checked(img, d)
    ensures Rewrites(img, img, Stay(img, d)) && Injective(Stay(img, d))
  {
    hide Checks, Corresponds, NumParams, NumLocals, TableEntry;
    var l := Stay(img, d);
    forall cp | cp in l.code
      ensures Corresponds(img, img, l, cp)
    {
      SameInstruction(img, d, cp);
    }
    forall entry' | entry' in img.results ensures exists entry :: entry in img.results && l.methods[entry] == entry' {
      assert entry' in img.results && l.methods[entry'] == entry';
    }
    forall entry | entry in l.methods
      ensures Maps(l, entry + 2, l.methods[entry] + 2)
    {
      assert At(d, entry + 2, entry, 0);
    }
  }

  lemma SameInstruction(img: Image, d: Depths, cp: int)
    requires Checked(img, d) && cp in d
    ensures cp in Stay(img, d).code && Corresponds(img, img, Stay(img, d), cp)
  {
    hide Decode, SwitchTarget, NumParams, NumLocals, Fused;
    assert Checks(img, d, cp, d[cp].0, d[cp].1);
  }

  /** Nothing has to be stored where no local is loaded. */
  lemma NoLoadsAssigned(img: Image, d: Depths)
    requires Checked(img, d) && forall cp :: cp in d ==> Loaded(Fetch(img, cp)) == {}
    ensures DefinitelyAssigned(img, map cp | cp in d :: {})
  {
    hide Checks, Flows;
    var u: Assigned := map cp | cp in d :: {};
    forall entry | entry in img.results ensures entry + 2 in u && u[entry + 2] == {} {
      assert At(d, entry + 2, entry, 0);
    }
    forall cp | cp in u ensures Flows(img, u, cp) {
      NothingFlows(img, d, u, cp);
    }
  }

  lemma NothingFlows(img: Image, d: Depths, u: Assigned, cp: int)
    requires Checked(img, d) && cp in d && Loaded(Fetch(img, cp)) == {}
    requires u.Keys == d.Keys && forall n :: n in u ==> u[n] == {}
    ensures cp in u && Flows(img, u, cp)
  {
    hide Decode, SwitchTarget, NumParams, NumLocals;
    assert Checks(img, d, cp, d[cp].0, d[cp].1);
  }
}
