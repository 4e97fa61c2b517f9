/** Rewriting branches: near jumps may become far ones (and back), and an integer comparison followed
    by JumpNonZero may become one fused jump, every offset being laid out again. One instruction of
    either program keeps the two in corresponding states. */
module BranchRewrite {
  import opened Words
  import opened Scode
  import opened FlatMachine
  import opened FrameMachine
  import opened StackCheck

  /** `code` maps instruction starts of the old image to the new one, `methods` method headers. */
  datatype Layout = Layout(code: map<int, int>, methods: map<int, int>)

  predicate Maps(l: Layout, cp: int, cp': int) { cp in l.code && l.code[cp] == cp' }

  predicate MapsMethod(l: Layout, entry: int, entry': int) { entry in l.methods && l.methods[entry] == entry' }

  // ------------------------------------------------------ definite assignment

  /** For each instruction start, locals that are stored on every way to it. A call leaves whatever it
      finds in the new frame's locals, old return addresses among them, so this matters here. */
  type Assigned = map<int, set<int>>

  function LocalCells(index: nat, wide: bool): set<int> { if wide then {index, index + 1} else {index} }

  function Loaded(i: Instr): set<int>
  {
    if i.LoadVar? && i.region.Locals? then LocalCells(i.index, i.wide) else {}
  }

  function Stored(i: Instr): set<int>
  {
    if i.StoreVar? && i.region.Locals? then LocalCells(i.index, i.wide) else {}
  }

  predicate Carries(u: Assigned, cp: int, next: int, stored: set<int>)
    requires cp in u
  {
    next in u && u[next] <= u[cp] + stored
  }

  /** The instruction at `cp` loads only locals that are stored, and passes the rest on. */
  predicate Flows(img: Image, u: Assigned, cp: int)
    requires cp in u
  {
    var i := Fetch(img, cp);
    Loaded(i) <= u[cp] &&
    match i
    case Simple(_, n) => Carries(u, cp, cp + n, {})
    case LoadVar(_, _, _, n) => Carries(u, cp, cp + n, {})
    case StoreVar(_, _, _, n) => Carries(u, cp, cp + n, Stored(i))
    case LoadParam0Inline(_, n) => Carries(u, cp, cp + n, {})
    case Jump(offset) => Carries(u, cp, cp + offset, {})
    case Branch(_, offset, n) => Carries(u, cp, cp + offset, {}) && Carries(u, cp, cp + n, {})
    case Foreach(offset, n) => Carries(u, cp, cp + offset, {}) && Carries(u, cp, cp + n, {})
    case Switch(count) =>
      && Carries(u, cp, cp + 3 + count * 2, {})
      && forall v :: 0 <= v < count ==> Carries(u, cp, SwitchTarget(img, cp, count, v), {})
    case Call(_, _) => Carries(u, cp, cp + 3, {})
    case CallVirtual(_, _) => Carries(u, cp, cp + 4, {})
    case CallNative(_, _, _, _) => Carries(u, cp, cp + 4, {})
    case Return(_) => true
    case Given(_, n) => Carries(u, cp, cp + n, {})
    case Unaccepted => true
  }

  /** No method reads a local before it stores it. */
  ghost predicate DefinitelyAssigned(img: Image, u: Assigned)
  {
    && (forall entry :: entry in img.results ==> entry + 2 in u && u[entry + 2] == {})
    && (forall cp {:trigger Flows(img, u, cp)} :: cp in u ==> Flows(img, u, cp))
  }

  // ------------------------------------------------------------ the rewriting

  /** The comparison at `cp` and the JumpNonZero after it became the fused jump `j` at `cp'`. */
  predicate Fused(a: Image, l: Layout, cp: int, i: Instr, cp': int, j: Instr)
  {
    i.Simple? && i.op.Cmp? && j.Branch? && j.cond == IntIs(i.op.c) &&
    var next := cp + i.length;
    var k := Fetch(a, next);
    k.Branch? && k.cond.IsNonZero?
    && Maps(l, next + k.offset, cp' + j.offset) && Maps(l, next + k.length, cp' + j.length)
  }

  /** `i` at `cp` and `j` at `cp'` do the same and continue at corresponding places. */
  predicate Same(a: Image, b: Image, l: Layout, cp: int, i: Instr, cp': int, j: Instr)
  {
    match i
    case Simple(op, n) => j.Simple? && j.op == op && Maps(l, cp + n, cp' + j.length)
    case LoadVar(region, index, wide, n) =>
      j.LoadVar? && j.region == region && j.index == index && j.wide == wide && Maps(l, cp + n, cp' + j.length)
    case StoreVar(region, index, wide, n) =>
      j.StoreVar? && j.region == region && j.index == index && j.wide == wide && Maps(l, cp + n, cp' + j.length)
    case LoadParam0Inline(offset, n) => j.LoadParam0Inline? && j.offset == offset && Maps(l, cp + n, cp' + j.length)
    case Jump(offset) => j.Jump? && Maps(l, cp + offset, cp' + j.offset)
    case Branch(cond, offset, n) =>
      j.Branch? && j.cond == cond && Maps(l, cp + offset, cp' + j.offset) && Maps(l, cp + n, cp' + j.length)
    case Foreach(offset, n) =>
      j.Foreach? && Maps(l, cp + offset, cp' + j.offset) && Maps(l, cp + n, cp' + j.length)
    case Switch(count) =>
      && j == i
      && Maps(l, cp + 3 + count * 2, cp' + 3 + count * 2)
      && forall v :: 0 <= v < count ==> Maps(l, SwitchTarget(a, cp, count, v), SwitchTarget(b, cp', count, v))
    case Call(target, loadParam0) =>
      j.Call? && j.loadParam0 == loadParam0 && MapsMethod(l, target, j.target) && Maps(l, cp + 3, cp' + 3)
    case CallVirtual(_, _) => j == i && Maps(l, cp + 4, cp' + 4) && SameEntry(a.slots, cp, b.slots, cp')
    case CallNative(_, _, _, _) => j == i && Maps(l, cp + 4, cp' + 4)
    case Return(_) => j == i
    case Given(_, n) => j == i && Maps(l, cp + n, cp' + n)
    case Unaccepted => j == i
  }

  predicate SameEntry(m: map<int, int>, k: int, m': map<int, int>, k': int)
  {
    (k in m <==> k' in m') && (k in m ==> m[k] == m'[k'])
  }

  /** The methods of the new image are the rewritten ones, each with its header as it was. */
  ghost predicate MethodsLaidOut(a: Image, b: Image, l: Layout)
  {
    && a.results.Keys <= l.methods.Keys
    && (forall entry :: entry in l.methods ==>
          && Maps(l, entry + 2, l.methods[entry] + 2)
          && NumParams(b, l.methods[entry]) == NumParams(a, entry)
          && NumLocals(b, l.methods[entry]) == NumLocals(a, entry)
          && SameEntry(a.results, entry, b.results, l.methods[entry]))
    && (forall entry' :: entry' in b.results ==> exists entry :: entry in a.results && l.methods[entry] == entry')
  }

  function MapTarget(l: Layout, t: Option<int>): Option<int>
  {
    if t.Some? && t.value in l.methods then Some(l.methods[t.value]) else None
  }

  /** The virtual tables stay where they are, and each entry that is a method becomes the rewritten one. */
  predicate TablesLaidOut(a: Image, b: Image, l: Layout)
  {
    && a.tables == b.tables
    && forall table, slot: nat {:trigger TableEntry(a, table, slot)} ::
         table in a.tables && slot < a.tables[table] ==>
           var x, y := TableEntry(a, table, slot), TableEntry(b, table, slot);
           if x in a.results then MapsMethod(l, x, y) else y !in b.results
  }

  ghost predicate Rewrites(a: Image, b: Image, l: Layout)
  {
    && a.limit == b.limit && a.natives == b.natives
    && MethodsLaidOut(a, b, l) && TablesLaidOut(a, b, l)
    && 0 !in l.code && 0 !in l.code.Values
    && forall cp {:trigger Corresponds(a, b, l, cp)} :: cp in l.code ==> Corresponds(a, b, l, cp)
  }

  predicate Corresponds(a: Image, b: Image, l: Layout, cp: int)
    requires cp in l.code
  {
    var cp' := l.code[cp];
    var i := Fetch(a, cp);
    var j := Fetch(b, cp');
    Same(a, b, l, cp, i, cp', j) || Fused(a, l, cp, i, cp', j)
  }

  // ------------------------------------------------------- related states

  /** Locals that are stored on every way to `cp` are equal. */
  predicate Agree(u: Assigned, cp: int, xs: seq<int>, ys: seq<int>)
  {
    |xs| == |ys| && cp in u && forall k :: 0 <= k < |xs| && k in u[cp] ==> xs[k] == ys[k]
  }

  /** Frames that go on at `cp` of the old program: equal up to the code map and to locals not stored. */
  predicate SameFrame(l: Layout, u: Assigned, cp: int, f: Frame, g: Frame)
  {
    && MapsMethod(l, f.entry, g.entry)
    && (f.returnCp == g.returnCp == 0 || Maps(l, f.returnCp, g.returnCp))
    && f.params == g.params && Agree(u, cp, f.locals, g.locals) && f.ops == g.ops
  }

  /** Where the `i`-th suspended frame goes on. */
  function Resumes(fs: seq<Frame>, last: int, i: nat): int
    requires i < |fs|
  {
    if i + 1 < |fs| then fs[i + 1].returnCp else last
  }

  predicate SameCallers(l: Layout, u: Assigned, fs: seq<Frame>, gs: seq<Frame>, last: int)
  {
    |fs| == |gs| && forall i :: 0 <= i < |fs| ==> SameFrame(l, u, Resumes(fs, last, i), fs[i], gs[i])
  }

  predicate SameState(l: Layout, u: Assigned, s: State, t: State)
  {
    && SameCallers(l, u, s.callers, t.callers, s.top.returnCp) && SameFrame(l, u, s.cp, s.top, t.top)
    && Maps(l, s.cp, t.cp) && s.heap == t.heap
  }

  predicate SameResult(l: Layout, u: Assigned, p: Result, q: Result)
  {
    if p.Goes? then q.Goes? && SameState(l, u, p.s, q.s) else p == q
  }

  /** The two machines are given the same words; what lies above their operands may differ. */
  predicate SameEffect(e: Effect, f: Effect)
  {
    e.heap == f.heap && e.lo == f.lo && e.hi == f.hi && |e.above| >= HEADROOM && |f.above| >= HEADROOM
  }

  lemma {:induction false} SameHeight(l: Layout, u: Assigned, fs: seq<Frame>, gs: seq<Frame>, last: int)
    requires SameCallers(l, u, fs, gs, last)
    ensures Height(fs) == Height(gs)
    decreases |fs|
  {
    if fs != [] {
      var n := |fs| - 1;
      assert SameFrame(l, u, Resumes(fs, last, n), fs[n], gs[n]);
      CallersWithoutLast(l, u, fs, gs, last);
      SameHeight(l, u, fs[..n], gs[..n], fs[n].returnCp);
    }
  }

  lemma CallersWithoutLast(l: Layout, u: Assigned, fs: seq<Frame>, gs: seq<Frame>, last: int)
    requires SameCallers(l, u, fs, gs, last) && fs != []
    ensures SameCallers(l, u, fs[..|fs| - 1], gs[..|fs| - 1], fs[|fs| - 1].returnCp)
  {
    var n := |fs| - 1;
    forall i | 0 <= i < n
      ensures SameFrame(l, u, Resumes(fs[..n], fs[n].returnCp, i), fs[..n][i], gs[..n][i])
    {
      assert Resumes(fs[..n], fs[n].returnCp, i) == Resumes(fs, last, i);
    }
  }

  lemma CallersWithOneMore(l: Layout, u: Assigned, fs: seq<Frame>, gs: seq<Frame>, f: Frame, g: Frame, last: int)
    requires SameCallers(l, u, fs, gs, f.returnCp) && SameFrame(l, u, last, f, g)
    ensures SameCallers(l, u, fs + [f], gs + [g], last)
  {
    var n := |fs|;
    forall i | 0 <= i <= n
      ensures SameFrame(l, u, Resumes(fs + [f], last, i), (fs + [f])[i], (gs + [g])[i])
    {
      if i < n { assert Resumes(fs + [f], last, i) == Resumes(fs, f.returnCp, i); }
    }
  }

  // ------------------------------------------------------ one instruction

  lemma AgreeSlices(u: Assigned, cp: int, xs: seq<int>, ys: seq<int>, index: nat, n: nat)
    requires Agree(u, cp, xs, ys) && index + n <= |xs| && 1 <= n <= 2
    requires index in u[cp] && (n == 2 ==> index + 1 in u[cp])
    ensures xs[index..index + n] == ys[index..index + n]
  {
    assert xs[index] == ys[index];
    if n == 2 { assert xs[index + 1] == ys[index + 1]; }
  }

  lemma AgreeOn(u: Assigned, cp: int, next: int, xs: seq<int>, ys: seq<int>)
    requires Agree(u, cp, xs, ys) && Carries(u, cp, next, {})
    ensures Agree(u, next, xs, ys)
  {
  }

  lemma AgreeStored(u: Assigned, cp: int, next: int, xs: seq<int>, ys: seq<int>, index: nat, cells: seq<int>)
    requires Agree(u, cp, xs, ys) && index + |cells| <= |xs| && 1 <= |cells| <= 2
    requires Carries(u, cp, next, LocalCells(index, |cells| == 2))
    ensures Agree(u, next, Overwrite(xs, index, cells), Overwrite(ys, index, cells))
  {
    var xs', ys' := Overwrite(xs, index, cells), Overwrite(ys, index, cells);
    forall k | 0 <= k < |xs| && k in u[next]
      ensures xs'[k] == ys'[k]
    {
      if !(index <= k < index + |cells|) { assert k in u[cp]; }
    }
  }

  lemma LoadVarRewrites(a: Image, b: Image, l: Layout, u: Assigned, s: State, t: State,
                        i: Instr, j: Instr, e: Effect, f: Effect)
    requires SameState(l, u, s, t) && Same(a, b, l, s.cp, i, t.cp, j) && i.LoadVar?
    requires Loaded(i) <= u[s.cp] && Carries(u, s.cp, s.cp + i.length, {})
    ensures SameResult(l, u, ExecuteFrame(a, s, i, e), ExecuteFrame(b, t, j, f))
  {
    hide SameCallers;
    var n := if i.wide then 2 else 1;
    if i.region.Locals? && i.index + n <= |s.top.locals| {
      AgreeSlices(u, s.cp, s.top.locals, t.top.locals, i.index, n);
    }
  }

  /** Frames of a method entered at `entry`, in nothing different but local `k`. */
  function WithLocal(entry: int, cp: int, heap: Heap, size: nat, k: nat, v: int): State
    requires k < size
  {
    State([], Frame(entry, 0, [], seq(size, _ => 0)[k := v], []), cp, heap)
  }

  /** Of all pairs of states that agree on the locals named for `cp`, a load leaves states that agree
      exactly if what it loads is among those locals. */
  lemma LoadKeepsStatesIff(a: Image, b: Image, l: Layout, u: Assigned, cp: int, entry: int, heap: Heap,
                           e: Effect, f: Effect)
    requires cp in l.code && entry in l.methods && cp in u
    requires var i, cp' := Fetch(a, cp), l.code[cp];
             && i.LoadVar? && i.region.Locals? && Same(a, b, l, cp, i, cp', Fetch(b, cp'))
             && Carries(u, cp, cp + i.length, {})
    ensures (forall s, t :: SameState(l, u, s, t) && s.cp == cp ==>
               SameResult(l, u, ExecuteFrame(a, s, Fetch(a, cp), e), ExecuteFrame(b, t, Fetch(b, l.code[cp]), f)))
            <==> Loaded(Fetch(a, cp)) <= u[cp]
  {
    hide Decode;
    var i, cp' := Fetch(a, cp), l.code[cp];
    var j := Fetch(b, cp');
    if Loaded(i) <= u[cp] {
      forall s, t | SameState(l, u, s, t) && s.cp == cp
        ensures SameResult(l, u, ExecuteFrame(a, s, i, e), ExecuteFrame(b, t, j, f))
      {
        LoadVarRewrites(a, b, l, u, s, t, i, j, e, f);
      }
    } else {
      var k :| k in Loaded(i) && k !in u[cp];
      var size := i.index + 2;
      var s, t := WithLocal(entry, cp, heap, size, k, 0), WithLocal(l.methods[entry], cp', heap, size, k, 1);
      assert SameState(l, u, s, t);
      StaleLoadDiffers(a, b, l, u, s, t, i, j, e, f, k);
    }
  }

  lemma StaleLoadDiffers(a: Image, b: Image, l: Layout, u: Assigned, s: State, t: State,
                         i: Instr, j: Instr, e: Effect, f: Effect, k: int)
    requires Same(a, b, l, s.cp, i, t.cp, j) && i.LoadVar? && i.region.Locals? && k in Loaded(i)
    requires |s.top.locals| == |t.top.locals| >= i.index + 2 && s.top.ops == t.top.ops == []
    requires s.top.locals[k] != t.top.locals[k]
    ensures !SameResult(l, u, ExecuteFrame(a, s, i, e), ExecuteFrame(b, t, j, f))
  {
    hide SameCallers, Agree;
    var p, q := ExecuteFrame(a, s, i, e), ExecuteFrame(b, t, j, f);
    assert p.s.top.ops[k - i.index] == s.top.locals[k] && q.s.top.ops[k - i.index] == t.top.locals[k];
  }

  lemma StoreLocalRewrites(a: Image, b: Image, l: Layout, u: Assigned, s: State, t: State,
                           i: Instr, j: Instr, e: Effect, f: Effect)
    requires SameState(l, u, s, t) && Same(a, b, l, s.cp, i, t.cp, j) && i.StoreVar? && i.region.Locals?
    requires Carries(u, s.cp, s.cp + i.length, LocalCells(i.index, i.wide))
    ensures SameResult(l, u, ExecuteFrame(a, s, i, e), ExecuteFrame(b, t, j, f))
  {
    hide SameCallers, Overwrite, Agree, Carries, LocalCells;
    var n := if i.wide then 2 else 1;
    SameLocals(u, s.cp, s.top.locals, t.top.locals);
    if i.index + n <= |s.top.locals| && n <= |s.top.ops| {
      AgreeStored(u, s.cp, s.cp + i.length, s.top.locals, t.top.locals, i.index, Top(s.top.ops, n));
    }
  }

  lemma SameLocals(u: Assigned, cp: int, xs: seq<int>, ys: seq<int>)
    requires Agree(u, cp, xs, ys)
    ensures |xs| == |ys|
  {
  }

  lemma StoreParamRewrites(a: Image, b: Image, l: Layout, u: Assigned, s: State, t: State,
                           i: Instr, j: Instr, e: Effect, f: Effect)
    requires SameState(l, u, s, t) && Same(a, b, l, s.cp, i, t.cp, j) && i.StoreVar? && i.region.Params?
    requires Carries(u, s.cp, s.cp + i.length, {})
    ensures SameResult(l, u, ExecuteFrame(a, s, i, e), ExecuteFrame(b, t, j, f))
  {
    hide SameCallers, Overwrite, Agree, Carries;
    AgreeOn(u, s.cp, s.cp + i.length, s.top.locals, t.top.locals);
  }

  lemma StoreVarRewrites(a: Image, b: Image, l: Layout, u: Assigned, s: State, t: State,
                         i: Instr, j: Instr, e: Effect, f: Effect)
    requires SameState(l, u, s, t) && Same(a, b, l, s.cp, i, t.cp, j) && i.StoreVar?
    requires Carries(u, s.cp, s.cp + i.length, Stored(i))
    ensures SameResult(l, u, ExecuteFrame(a, s, i, e), ExecuteFrame(b, t, j, f))
  {
    hide Same, SameState, SameResult, ExecuteFrame;
    if i.region.Params? {
      StoreParamRewrites(a, b, l, u, s, t, i, j, e, f);
    } else {
      StoreLocalRewrites(a, b, l, u, s, t, i, j, e, f);
    }
  }

  predicate StaysAndFalls(i: Instr) { i.Simple? || i.LoadParam0Inline? || i.CallNative? || i.Given? }

  lemma StraightRewrites(a: Image, b: Image, l: Layout, u: Assigned, s: State, t: State,
                         i: Instr, j: Instr, e: Effect, f: Effect)
    requires SameState(l, u, s, t) && Same(a, b, l, s.cp, i, t.cp, j) && SameEffect(e, f)
    requires StaysAndFalls(i) && Carries(u, s.cp, s.cp + (if i.CallNative? then 4 else i.length), {})
    ensures SameResult(l, u, ExecuteFrame(a, s, i, e), ExecuteFrame(b, t, j, f))
  {
    hide Compute, Pops, Pushes, SameCallers, Takes, GivenResult;
  }

  lemma JumpRewrites(a: Image, b: Image, l: Layout, u: Assigned, s: State, t: State,
                     i: Instr, j: Instr, e: Effect, f: Effect)
    requires SameState(l, u, s, t) && Same(a, b, l, s.cp, i, t.cp, j)
    requires Jumping(i) || i.Unaccepted?
    requires i.Jump? ==> Carries(u, s.cp, s.cp + i.offset, {})
    requires i.Branch? || i.Foreach? ==>
               Carries(u, s.cp, s.cp + i.offset, {}) && Carries(u, s.cp, s.cp + i.length, {})
    requires i.Switch? ==>
               && Carries(u, s.cp, s.cp + 3 + i.count * 2, {})
               && forall v :: 0 <= v < i.count ==> Carries(u, s.cp, SwitchTarget(a, s.cp, i.count, v), {})
    ensures SameResult(l, u, ExecuteFrame(a, s, i, e), ExecuteFrame(b, t, j, f))
  {
    hide SwitchTarget, SameCallers, ToInt32, Taken;
    if i.Switch? && s.top.ops != [] {
      var v := s.top.ops[|s.top.ops| - 1];
      SwitchDefault(a, s.cp, i.count, v);
      SwitchDefault(b, t.cp, i.count, v);
    }
  }

  lemma SwitchDefault(img: Image, cp: int, count: nat, v: int)
    ensures !(0 <= v < count) ==> SwitchTarget(img, cp, count, v) == cp + 3 + count * 2
  {
  }

  /** The callee starts with nothing stored, so whatever its locals hold agrees. */
  lemma CallRewrites(a: Image, b: Image, l: Layout, u: Assigned, s: State, t: State, target: int, target': int,
                     cp: int, cp': int, above: seq<int>, above': seq<int>)
    requires SameState(l, u, s, t) && MethodsLaidOut(a, b, l) && target in a.results
    requires MapsMethod(l, target, target') && Maps(l, cp, cp') && Carries(u, s.cp, cp, {})
    requires target + 2 in u && u[target + 2] == {} && |above| >= 3 + 255 && |above'| >= 3 + 255
    ensures SameResult(l, u, CallFrame(a, s, target, cp, above), CallFrame(b, t, target', cp', above'))
  {
    hide SameCallers;
    assert Maps(l, target + 2, target' + 2);
    var argc := NumParams(a, target);
    if argc <= |s.top.ops| {
      var f, g := s.top.(ops := Keep(s.top.ops, argc)), t.top.(ops := Keep(t.top.ops, argc));
      CallersWithOneMore(l, u, s.callers, t.callers, f, g, cp);
    }
  }

  lemma ReturnRewrites(l: Layout, u: Assigned, s: State, t: State, cells: nat)
    requires SameState(l, u, s, t) && 0 !in l.code && 0 !in l.code.Values
    ensures SameResult(l, u, ReturnFrame(s, cells), ReturnFrame(t, cells))
  {
    if |s.top.ops| == cells && s.top.returnCp != 0 {
      assert l.code[s.top.returnCp] in l.code.Values;
      if s.callers != [] {
        var n := |s.callers| - 1;
        CallersWithoutLast(l, u, s.callers, t.callers, s.top.returnCp);
        assert SameFrame(l, u, Resumes(s.callers, s.top.returnCp, n), s.callers[n], t.callers[n]);
      }
    }
  }

  /** Virtual calls reach corresponding methods. */
  lemma DispatchRewrites(a: Image, b: Image, l: Layout, heap: Heap, cp: int, cp': int, self: int, slot: nat, argc: nat)
    requires MethodsLaidOut(a, b, l) && TablesLaidOut(a, b, l) && SameEntry(a.slots, cp, b.slots, cp')
    ensures var t := Dispatch(a, heap, cp, self, slot, argc);
            && Dispatch(b, heap, cp', self, slot, argc) == MapTarget(l, t)
            && (t.Some? ==> t.value in a.results && t.value in l.methods)
  {
    hide NumParams, NumLocals, Read, TableEntry;
    if Readable(heap.data, self, 2) {
      var table := Read(heap.data, self, 2) * BLOCK;
      if table in a.tables && slot < a.tables[table] {
        var x := TableEntry(a, table, slot);
        if x in a.results { assert x in l.methods; }
      }
    }
  }

  lemma ExecuteRewrites(a: Image, b: Image, l: Layout, u: Assigned, s: State, t: State,
                        i: Instr, j: Instr, e: Effect, f: Effect)
    requires Rewrites(a, b, l) && DefinitelyAssigned(a, u) && SameState(l, u, s, t) && SameEffect(e, f)
    requires Same(a, b, l, s.cp, i, t.cp, j) && i == Fetch(a, s.cp) && (i.Call? ==> i.target in a.results)
    ensures SameResult(l, u, ExecuteFrame(a, s, i, e), ExecuteFrame(b, t, j, f))
  {
    hide CallFrame, ReturnFrame, Dispatch, SameCallers, MethodsLaidOut, TablesLaidOut, Corresponds, Decode;
    assert Flows(a, u, s.cp);
    match i
    case LoadVar(_, _, _, _) => LoadVarRewrites(a, b, l, u, s, t, i, j, e, f);
    case StoreVar(_, _, _, _) => StoreVarRewrites(a, b, l, u, s, t, i, j, e, f);
    case Call(target, loadParam0) => CallsRewrite(a, b, l, u, s, t, i, j, e, f);
    case CallVirtual(slot, argc) => VirtualCallRewrites(a, b, l, u, s, t, i, j, e, f);
    case Return(cells) => ReturnRewrites(l, u, s, t, cells);
    case _ =>
      if StaysAndFalls(i) {
        StraightRewrites(a, b, l, u, s, t, i, j, e, f);
      } else {
        JumpRewrites(a, b, l, u, s, t, i, j, e, f);
      }
  }

  lemma CallsRewrite(a: Image, b: Image, l: Layout, u: Assigned, s: State, t: State,
                     i: Instr, j: Instr, e: Effect, f: Effect)
    requires MethodsLaidOut(a, b, l) && DefinitelyAssigned(a, u) && SameState(l, u, s, t) && SameEffect(e, f)
    requires Same(a, b, l, s.cp, i, t.cp, j) && i.Call? && i.target in a.results && Carries(u, s.cp, s.cp + 3, {})
    ensures SameResult(l, u, ExecuteFrame(a, s, i, e), ExecuteFrame(b, t, j, f))
  {
    hide CallFrame, SameCallers, MethodsLaidOut, Flows;
    if i.loadParam0 {
      if s.top.params != [] {
        var ops := s.top.ops + [s.top.params[0]];
        CallRewrites(a, b, l, u, WithOps(s, ops, s.cp), WithOps(t, ops, t.cp), i.target, j.target, s.cp + 3, t.cp + 3,
                     e.above[1..], f.above[1..]);
      }
    } else {
      CallRewrites(a, b, l, u, s, t, i.target, j.target, s.cp + 3, t.cp + 3, e.above, f.above);
    }
  }

  lemma VirtualCallRewrites(a: Image, b: Image, l: Layout, u: Assigned, s: State, t: State,
                            i: Instr, j: Instr, e: Effect, f: Effect)
    requires MethodsLaidOut(a, b, l) && TablesLaidOut(a, b, l) && DefinitelyAssigned(a, u)
    requires SameState(l, u, s, t) && SameEffect(e, f)
    requires Same(a, b, l, s.cp, i, t.cp, j) && i.CallVirtual? && Carries(u, s.cp, s.cp + 4, {})
    ensures SameResult(l, u, ExecuteFrame(a, s, i, e), ExecuteFrame(b, t, j, f))
  {
    hide CallFrame, Dispatch, SameCallers, MethodsLaidOut, TablesLaidOut, Flows;
    var ops := s.top.ops;
    if 0 < i.argc <= |ops| {
      var self := ops[|ops| - i.argc];
      DispatchRewrites(a, b, l, s.heap, s.cp, t.cp, self, i.slot, i.argc);
      var target := Dispatch(a, s.heap, s.cp, self, i.slot, i.argc);
      if target.Some? {
        CallRewrites(a, b, l, u, s, t, target.value, l.methods[target.value], s.cp + 4, t.cp + 4, e.above, f.above);
      }
    }
  }

  lemma SameReads(a: Image, b: Image, l: Layout, cp: int, i: Instr, cp': int, j: Instr)
    requires Same(a, b, l, cp, i, cp', j) || Fused(a, l, cp, i, cp', j)
    ensures Reads(i) == Reads(j) && CheckedPointer(i) == CheckedPointer(j)
    ensures i.CallNative? || j.CallNative? ==> i == j
    ensures Fused(a, l, cp, i, cp', j) ==> Reads(i) == 2 && CheckedPointer(i).None?
  {
    hide Decode, SwitchTarget;
  }

  lemma SameTrap(a: Image, b: Image, l: Layout, u: Assigned, base: int, s: State, t: State, i: Instr, j: Instr)
    requires a.limit == b.limit && a.natives == b.natives && SameState(l, u, s, t)
    requires Same(a, b, l, s.cp, i, t.cp, j) || Fused(a, l, s.cp, i, t.cp, j)
    ensures Reads(i) == Reads(j) && StackTop(base, s) == StackTop(base, t)
    ensures Reads(i) <= |s.top.ops| ==> FrameTrap(a, base, s, i) == FrameTrap(b, base, t, j)
  {
    SameHeight(l, u, s.callers, t.callers, s.top.returnCp);
    SameReads(a, b, l, s.cp, i, t.cp, j);
    hide SameCallers, Reads, Same, Fused, CheckedPointer;
  }

  /** Every call of checked code names a method. */
  predicate CallsMethod(img: Image, s: State)
  {
    var i := Fetch(img, s.cp);
    i.Call? ==> i.target in img.results
  }

  /** An instruction kept as it is, up to its length and offsets. */
  lemma PlainStepRewrites(a: Image, b: Image, l: Layout, u: Assigned, base: int, s: State, t: State,
                          e: Effect, f: Effect)
    requires Rewrites(a, b, l) && DefinitelyAssigned(a, u) && SameState(l, u, s, t) && SameEffect(e, f)
    requires CallsMethod(a, s) && Same(a, b, l, s.cp, Fetch(a, s.cp), t.cp, Fetch(b, t.cp))
    ensures SameResult(l, u, FrameStep(a, base, s, e), FrameStep(b, base, t, f))
  {
    hide Decode, Same, ExecuteFrame, FrameTrap, Reads, SameCallers, Corresponds, MethodsLaidOut, TablesLaidOut, Flows;
    var i, j := Fetch(a, s.cp), Fetch(b, t.cp);
    SameTrap(a, b, l, u, base, s, t, i, j);
    ExecuteRewrites(a, b, l, u, s, t, i, j, e, f);
  }

  /** The old machine between a comparison and the JumpNonZero the new one has fused with it. */
  predicate Midway(a: Image, b: Image, l: Layout, u: Assigned, base: int, mid: State, t: State)
  {
    var k := Fetch(a, mid.cp);
    var j := Fetch(b, t.cp);
    var ops := t.top.ops;
    && |ops| >= 2 && j.Branch? && j.cond.IntIs?
    && SameCallers(l, u, mid.callers, t.callers, mid.top.returnCp)
    && SameFrame(l, u, mid.cp, mid.top.(ops := ops), t.top) && mid.heap == t.heap
    && mid.top.ops == Keep(ops, 2) + [Flag(Holds(j.cond.c, ops[|ops| - 2], ops[|ops| - 1]))]
    && StackTop(base, t) < b.limit
    && k.Branch? && k.cond.IsNonZero?
    && Maps(l, mid.cp + k.offset, t.cp + j.offset) && Maps(l, mid.cp + k.length, t.cp + j.length)
  }

  lemma FusedFirst(a: Image, b: Image, l: Layout, u: Assigned, base: int, s: State, t: State, e: Effect, f: Effect)
    requires Rewrites(a, b, l) && DefinitelyAssigned(a, u) && SameState(l, u, s, t)
    requires Fused(a, l, s.cp, Fetch(a, s.cp), t.cp, Fetch(b, t.cp))
    ensures var p := FrameStep(a, base, s, e);
            if p.Goes? then Midway(a, b, l, u, base, p.s, t) else FrameStep(b, base, t, f) == p
  {
    hide Decode, SameCallers, Corresponds, MethodsLaidOut, TablesLaidOut, Holds;
    assert Flows(a, u, s.cp);
    var i, j := Fetch(a, s.cp), Fetch(b, t.cp);
    SameTrap(a, b, l, u, base, s, t, i, j);
  }

  /** The JumpNonZero of the old image goes where the fused jump goes. */
  lemma FusedSecond(a: Image, b: Image, l: Layout, u: Assigned, base: int, mid: State, t: State, e: Effect, f: Effect)
    requires a.limit == b.limit && DefinitelyAssigned(a, u) && Midway(a, b, l, u, base, mid, t)
    ensures var p := FrameStep(a, base, mid, e);
            p.Goes? && SameResult(l, u, p, FrameStep(b, base, t, f))
  {
    hide Decode, SameCallers, Holds;
    assert Flows(a, u, mid.cp);
    SameHeight(l, u, mid.callers, t.callers, mid.top.returnCp);
    var ops := t.top.ops;
    assert Keep(mid.top.ops, 1) == Keep(ops, 2);
  }

  /** Corresponding states, or the old one between the two instructions of a fused pair. */
  predicate Tracks(a: Image, b: Image, l: Layout, u: Assigned, base: int, s: State, t: State)
  {
    SameState(l, u, s, t) || Midway(a, b, l, u, base, s, t)
  }

  lemma IsFused(a: Image, b: Image, l: Layout, u: Assigned, s: State, t: State)
    requires Rewrites(a, b, l) && SameState(l, u, s, t)
    requires !Same(a, b, l, s.cp, Fetch(a, s.cp), t.cp, Fetch(b, t.cp))
    ensures Fused(a, l, s.cp, Fetch(a, s.cp), t.cp, Fetch(b, t.cp))
  {
    hide Decode, Same, Fused;
    assert Corresponds(a, b, l, s.cp);
  }
}
