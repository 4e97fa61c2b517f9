/** What holds of the binding cache over every run of its calls. */
module CacheRuns {
  import opened Words
  import opened AddressCache

  // --------------------------------------------------------------- invariant

  predicate LegalSlot(e: Slot)
  {
    && (e.flags == NONE || e.flags == BOUND || e.flags == REQUESTED || e.flags == STATIC)
    && (e.flags == STATIC ==> e.ttl == FOREVER)
    && (e.flags.inUse ==> e.ttl <= FOREVER)
  }

  predicate Good(s: seq<Slot>)
  {
    && (forall k :: 0 <= k < |s| ==> LegalSlot(s[k]))
    && (forall i, j :: 0 <= i < j < |s| && s[i].flags.inUse && s[j].flags.inUse ==> s[i].device != s[j].device)
  }

  datatype Op =
    | AddOp(device: nat, maxApdu: nat, address: Address)
    | BindOp(device: nat)
    | AddBindingOp(device: nat, maxApdu: nat, address: Address)
    | RemoveOp(device: nat)
    | SetTtlOp(device: nat, ttl: nat, fixed: bool)
    | TickOp(seconds: nat)
    | InitOp(lines: seq<Line>)
    | InitPartialOp(lines: seq<Line>)

  function Apply(s: seq<Slot>, op: Op): seq<Slot>
  {
    match op
    case AddOp(d, m, a) => Add(s, d, m, a)
    case BindOp(d) => BindRequest(s, d).0
    case AddBindingOp(d, m, a) => AddBinding(s, d, m, a)
    case RemoveOp(d) => Remove(s, d)
    case SetTtlOp(d, t, f) => SetTtl(s, d, t, f)
    case TickOp(n) => SweepAll(s, Tick(n))
    case InitOp(lines) => ReadFile(SweepAll(s, Clear), lines)
    case InitPartialOp(lines) => ReadFile(SweepAll(s, Partial), lines)
  }

  function Run(s: seq<Slot>, ops: seq<Op>): seq<Slot>
    decreases |ops|
  {
    if ops == [] then s else Run(Apply(s, ops[0]), ops[1..])
  }

  /** Times to live are 32 bits. */
  predicate CTypedOps(ops: seq<Op>)
  {
    forall k :: 0 <= k < |ops| && ops[k].SetTtlOp? ==> ops[k].ttl <= FOREVER
  }

  lemma HeldOnce(s: seq<Slot>, k: nat, device: nat)
    requires Good(s) && k < |s| && Holds(s[k], device)
    ensures First(s, Device(device), 0) == k
  {
  }

  /** A slot may take a device that no other slot holds. */
  lemma UpdateKeepsGood(s: seq<Slot>, k: nat, e: Slot)
    requires Good(s) && k < |s| && LegalSlot(e)
    requires e.flags.inUse ==> forall j :: 0 <= j < |s| && j != k ==> !Holds(s[j], e.device)
    ensures Good(s[k := e])
  {
  }

  lemma HeldNowhere(s: seq<Slot>, device: nat)
    requires First(s, Device(device), 0) == |s|
    ensures forall j :: 0 <= j < |s| ==> !Holds(s[j], device)
  {
    forall j | 0 <= j < |s|
      ensures !Holds(s[j], device)
    {
      assert !Wanted(s[j], Device(device));
    }
  }

  lemma HeldElsewhere(s: seq<Slot>, k: nat)
    requires Good(s) && k < |s| && s[k].flags.inUse
    ensures forall j :: 0 <= j < |s| && j != k ==> !Holds(s[j], s[k].device)
  {
  }

  /** A call on one device changes at most one slot: the one that holds it, or one it moves into. */
  lemma OneSlotKeepsGood(s: seq<Slot>, t: seq<Slot>, device: nat, k: nat)
    requires Good(s) && k < |s| == |t| && t == s[k := t[k]] && LegalSlot(t[k])
    requires t[k].flags.inUse ==> t[k].device == device
    requires First(s, Device(device), 0) == k || First(s, Device(device), 0) == |s|
    ensures Good(t)
  {
    if First(s, Device(device), 0) == k {
      HeldElsewhere(s, k);
    } else {
      HeldNowhere(s, device);
    }
    UpdateKeepsGood(s, k, t[k]);
  }

  lemma AddKeepsGood(s: seq<Slot>, device: nat, maxApdu: nat, a: Address)
    requires Good(s)
    ensures Good(Add(s, device, maxApdu, a)) && |Add(s, device, maxApdu, a)| == |s|
  {
    hide First, Victim, Good;
    var t := Add(s, device, maxApdu, a);
    var k, free, v := First(s, Device(device), 0), First(s, NotInUse, 0), Victim(s);
    var i := if k < |s| then k else if free < |s| then free else v;
    if i < |s| {
      LegalAt(s, i);
      OneSlotKeepsGood(s, t, device, i);
    }
  }

  lemma LegalAt(s: seq<Slot>, k: nat)
    requires Good(s) && k < |s|
    ensures LegalSlot(s[k])
  {
  }

  lemma BindKeepsGood(s: seq<Slot>, device: nat)
    requires Good(s)
    ensures Good(BindRequest(s, device).0) && |BindRequest(s, device).0| == |s|
  {
    hide First, Victim, Good;
    var t := BindRequest(s, device).0;
    var k, free, v := First(s, Device(device), 0), First(s, NotHeld, 0), Victim(s);
    var i := if k < |s| then k else if free < |s| then free else v;
    if i < |s| {
      LegalAt(s, i);
      OneSlotKeepsGood(s, t, device, i);
    }
  }

  lemma ChangeKeepsGood(s: seq<Slot>, op: Op)
    requires Good(s) && CTypedOps([op]) && (op.AddBindingOp? || op.RemoveOp? || op.SetTtlOp?)
    ensures Good(Apply(s, op)) && |Apply(s, op)| == |s|
  {
    hide First, Good;
    assert [op][0] == op;
    var t := Apply(s, op);
    var k := First(s, Device(op.device), 0);
    if k < |s| {
      LegalAt(s, k);
      OneSlotKeepsGood(s, t, op.device, k);
    }
  }

  lemma SweepKeepsGood(s: seq<Slot>, w: Sweep)
    requires w.Clear? || Good(s)
    ensures Good(SweepAll(s, w))
  {
  }

  lemma {:induction false} ReadFileKeepsGood(s: seq<Slot>, lines: seq<Line>)
    requires Good(s)
    ensures Good(ReadFile(s, lines)) && |ReadFile(s, lines)| == |s|
    decreases |lines|
  {
    hide Good, Add, SetTtl;
    if lines != [] {
      var l := lines[0];
      AddKeepsGood(s, l.device, l.maxApdu, l.address);
      var t := Add(s, l.device, l.maxApdu, l.address);
      ChangeKeepsGood(t, SetTtlOp(l.device, 0, true));
      ReadFileKeepsGood(SetTtl(t, l.device, 0, true), lines[1..]);
    }
  }

  lemma ApplyKeepsGood(s: seq<Slot>, op: Op)
    requires Good(s) && CTypedOps([op])
    ensures Good(Apply(s, op)) && |Apply(s, op)| == |s|
  {
    hide Good, Add, BindRequest, SetTtl, Remove, AddBinding, ReadFile;
    match op
    case AddOp(d, m, a) => AddKeepsGood(s, d, m, a);
    case BindOp(d) => BindKeepsGood(s, d);
    case TickOp(n) => SweepKeepsGood(s, Tick(n));
    case InitOp(lines) =>
      SweepKeepsGood(s, Clear);
      ReadFileKeepsGood(SweepAll(s, Clear), lines);
    case InitPartialOp(lines) =>
      SweepKeepsGood(s, Partial);
      ReadFileKeepsGood(SweepAll(s, Partial), lines);
    case _ => ChangeKeepsGood(s, op);
  }

  /** Over every run: one slot at most per device; the flags are none, in use, bind requested or
      static and nothing else; a static slot is bound and never expires. */
  lemma {:induction false} RunKeepsGood(s: seq<Slot>, ops: seq<Op>)
    requires Good(s) && CTypedOps(ops)
    ensures Good(Run(s, ops)) && |Run(s, ops)| == |s|
    decreases |ops|
  {
    hide Good, Apply;
    if ops != [] {
      assert [ops[0]][0] == ops[0];
      ApplyKeepsGood(s, ops[0]);
      RunKeepsGood(Apply(s, ops[0]), ops[1..]);
    }
  }

  /** address_init makes any memory such a cache. */
  lemma InitMakesGood(s: seq<Slot>, lines: seq<Line>)
    ensures Good(Apply(s, InitOp(lines)))
  {
    hide Good, ReadFile;
    SweepKeepsGood(s, Clear);
    ReadFileKeepsGood(SweepAll(s, Clear), lines);
  }

  // ------------------------------------------------------------- adding

  /** Every slot is held by another device and cannot be taken from it. */
  predicate NoRoom(s: seq<Slot>, device: nat)
  {
    forall k :: 0 <= k < |s| ==>
      s[k].flags.inUse && s[k].device != device && (s[k].flags.fixed || s[k].ttl == FOREVER)
  }

  /** A pass finds the entry nearest expiry, the last one among equals; it finds none only if
      every entry of its kind has the longest time. */
  lemma {:induction false} OldestIsNearestExpiry(s: seq<Slot>, bindReq: bool, n: nat)
    requires n <= |s|
    ensures var r := Oldest(s, bindReq, n);
            && (forall j :: 0 <= j < n && Evictable(s[j], bindReq) ==>
                  s[j].ttl >= r.1 || (r.0 == |s| && s[j].ttl >= FOREVER))
            && (forall j :: r.0 < j < n && Evictable(s[j], bindReq) ==> s[j].ttl > r.1)
            && (r.0 == |s| ==> forall j :: 0 <= j < n && Evictable(s[j], bindReq) ==> s[j].ttl >= FOREVER)
  {
    if n > 0 { OldestIsNearestExpiry(s, bindReq, n - 1); }
  }

  /** `k` may be evicted: no entry of its kind is nearer expiry, and if it is unbound no bound
      entry could be taken. */
  predicate FairVictim(s: seq<Slot>, k: nat)
  {
    && k < |s| && s[k].flags.inUse && !s[k].flags.fixed && s[k].ttl < FOREVER
    && (forall j :: 0 <= j < |s| && Evictable(s[j], s[k].flags.bindReq) ==> s[k].ttl <= s[j].ttl)
    && (s[k].flags.bindReq ==> forall j :: 0 <= j < |s| && Evictable(s[j], false) ==> s[j].ttl >= FOREVER)
  }

  lemma VictimIsFair(s: seq<Slot>)
    ensures Victim(s) < |s| ==> FairVictim(s, Victim(s))
    ensures Victim(s) == |s| <==>
            forall j :: 0 <= j < |s| && s[j].flags.inUse && !s[j].flags.fixed ==> s[j].ttl >= FOREVER
  {
    OldestIsNearestExpiry(s, false, |s|);
    OldestIsNearestExpiry(s, true, |s|);
    forall j | 0 <= j < |s| && s[j].flags.inUse && !s[j].flags.fixed
      ensures Evictable(s[j], s[j].flags.bindReq)
    {
    }
  }

  lemma FreeOrFull(s: seq<Slot>, w: Want)
    requires Good(s) && (w == NotInUse || w == NotHeld)
    ensures First(s, w, 0) == |s| <==> forall j :: 0 <= j < |s| ==> s[j].flags.inUse
  {
    if First(s, w, 0) == |s| {
      forall j | 0 <= j < |s|
        ensures s[j].flags.inUse
      {
        LegalAt(s, j);
        assert !Wanted(s[j], w);
      }
    }
  }

  /** The slot a device gets, or `|s|`: its own, a free one, or the victim's. */
  function Target(s: seq<Slot>, device: nat): nat
  {
    var k, free := First(s, Device(device), 0), First(s, NotInUse, 0);
    if k < |s| then k else if free < |s| then free else Victim(s)
  }

  lemma RoomIffTarget(s: seq<Slot>, device: nat)
    requires Good(s)
    ensures Target(s, device) == |s| <==> NoRoom(s, device)
    ensures Target(s, device) <= |s|
  {
    hide First, Victim, Good, Oldest;
    FreeOrFull(s, NotInUse);
    VictimIsFair(s);
    if First(s, Device(device), 0) == |s| { HeldNowhere(s, device); }
    forall j | 0 <= j < |s|
      ensures LegalSlot(s[j])
    {
      LegalAt(s, j);
    }

    if First(s, Device(device), 0) < |s| {
      assert Wanted(s[First(s, Device(device), 0)], Device(device));
    }
  }

  /** After address_add, lookup returns what was added, unless there was no room, and then
      nothing has changed. */
  lemma AddThenLookup(s: seq<Slot>, device: nat, maxApdu: nat, a: Address)
    requires Good(s)
    ensures !NoRoom(s, device) ==> Lookup(Add(s, device, maxApdu, a), device) == Some((maxApdu, a))
    ensures NoRoom(s, device) ==> Add(s, device, maxApdu, a) == s && Lookup(s, device) == None
  {
    hide First, Victim, Good, NoRoom;
    var t, k := Add(s, device, maxApdu, a), Target(s, device);
    RoomIffTarget(s, device);
    AddKeepsGood(s, device, maxApdu, a);
    if k < |s| { HeldOnce(t, k, device); }
  }

  /** The device that loses its entry to a newcomer. */
  function Displaced(s: seq<Slot>, device: nat): Option<nat>
  {
    if First(s, Device(device), 0) == |s| && First(s, NotInUse, 0) == |s| && Victim(s) < |s|
    then Some(s[Victim(s)].device)
    else None
  }

  /** Every other device keeps its binding, except the one displaced if there is one. */
  lemma AddSparesOthers(s: seq<Slot>, device: nat, maxApdu: nat, a: Address, other: nat)
    requires Good(s) && other != device
    ensures Lookup(Add(s, device, maxApdu, a), other)
            == if Displaced(s, device) == Some(other) then None else Lookup(s, other)
  {
    hide First, Victim, Good;
    AddKeepsGood(s, device, maxApdu, a);
    var t, k := Add(s, device, maxApdu, a), Target(s, device);
    OthersStay(s, t, device, other, k);
  }

  lemma OthersStay(s: seq<Slot>, t: seq<Slot>, device: nat, other: nat, k: nat)
    requires Good(s) && Good(t) && |t| == |s| && other != device && k <= |s|
    requires if k == |s| then t == s else t == s[k := t[k]] && Holds(t[k], device)
    ensures Lookup(t, other) == if k < |s| && Holds(s[k], other) then None else Lookup(s, other)
  {
    var j := First(s, Device(other), 0);
    if k < |s| && Holds(s[k], other) {
      HeldElsewhere(s, k);
    } else if j < |s| {
      HeldOnce(t, j, other);
    } else {
      HeldNowhere(s, other);
    }
  }

  // --------------------------------------------------------- bind requests

  predicate Waiting(s: seq<Slot>, device: nat)
  {
    exists k :: 0 <= k < |s| && Holds(s[k], device) && s[k].flags.bindReq
  }

  /** A bind request answers what lookup does; on a bound device it changes nothing, and otherwise
      it leaves a request waiting wherever there is room. */
  lemma BindRequestAnswers(s: seq<Slot>, device: nat)
    requires Good(s)
    ensures var (t, found) := BindRequest(s, device);
            && found == Lookup(s, device) == Lookup(t, device)
            && (found.Some? ==> t == s)
            && (found.None? ==> (Waiting(t, device) <==> !NoRoom(s, device)))
  {
    hide First, Victim, NoRoom, Good;
    var (t, found) := BindRequest(s, device);
    var k, free, v := First(s, Device(device), 0), First(s, NotHeld, 0), Victim(s);
    RoomIffTarget(s, device);
    FreeOrFull(s, NotHeld);
    FreeOrFull(s, NotInUse);
    SameFreeSlot(s);
    BindKeepsGood(s, device);
    if k < |s| {
      LegalAt(s, k);
    } else {
      HeldNowhere(s, device);
      var i := if free < |s| then free else v;
      if i < |s| {
        HeldOnce(t, i, device);
      }
    }
  }

  /** No slot is ever reserved between calls, so both searches for a free one agree. */
  lemma SameFreeSlot(s: seq<Slot>)
    requires Good(s)
    ensures First(s, NotHeld, 0) == First(s, NotInUse, 0)
  {
    forall i | 0 <= i < |s|
      ensures Wanted(s[i], NotHeld) == Wanted(s[i], NotInUse)
    {
      LegalAt(s, i);
    }

    assert First(s, NotHeld, 0) <= First(s, NotInUse, 0);
  }

  /** The binding protocol: a request for which there was room, then the device's answer, binds
      the device for a day or keeps it static; an answer nobody asked for changes nothing. */
  lemma RequestThenAnswerBinds(s: seq<Slot>, device: nat, maxApdu: nat, a: Address)
    requires Good(s)
    ensures var t := AddBinding(BindRequest(s, device).0, device, maxApdu, a);
            !NoRoom(s, device) ==> Lookup(t, device) == Some((maxApdu, a))
    ensures (forall k :: 0 <= k < |s| ==> !Holds(s[k], device)) ==> AddBinding(s, device, maxApdu, a) == s
  {
    hide NoRoom, Victim, BindRequest, Good;
    BindRequestAnswers(s, device);
    BindKeepsGood(s, device);
    var t := BindRequest(s, device).0;
    var k := First(t, Device(device), 0);
    if k < |t| {
      ChangeKeepsGood(t, AddBindingOp(device, maxApdu, a));
      HeldOnce(AddBinding(t, device, maxApdu, a), k, device);
    } else {
      HeldNowhere(t, device);
    }
  }

  /** A request, too, costs no other device its binding but the displaced one. */
  lemma BindSparesOthers(s: seq<Slot>, device: nat, other: nat)
    requires Good(s) && other != device
    ensures Lookup(BindRequest(s, device).0, other)
            == if Displaced(s, device) == Some(other) then None else Lookup(s, other)
  {
    hide First, Victim, Good;
    BindKeepsGood(s, device);
    SameFreeSlot(s);
    var k := Target(s, device);
    if First(s, Device(device), 0) < |s| { LegalAt(s, k); }
    OthersStay(s, BindRequest(s, device).0, device, other, k);
  }

  // --------------------------------------------------------- static entries

  /** Calls that may end a static entry: its removal, its time to live, a full reset. */
  predicate Spares(op: Op, device: nat)
  {
    match op
    case RemoveOp(d) => d != device
    case SetTtlOp(d, _, fixed) => d != device || fixed
    case InitOp(_) => false
    case _ => true
  }

  predicate StaticAt(s: seq<Slot>, k: nat, device: nat)
  {
    k < |s| && s[k].flags == STATIC && s[k].device == device
  }

  /** A call on another device does not touch the slot; one on this device finds it. */
  lemma StaticIsFound(s: seq<Slot>, k: nat, device: nat, other: nat)
    requires Good(s) && StaticAt(s, k, device)
    ensures First(s, Device(other), 0) == k <==> other == device
    ensures First(s, NotInUse, 0) != k && First(s, NotHeld, 0) != k && Victim(s) != k
  {
    hide Oldest;
    HeldOnce(s, k, device);
    if First(s, Device(other), 0) == k { assert Wanted(s[k], Device(other)); }
  }

  lemma AddSparesStatic(s: seq<Slot>, k: nat, device: nat, d: nat, maxApdu: nat, a: Address)
    requires Good(s) && StaticAt(s, k, device)
    ensures StaticAt(Add(s, d, maxApdu, a), k, device)
    ensures d != device ==> Add(s, d, maxApdu, a)[k] == s[k]
  {
    hide First, Victim, Good;
    StaticIsFound(s, k, device, d);
  }

  lemma {:induction false} ReadFileSparesStatic(s: seq<Slot>, k: nat, device: nat, lines: seq<Line>)
    requires Good(s) && StaticAt(s, k, device)
    ensures StaticAt(ReadFile(s, lines), k, device)
    decreases |lines|
  {
    hide Good, Add, SetTtl;
    if lines != [] {
      var l := lines[0];
      var t := Add(s, l.device, l.maxApdu, l.address);
      AddSparesStatic(s, k, device, l.device, l.maxApdu, l.address);
      AddKeepsGood(s, l.device, l.maxApdu, l.address);
      ChangeSparesStatic(t, k, device, SetTtlOp(l.device, 0, true));
      ChangeKeepsGood(t, SetTtlOp(l.device, 0, true));
      ReadFileSparesStatic(SetTtl(t, l.device, 0, true), k, device, lines[1..]);
    }
  }

  lemma ChangeSparesStatic(s: seq<Slot>, k: nat, device: nat, op: Op)
    requires Good(s) && StaticAt(s, k, device) && Spares(op, device)
    requires op.BindOp? || op.AddBindingOp? || op.RemoveOp? || op.SetTtlOp?
    ensures StaticAt(Apply(s, op), k, device)
  {
    hide First, Victim, Good;
    StaticIsFound(s, k, device, op.device);
  }

  lemma ApplySparesStatic(s: seq<Slot>, k: nat, device: nat, op: Op)
    requires Good(s) && StaticAt(s, k, device) && Spares(op, device)
    ensures StaticAt(Apply(s, op), k, device)
  {
    hide Good, First, ReadFile, Add, BindRequest, AddBinding, Remove, SetTtl;
    LegalAt(s, k);
    match op
    case AddOp(d, m, a) => AddSparesStatic(s, k, device, d, m, a);
    case TickOp(n) =>
    case InitPartialOp(lines) =>
      SweepKeepsGood(s, Partial);
      ReadFileSparesStatic(SweepAll(s, Partial), k, device, lines);
    case _ => ChangeSparesStatic(s, k, device, op);
  }

  /** A static entry outlives every run that does not remove it, make it temporary or reset the
      cache: no eviction, timer or restart takes it. */
  lemma {:induction false} StaticSurvives(s: seq<Slot>, k: nat, device: nat, ops: seq<Op>)
    requires Good(s) && CTypedOps(ops) && StaticAt(s, k, device)
    requires forall i :: 0 <= i < |ops| ==> Spares(ops[i], device)
    ensures StaticAt(Run(s, ops), k, device) && Lookup(Run(s, ops), device).Some?
    decreases |ops|
  {
    hide Good, Apply;
    if ops == [] {
      HeldOnce(s, k, device);
    } else {
      assert [ops[0]][0] == ops[0];
      ApplyKeepsGood(s, ops[0]);
      ApplySparesStatic(s, k, device, ops[0]);
      StaticSurvives(Apply(s, ops[0]), k, device, ops[1..]);
    }
  }

  // ---------------------------------------------------------------- timer

  function Ticks(times: seq<nat>): (ops: seq<Op>)
    ensures |ops| == |times| && forall k :: 0 <= k < |times| ==> ops[k] == TickOp(times[k])
  {
    if times == [] then [] else [TickOp(times[0])] + Ticks(times[1..])
  }

  function Sum(times: seq<nat>): nat
  {
    if times == [] then 0 else times[0] + Sum(times[1..])
  }

  /** However the timer is called, an entry that is not static is gone exactly when more time has
      passed than it had to live. */
  lemma {:induction false} EntryExpires(s: seq<Slot>, k: nat, times: seq<nat>)
    requires Good(s) && k < |s| && s[k].flags.inUse && !s[k].flags.fixed
    ensures var t := Run(s, Ticks(times));
            && k < |t|
            && t[k] == if Sum(times) <= s[k].ttl then s[k].(ttl := s[k].ttl - Sum(times))
                       else t[k].(flags := NONE)
    decreases |times|
  {
    hide Good;
    if times != [] {
      var t := SweepAll(s, Tick(times[0]));
      assert Ticks(times)[1..] == Ticks(times[1..]);
      SweepKeepsGood(s, Tick(times[0]));
      if t[k].flags.inUse {
        EntryExpires(t, k, times[1..]);
      } else {
        ClearedStaysClear(t, k, times[1..]);
      }
    }
  }

  lemma {:induction false} ClearedStaysClear(s: seq<Slot>, k: nat, times: seq<nat>)
    requires k < |s| && s[k].flags == NONE
    ensures k < |Run(s, Ticks(times))| && Run(s, Ticks(times))[k].flags == NONE
    decreases |times|
  {
    if times != [] {
      assert Ticks(times)[1..] == Ticks(times[1..]);
      ClearedStaysClear(SweepAll(s, Tick(times[0])), k, times[1..]);
    }
  }

  // -------------------------------------------------------------- restart

  predicate Names(lines: seq<Line>, device: nat)
  {
    exists i :: 0 <= i < |lines| && lines[i].device == device
  }

  /** The devices that lose their entries to those of the file. */
  function DroppedBy(s: seq<Slot>, lines: seq<Line>): set<nat>
    decreases |lines|
  {
    if lines == [] then {}
    else
      var d := Displaced(s, lines[0].device);
      (if d.Some? then {d.value} else {}) + DroppedBy(ReadLine(s, lines[0]), lines[1..])
  }

  lemma ReadLineKeepsGood(s: seq<Slot>, l: Line)
    requires Good(s)
    ensures Good(ReadLine(s, l)) && |ReadLine(s, l)| == |s|
  {
    hide Good, Add, SetTtl;
    AddKeepsGood(s, l.device, l.maxApdu, l.address);
    ChangeKeepsGood(Add(s, l.device, l.maxApdu, l.address), SetTtlOp(l.device, 0, true));
  }

  /** Setting a time to live changes no binding. */
  lemma TtlKeepsBindings(s: seq<Slot>, device: nat, ttl: nat, fixed: bool, other: nat)
    requires Good(s)
    ensures Lookup(SetTtl(s, device, ttl, fixed), other) == Lookup(s, other)
  {
    var t, k := SetTtl(s, device, ttl, fixed), First(s, Device(device), 0);
    var j := First(s, Device(other), 0);
    forall i | 0 <= i < |s|
      ensures Wanted(s[i], Device(other)) == Wanted(t[i], Device(other))
    {
    }

    if j < |s| { assert Wanted(t[j], Device(other)); }
    assert First(t, Device(other), 0) == j;
  }

  lemma LineSparesOthers(s: seq<Slot>, l: Line, other: nat)
    requires Good(s) && other != l.device
    ensures Lookup(ReadLine(s, l), other)
            == if Displaced(s, l.device) == Some(other) then None else Lookup(s, other)
  {
    hide Good, Add, SetTtl, Lookup, Displaced;
    AddSparesOthers(s, l.device, l.maxApdu, l.address, other);
    AddKeepsGood(s, l.device, l.maxApdu, l.address);
    TtlKeepsBindings(Add(s, l.device, l.maxApdu, l.address), l.device, 0, true, other);
  }

  lemma {:induction false} FileSparesOthers(s: seq<Slot>, lines: seq<Line>, other: nat)
    requires Good(s) && !Names(lines, other)
    ensures Lookup(ReadFile(s, lines), other) == if other in DroppedBy(s, lines) then None else Lookup(s, other)
    decreases |lines|
  {
    hide Good, Lookup, Displaced, ReadLine;
    if lines != [] {
      NotNamed(lines, other);
      LineSparesOthers(s, lines[0], other);
      ReadLineKeepsGood(s, lines[0]);
      FileSparesOthers(ReadLine(s, lines[0]), lines[1..], other);
    }
  }

  lemma NotNamed(lines: seq<Line>, device: nat)
    requires lines != [] && !Names(lines, device)
    ensures lines[0].device != device && !Names(lines[1..], device)
  {
  }

  /** The sweep forgets the requests that are waiting and the entries with no time left. */
  lemma SweptBinding(s: seq<Slot>, device: nat)
    requires Good(s)
    ensures var k := First(s, Device(device), 0);
            Lookup(SweepAll(s, Partial), device)
            == if k < |s| && s[k].ttl == 0 then None else Lookup(s, device)
  {
    var t, k := SweepAll(s, Partial), First(s, Device(device), 0);
    SweepKeepsGood(s, Partial);
    if k < |s| {
      LegalAt(s, k);
      if t[k].flags.inUse {
        HeldOnce(t, k, device);
      } else {
        HeldElsewhere(s, k);
      }
    } else {
      HeldNowhere(s, device);
    }
  }

  /** A partial restart keeps the binding of a device its file does not name, unless no time was left
      or one of the file took its place. */
  lemma PartialKeepsBindings(s: seq<Slot>, lines: seq<Line>, device: nat)
    requires Good(s) && !Names(lines, device)
    ensures var k := First(s, Device(device), 0);
            Lookup(Apply(s, InitPartialOp(lines)), device)
            == if (k < |s| && s[k].ttl == 0) || device in DroppedBy(SweepAll(s, Partial), lines) then None
               else Lookup(s, device)
  {
    hide Good, Lookup, ReadFile, DroppedBy;
    SweptBinding(s, device);
    SweepKeepsGood(s, Partial);
    FileSparesOthers(SweepAll(s, Partial), lines, device);
  }

  lemma {:induction false} FileInParts(s: seq<Slot>, before: seq<Line>, after: seq<Line>)
    ensures ReadFile(s, before + after) == ReadFile(ReadFile(s, before), after)
    decreases |before|
  {
    hide Add, SetTtl;
    if before == [] {
      assert before + after == after;
    } else {
      assert (before + after)[0] == before[0] && (before + after)[1..] == before[1..] + after;
      FileInParts(ReadLine(s, before[0]), before[1..], after);
    }
  }

  /** A line binds its device, for good, wherever there is room. */
  lemma LineBinds(s: seq<Slot>, l: Line)
    requires Good(s)
    ensures NoRoom(s, l.device) ==> Lookup(ReadLine(s, l), l.device) == None
    ensures !NoRoom(s, l.device) ==>
              && Lookup(ReadLine(s, l), l.device) == Some((l.maxApdu, l.address))
              && StaticAt(ReadLine(s, l), Target(s, l.device), l.device)
  {
    hide First, Victim, Good, NoRoom, Displaced;
    var t, k := Add(s, l.device, l.maxApdu, l.address), Target(s, l.device);
    AddThenLookup(s, l.device, l.maxApdu, l.address);
    AddKeepsGood(s, l.device, l.maxApdu, l.address);
    TtlKeepsBindings(t, l.device, 0, true, l.device);
    RoomIffTarget(s, l.device);
    if k < |s| {
      HeldOnce(t, k, l.device);
      LegalAt(t, k);
    }
  }

  /** A static entry is displaced by no line. */
  lemma {:induction false} StaticNotDropped(s: seq<Slot>, k: nat, device: nat, lines: seq<Line>)
    requires Good(s) && StaticAt(s, k, device) && !Names(lines, device)
    ensures device !in DroppedBy(s, lines)
    decreases |lines|
  {
    hide Good, Add, SetTtl, Displaced;
    if lines != [] {
      NotNamed(lines, device);
      var l := lines[0];
      var t := Add(s, l.device, l.maxApdu, l.address);
      StaticNotDisplaced(s, k, device, l.device);
      AddSparesStatic(s, k, device, l.device, l.maxApdu, l.address);
      AddKeepsGood(s, l.device, l.maxApdu, l.address);
      ChangeSparesStatic(t, k, device, SetTtlOp(l.device, 0, true));
      ReadLineKeepsGood(s, l);
      StaticNotDropped(ReadLine(s, l), k, device, lines[1..]);
    }
  }

  lemma StaticNotDisplaced(s: seq<Slot>, k: nat, device: nat, newcomer: nat)
    requires Good(s) && StaticAt(s, k, device)
    ensures Displaced(s, newcomer) != Some(device)
  {
    hide First, Victim;
    StaticIsFound(s, k, device, newcomer);
  }

  /** After a restart the last line that names a device binds it, if there was room for that line. */
  lemma FileBinds(s: seq<Slot>, before: seq<Line>, l: Line, after: seq<Line>)
    requires Good(s) && !Names(after, l.device)
    ensures Lookup(ReadFile(s, before + [l] + after), l.device)
            == if NoRoom(ReadFile(s, before), l.device) then None else Some((l.maxApdu, l.address))
  {
    hide Good, Lookup, NoRoom, DroppedBy, Target, StaticAt, Names;
    var t := ReadFile(s, before);
    FileInParts(s, before, [l] + after);
    assert before + [l] + after == before + ([l] + after);
    FileInParts(t, [l], after);
    assert ReadFile(t, [l]) == ReadLine(t, l);
    ReadFileKeepsGood(s, before);
    ReadLineKeepsGood(t, l);
    LineBinds(t, l);
    FileSparesOthers(ReadLine(t, l), after, l.device);
    if !NoRoom(t, l.device) { StaticNotDropped(ReadLine(t, l), Target(t, l.device), l.device, after); }
  }
}
