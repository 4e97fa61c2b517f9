/** How long what the cache holds is found, in seconds, however often the timer is called
    (address.c:319-345, 399-551, 820-837). */
module CacheLifetimes {
  import opened Words
  import opened AddressCache
  import opened CacheRuns

  // -------------------------------------------------------------- the timer

  lemma {:induction false} TicksAddNothing(s: seq<Slot>, times: seq<nat>)
    ensures var t := Run(s, Ticks(times));
            |t| == |s| && forall k :: 0 <= k < |s| && t[k].flags.inUse ==>
                            s[k].flags.inUse && t[k].device == s[k].device && t[k].flags == s[k].flags
    decreases |times|
  {
    if times != [] {
      var t := SweepAll(s, Tick(times[0]));
      assert Ticks(times)[1..] == Ticks(times[1..]);
      assert Run(s, Ticks(times)) == Run(t, Ticks(times[1..]));
      TicksAddNothing(t, times[1..]);
    }
  }

  lemma TicksKeepGood(s: seq<Slot>, times: seq<nat>)
    requires Good(s)
    ensures Good(Run(s, Ticks(times))) && |Run(s, Ticks(times))| == |s|
  {
    hide Good;
    RunKeepsGood(s, Ticks(times));
  }

  /** What slot `k` holds for a device is found, or waits, as long as its time lasts; what is static is
      always found. */
  lemma SlotLives(s: seq<Slot>, k: nat, device: nat, times: seq<nat>)
    requires Good(s) && k < |s| && Holds(s[k], device)
    ensures var t, e := Run(s, Ticks(times)), s[k];
            var alive := e.flags.fixed || Sum(times) <= e.ttl;
            && Lookup(t, device) == (if alive && !e.flags.bindReq then Some((e.maxApdu, e.address)) else None)
            && (Waiting(t, device) <==> alive && e.flags.bindReq)
  {
    hide Good, Ticks, Sum, Run;
    var t := Run(s, Ticks(times));
    TicksAddNothing(s, times);
    TicksKeepGood(s, times);
    LegalAt(s, k);
    if s[k].flags.fixed {
      StaticStays(s, k, times);
      HeldOnce(t, k, device);
      HeldElsewhere(t, k);
    } else {
      EntryExpires(s, k, times);
      HeldElsewhere(s, k);
      if t[k].flags.inUse {
        HeldOnce(t, k, device);
        HeldElsewhere(t, k);
      }
    }
  }

  lemma {:induction false} StaticStays(s: seq<Slot>, k: nat, times: seq<nat>)
    requires k < |s| && s[k].flags == STATIC
    ensures var t := Run(s, Ticks(times)); k < |t| && t[k] == s[k]
    decreases |times|
  {
    if times != [] {
      var t := SweepAll(s, Tick(times[0]));
      assert Ticks(times)[1..] == Ticks(times[1..]);
      assert Run(s, Ticks(times)) == Run(t, Ticks(times[1..]));
      StaticStays(t, k, times[1..]);
    }
  }

  /** The device has a static entry. */
  predicate IsStatic(s: seq<Slot>, device: nat)
  {
    exists k :: 0 <= k < |s| && Holds(s[k], device) && s[k].flags.fixed
  }

  predicate IsHeld(s: seq<Slot>, device: nat) { exists k :: 0 <= k < |s| && Holds(s[k], device) }

  lemma HeldAt(s: seq<Slot>, device: nat)
    requires Good(s)
    ensures var k := First(s, Device(device), 0);
            && (IsHeld(s, device) <==> k < |s|)
            && (IsStatic(s, device) <==> k < |s| && s[k].flags.fixed)
            && (k < |s| ==> Holds(s[k], device) && LegalSlot(s[k]))
  {
    var k := First(s, Device(device), 0);
    if k < |s| {
      HeldElsewhere(s, k);
    } else {
      HeldNowhere(s, device);
    }
  }

  // ------------------------------------------------------------ what is added

  /** The time a call leaves for the device it is about, found in one of its slots. */
  predicate LeavesFor(t: seq<Slot>, device: nat, k: nat, fixed: bool, bindReq: bool, ttl: nat, binding: (nat, Address))
  {
    && k < |t| && Holds(t[k], device) && t[k].flags.fixed == fixed && t[k].flags.bindReq == bindReq
    && (!fixed ==> t[k].ttl == ttl) && (!bindReq ==> (t[k].maxApdu, t[k].address) == binding)
  }

  lemma AddLeaves(s: seq<Slot>, device: nat, maxApdu: nat, a: Address)
    requires Good(s) && !NoRoom(s, device)
    ensures LeavesFor(Add(s, device, maxApdu, a), device, Target(s, device), IsStatic(s, device), false,
                      if IsHeld(s, device) then 86400 else 3600, (maxApdu, a))
  {
    hide First, Victim, Good, NoRoom;
    RoomIffTarget(s, device);
    HeldAt(s, device);
  }

  lemma BindLeaves(s: seq<Slot>, device: nat)
    requires Good(s) && !NoRoom(s, device)
    ensures var t, k := BindRequest(s, device).0, Target(s, device);
            && k < |t| && Holds(t[k], device)
            && (if IsHeld(s, device) then t == s else t[k].flags == REQUESTED && t[k].ttl == 3600)
            && IsHeld(t, device) && IsStatic(t, device) == IsStatic(s, device)
  {
    hide First, Victim, Good, NoRoom;
    var t, k := BindRequest(s, device).0, Target(s, device);
    RoomIffTarget(s, device);
    SameFreeSlot(s);
    HeldAt(s, device);
    BindKeepsGood(s, device);
    HeldOnce(t, k, device);
    HeldAt(t, device);
  }

  lemma AnswerLeaves(s: seq<Slot>, device: nat, maxApdu: nat, a: Address)
    requires Good(s) && IsHeld(s, device)
    ensures LeavesFor(AddBinding(s, device, maxApdu, a), device, First(s, Device(device), 0),
                      IsStatic(s, device), false, 86400, (maxApdu, a))
  {
    hide First, Good;
    HeldAt(s, device);
  }

  lemma LeftFound(t: seq<Slot>, device: nat, k: nat, fixed: bool, ttl: nat, binding: (nat, Address), times: seq<nat>)
    requires Good(t) && LeavesFor(t, device, k, fixed, false, ttl, binding)
    ensures Lookup(Run(t, Ticks(times)), device) == if fixed || Sum(times) <= ttl then Some(binding) else None
  {
    hide Good, Run, Lookup, Waiting;
    SlotLives(t, k, device, times);
  }

  lemma OpsThenTicks(s: seq<Slot>, ops: seq<Op>, times: seq<nat>)
    ensures Run(s, ops + Ticks(times)) == Run(Run(s, ops), Ticks(times))
    decreases |ops|
  {
    hide Apply;
    if ops == [] {
      assert ops + Ticks(times) == Ticks(times);
    } else {
      assert (ops + Ticks(times))[0] == ops[0] && (ops + Ticks(times))[1..] == ops[1..] + Ticks(times);
      OpsThenTicks(Apply(s, ops[0]), ops[1..], times);
    }
  }

  lemma OneOp(s: seq<Slot>, op: Op)
    ensures Run(s, [op]) == Apply(s, op)
  {
    hide Apply;
    assert Run(Apply(s, op), []) == Apply(s, op);
  }

  lemma TwoOps(s: seq<Slot>, op: Op, op': Op)
    ensures Run(s, [op, op']) == Apply(Apply(s, op), op')
  {
    hide Apply;
    OneOp(Apply(s, op), op');
    assert [op, op'][1..] == [op'];
  }

  // ----------------------------------------------------------------- lifetimes

  /** A request with room for it and the device's answer bind the device for 86400 seconds, or for good if
      it is static: lookup finds it after timer calls that sum to no more, and not after more. */
  lemma AnswerLivesADay(s: seq<Slot>, device: nat, maxApdu: nat, a: Address, times: seq<nat>)
    requires Good(s) && !NoRoom(s, device)
    ensures Lookup(Run(s, [BindOp(device), AddBindingOp(device, maxApdu, a)] + Ticks(times)), device)
            == if IsStatic(s, device) || Sum(times) <= 86400 then Some((maxApdu, a)) else None
  {
    hide Good, Run, Lookup, NoRoom, IsStatic, IsHeld, LeavesFor, BindRequest, AddBinding;
    var ops := [BindOp(device), AddBindingOp(device, maxApdu, a)];
    OpsThenTicks(s, ops, times);
    TwoOps(s, ops[0], ops[1]);
    BindLeaves(s, device);
    BindKeepsGood(s, device);
    var t := BindRequest(s, device).0;
    AnswerLeaves(t, device, maxApdu, a);
    ChangeKeepsGood(t, AddBindingOp(device, maxApdu, a));
    LeftFound(AddBinding(t, device, maxApdu, a), device, First(t, Device(device), 0), IsStatic(s, device), 86400,
              (maxApdu, a), times);
  }

  /** What address_add adds with room for it is found for an hour, what it renews for a day. */
  lemma AddedLives(s: seq<Slot>, device: nat, maxApdu: nat, a: Address, times: seq<nat>)
    requires Good(s) && !NoRoom(s, device)
    ensures var lifetime := if IsHeld(s, device) then 86400 else 3600;
            Lookup(Run(s, [AddOp(device, maxApdu, a)] + Ticks(times)), device)
            == if IsStatic(s, device) || Sum(times) <= lifetime then Some((maxApdu, a)) else None
  {
    hide Good, Run, Lookup, NoRoom, IsStatic, IsHeld, LeavesFor, Add;
    OpsThenTicks(s, [AddOp(device, maxApdu, a)], times);
    OneOp(s, AddOp(device, maxApdu, a));
    AddLeaves(s, device, maxApdu, a);
    AddKeepsGood(s, device, maxApdu, a);
    LeftFound(Add(s, device, maxApdu, a), device, Target(s, device), IsStatic(s, device),
              if IsHeld(s, device) then 86400 else 3600, (maxApdu, a), times);
  }

  /** A request for a device the cache does not hold waits for an hour. */
  lemma RequestWaitsAnHour(s: seq<Slot>, device: nat, times: seq<nat>)
    requires Good(s) && !NoRoom(s, device) && !IsHeld(s, device)
    ensures Waiting(Run(s, [BindOp(device)] + Ticks(times)), device) <==> Sum(times) <= 3600
  {
    hide Good, Run, Lookup, Waiting, NoRoom, IsStatic, IsHeld, BindRequest;
    OpsThenTicks(s, [BindOp(device)], times);
    OneOp(s, BindOp(device));
    BindLeaves(s, device);
    BindKeepsGood(s, device);
    SlotLives(BindRequest(s, device).0, Target(s, device), device, times);
  }

  /** address_set_device_TTL gives a bound device the time it names, or for good as static; a request that
      waits it gives that time to wait. */
  lemma TtlLives(s: seq<Slot>, device: nat, ttl: nat, fixed: bool, times: seq<nat>)
    requires Good(s) && ttl <= 0xFFFF_FFFF && IsHeld(s, device)
    ensures var t := Run(s, [SetTtlOp(device, ttl, fixed)] + Ticks(times));
            && (Lookup(s, device).Some? ==>
                  Lookup(t, device) == if fixed || Sum(times) <= ttl then Lookup(s, device) else None)
            && (Lookup(s, device).None? ==>
                  Lookup(t, device).None? && (Waiting(t, device) <==> Sum(times) <= ttl))
  {
    hide Good, Run, Waiting, IsStatic, IsHeld;
    OpsThenTicks(s, [SetTtlOp(device, ttl, fixed)], times);
    OneOp(s, SetTtlOp(device, ttl, fixed));
    HeldAt(s, device);
    SetTtlKeepsGood(s, device, ttl, fixed);
    SlotLives(SetTtl(s, device, ttl, fixed), First(s, Device(device), 0), device, times);
  }

  lemma SetTtlKeepsGood(s: seq<Slot>, device: nat, ttl: nat, fixed: bool)
    requires Good(s) && ttl <= 0xFFFF_FFFF
    ensures Good(SetTtl(s, device, ttl, fixed))
  {
    hide Good, SetTtl;
    ChangeKeepsGood(s, SetTtlOp(device, ttl, fixed));
  }

  predicate NoneWaits(s: seq<Slot>) { forall k :: 0 <= k < |s| && s[k].flags.inUse ==> !s[k].flags.bindReq }

  lemma LineLeavesNoneWaiting(s: seq<Slot>, l: Line)
    requires NoneWaits(s)
    ensures NoneWaits(ReadLine(s, l))
  {
    hide First, Victim;
  }

  lemma {:induction false} FileLeavesNoneWaiting(s: seq<Slot>, lines: seq<Line>)
    requires NoneWaits(s)
    ensures NoneWaits(ReadFile(s, lines))
    decreases |lines|
  {
    hide ReadLine, NoneWaits;
    if lines != [] {
      LineLeavesNoneWaiting(s, lines[0]);
      FileLeavesNoneWaiting(ReadLine(s, lines[0]), lines[1..]);
    }
  }

  /** A restart, partial or not, drops every request, and a partial one every slot that was reserved or had
      no time left. */
  lemma RestartDropsRequests(s: seq<Slot>, lines: seq<Line>)
    ensures NoneWaits(Run(s, [InitPartialOp(lines)])) && NoneWaits(Run(s, [InitOp(lines)]))
    ensures forall k :: 0 <= k < |s| && (s[k].flags.bindReq || s[k].flags.reserved || s[k].ttl == 0) ==>
              !SweepAll(s, Partial)[k].flags.inUse
  {
    hide ReadFile, Run;
    OneOp(s, InitPartialOp(lines));
    OneOp(s, InitOp(lines));
    FileLeavesNoneWaiting(SweepAll(s, Partial), lines);
    FileLeavesNoneWaiting(SweepAll(s, Clear), lines);
  }

  // ----------------------------------------------------------------- addresses

  /** What is compared of an address: its network; behind a router the address there, whatever the router;
      on the local network the MAC too. */
  function Identity(a: Address): (nat, nat, seq<byte>, nat, seq<byte>)
    requires CTypedAddress(a) && a.macLen <= MAX_MAC_LEN && a.len <= MAX_MAC_LEN
  {
    (a.net, a.len, a.adr[..a.len], if a.net == 0 then a.macLen else 0, if a.net == 0 then a.mac[..a.macLen] else [])
  }

  lemma SameIsIdentity(a: Address, b: Address)
    requires CTypedAddress(a) && a.macLen <= MAX_MAC_LEN && a.len <= MAX_MAC_LEN
    requires CTypedAddress(b) && b.macLen <= MAX_MAC_LEN && b.len <= MAX_MAC_LEN
    ensures SameAddress(a, b) <==> Identity(a) == Identity(b)
  {
  }

  /** The device found at an address is bound there, and none is found only if none is. */
  lemma DeviceAtBound(s: seq<Slot>, a: Address)
    requires Good(s)
    ensures match DeviceAt(s, a)
            case Some(d) => Lookup(s, d).Some? && SameAddress(Lookup(s, d).value.1, a)
            case None => forall k :: 0 <= k < |s| && Bound(s[k]) ==> !SameAddress(s[k].address, a)
  {
    hide Good;
    var k := First(s, WithAddress(a), 0);
    if k < |s| {
      HeldOnce(s, k, s[k].device);
    } else {
      forall j | 0 <= j < |s| && Bound(s[j]) ensures !SameAddress(s[j].address, a) {
        assert !Wanted(s[j], WithAddress(a));
      }
    }
  }
}
