/** The device address binding cache (address.c). */
module AddressCache {
  import opened Words

  const MAX_ADDRESS_CACHE := 255
  const MAX_MAC_LEN := 7

  const LONG_TIME := 86400
  const SHORT_TIME := 3600
  const FOREVER := 0xFFFF_FFFF

  /** `macLen` 0 is a broadcast; `net` 0 is the local network; `len` and `adr` lie behind a router. */
  datatype Address = Address(macLen: byte, mac: seq<byte>, net: nat, len: byte, adr: seq<byte>)

  predicate CTypedAddress(a: Address) { |a.mac| == MAX_MAC_LEN && |a.adr| == MAX_MAC_LEN && a.net < 65536 }

  /** BAC_ADDR_IN_USE, BIND_REQ, STATIC, SHORT_TTL and RESERVED. */
  datatype Flags = Flags(inUse: bool, bindReq: bool, fixed: bool, shortTtl: bool, reserved: bool)

  const NONE := Flags(false, false, false, false, false)
  const BOUND := Flags(true, false, false, false, false)
  const REQUESTED := Flags(true, true, false, false, false)
  const STATIC := Flags(true, false, true, false, false)
  const RESERVED := Flags(false, false, false, false, true)

  datatype Slot = Slot(flags: Flags, device: nat, maxApdu: nat, address: Address, ttl: nat)

  predicate Holds(e: Slot, device: nat) { e.flags.inUse && e.device == device }

  predicate Bound(e: Slot) { e.flags.inUse && !e.flags.bindReq }

  predicate Evictable(e: Slot, bindReq: bool)
  {
    e.flags.inUse && e.flags.bindReq == bindReq && !e.flags.fixed
  }

  /** bacnet_address_same: a routed address is compared without its MAC. */
  predicate SameAddress(a: Address, b: Address)
  {
    && a.net == b.net && a.len == b.len && Front(a.adr, a.len) == Front(b.adr, a.len)
    && (a.net == 0 ==> a.macLen == b.macLen && Front(a.mac, a.macLen) == Front(b.mac, a.macLen))
  }

  function Front(s: seq<byte>, n: nat): seq<byte> { if n < |s| then s[..n] else s }

  /** What a scan looks for. */
  datatype Want = Device(device: nat) | NotInUse | NotHeld | WithAddress(address: Address)

  predicate Wanted(e: Slot, w: Want)
  {
    match w
    case Device(d) => Holds(e, d)
    case NotInUse => !e.flags.inUse
    case NotHeld => !e.flags.inUse && !e.flags.reserved
    case WithAddress(a) => Bound(e) && SameAddress(e.address, a)
  }

  /** The first slot from `i` on that is wanted, or the number of slots. */
  function First(s: seq<Slot>, w: Want, i: nat): (k: nat)
    requires i <= |s|
    ensures i <= k <= |s|
    ensures k < |s| ==> Wanted(s[k], w)
    ensures forall j :: i <= j < k ==> !Wanted(s[j], w)
    decreases |s| - i
  {
    if i == |s| || Wanted(s[i], w) then i else First(s, w, i + 1)
  }

  // -------------------------------------------------------------- eviction

  /** One pass over the first `n` slots: the candidate so far (or `|s|`) and the time to beat. */
  function Oldest(s: seq<Slot>, bindReq: bool, n: nat): (r: (nat, nat))
    requires n <= |s|
    ensures r.0 < n || (r.0 == |s| && r.1 == FOREVER - 1)
    ensures r.0 < n ==> Evictable(s[r.0], bindReq) && s[r.0].ttl == r.1 <= FOREVER - 1
  {
    if n == 0 then (|s|, FOREVER - 1)
    else
      var r := Oldest(s, bindReq, n - 1);
      if Evictable(s[n - 1], bindReq) && s[n - 1].ttl <= r.1 then (n - 1, s[n - 1].ttl) else r
  }

  /** The slot address_remove_oldest frees, or `|s|`. */
  function Victim(s: seq<Slot>): (k: nat)
    ensures k <= |s|
    ensures k < |s| ==> Evictable(s[k], false) || Evictable(s[k], true)
  {
    var k := Oldest(s, false, |s|).0;
    if k < |s| then k else Oldest(s, true, |s|).0
  }

  // ------------------------------------------------------- what calls compute

  function Refreshed(e: Slot, maxApdu: nat, a: Address): Slot
  {
    var ttl := if e.flags.bindReq then LONG_TIME
               else if e.flags.fixed then FOREVER
               else if e.flags.shortTtl then SHORT_TIME
               else LONG_TIME;
    e.(address := a, maxApdu := maxApdu, ttl := ttl, flags := e.flags.(bindReq := false))
  }

  function Add(s: seq<Slot>, device: nat, maxApdu: nat, a: Address): seq<Slot>
  {
    var k, free, v := First(s, Device(device), 0), First(s, NotInUse, 0), Victim(s);
    var fresh_ := Slot(BOUND, device, maxApdu, a, SHORT_TIME);
    if k < |s| then s[k := Refreshed(s[k], maxApdu, a)]
    else if free < |s| then s[free := fresh_]
    else if v < |s| then s[v := fresh_]
    else s
  }

  function BindRequest(s: seq<Slot>, device: nat): (seq<Slot>, Option<(nat, Address)>)
  {
    var k, free, v := First(s, Device(device), 0), First(s, NotHeld, 0), Victim(s);
    if k < |s| then
      if s[k].flags.bindReq then (s, None)
      else
        (if s[k].flags.shortTtl then s[k := s[k].(flags := s[k].flags.(shortTtl := false), ttl := LONG_TIME)] else s,
         Some((s[k].maxApdu, s[k].address)))
    else if free < |s| then (s[free := s[free].(flags := REQUESTED, device := device, ttl := SHORT_TIME)], None)
    else if v < |s| then (s[v := s[v].(flags := REQUESTED, device := device, ttl := SHORT_TIME)], None)
    else (s, None)
  }

  function AddBinding(s: seq<Slot>, device: nat, maxApdu: nat, a: Address): seq<Slot>
  {
    var k := First(s, Device(device), 0);
    if k == |s| then s
    else
      s[k := s[k].(address := a, maxApdu := maxApdu, flags := s[k].flags.(bindReq := false),
                   ttl := if s[k].flags.fixed then s[k].ttl else LONG_TIME)]
  }

  function Remove(s: seq<Slot>, device: nat): seq<Slot>
  {
    var k := First(s, Device(device), 0);
    if k == |s| then s else s[k := s[k].(flags := NONE)]
  }

  function SetTtl(s: seq<Slot>, device: nat, ttl: nat, fixed: bool): seq<Slot>
  {
    var k := First(s, Device(device), 0);
    if k == |s| then s
    else if s[k].flags.bindReq then s[k := s[k].(ttl := ttl)]
    else s[k := s[k].(flags := s[k].flags.(fixed := fixed), ttl := if fixed then FOREVER else ttl)]
  }

  /** One slot as the cleaning loops leave it. */
  datatype Sweep = Clear | Partial | Tick(seconds: nat)

  function Swept(e: Slot, w: Sweep): Slot
  {
    match w
    case Clear => e.(flags := NONE)
    case Partial =>
      if (e.flags.inUse && (e.flags.bindReq || e.ttl == 0)) || e.flags.reserved then e.(flags := NONE) else e
    case Tick(seconds) =>
      if (e.flags.inUse || e.flags.reserved) && !e.flags.fixed then
        if e.ttl >= seconds then e.(ttl := e.ttl - seconds) else e.(flags := NONE)
      else e
  }

  function SweepAll(s: seq<Slot>, w: Sweep): (t: seq<Slot>)
    ensures |t| == |s| && forall k :: 0 <= k < |s| ==> t[k] == Swept(s[k], w)
  {
    seq(|s|, i requires 0 <= i < |s| => Swept(s[i], w))
  }

  /** One line of the address file. */
  datatype Line = Line(device: nat, maxApdu: nat, address: Address)

  /** The line adds an entry and makes it static. */
  function ReadLine(s: seq<Slot>, l: Line): seq<Slot>
  {
    SetTtl(Add(s, l.device, l.maxApdu, l.address), l.device, 0, true)
  }

  function ReadFile(s: seq<Slot>, lines: seq<Line>): seq<Slot>
    decreases |lines|
  {
    if lines == [] then s else ReadFile(ReadLine(s, lines[0]), lines[1..])
  }

  function Lookup(s: seq<Slot>, device: nat): Option<(nat, Address)>
  {
    var k := First(s, Device(device), 0);
    if k < |s| && !s[k].flags.bindReq then Some((s[k].maxApdu, s[k].address)) else None
  }

  function DeviceAt(s: seq<Slot>, a: Address): Option<nat>
  {
    var k := First(s, WithAddress(a), 0);
    if k < |s| then Some(s[k].device) else None
  }

  /** The bound entries from slot `i` on, in slot order. */
  function BoundFrom(s: seq<Slot>, i: nat): (r: seq<Slot>)
    requires i <= |s|
    ensures |r| <= |s| - i && forall k :: 0 <= k < |r| ==> Bound(r[k])
    decreases |s| - i
  {
    if i == |s| then [] else (if Bound(s[i]) then [s[i]] else []) + BoundFrom(s, i + 1)
  }

  // --------------------------------------------------------------- the cache

  class Cache {
    const slots: array<Slot>

    ghost predicate Valid() reads slots { slots.Length == MAX_ADDRESS_CACHE }

    /** Static storage: every flag clear. */
    constructor ()
      ensures Valid() && fresh(slots) && forall k :: 0 <= k < MAX_ADDRESS_CACHE ==> slots[k].flags == NONE
    {
      slots := new Slot[MAX_ADDRESS_CACHE](_ => Slot(NONE, 0, 0, Address(0, seq(7, _ => 0), 0, 0, seq(7, _ => 0)), 0));
    }

    method Find(w: Want) returns (k: nat)
      requires Valid()
      ensures k == First(slots[..], w, 0)
    {
      k := 0;
      while k < slots.Length && !Wanted(slots[k], w)
        invariant k <= slots.Length && First(slots[..], w, 0) == First(slots[..], w, k)
      {
        k := k + 1;
      }
    }

    method Pass(bindReq: bool, time: nat) returns (candidate: nat, ulTime: nat)
      requires Valid() && time == FOREVER - 1
      ensures (candidate, ulTime) == Oldest(slots[..], bindReq, slots.Length)
    {
      candidate, ulTime := slots.Length, time;
      for i := 0 to slots.Length
        invariant (candidate, ulTime) == Oldest(slots[..], bindReq, i)
      {
        if Evictable(slots[i], bindReq) && slots[i].ttl <= ulTime {
          candidate, ulTime := i, slots[i].ttl;
        }
      }
    }

    /** address_remove_oldest. */
    method RemoveOldest() returns (k: nat)
      requires Valid()
      modifies slots
      ensures var s := old(slots[..]);
              && k == Victim(s)
              && slots[..] == if k == |s| then s else s[k := s[k].(flags := RESERVED, ttl := SHORT_TIME)]
    {
      var ulTime := FOREVER - 1;
      k, ulTime := Pass(false, ulTime);
      if k == slots.Length {
        k, ulTime := Pass(true, ulTime);
      }
      if k != slots.Length {
        slots[k] := slots[k].(flags := RESERVED, ttl := SHORT_TIME);
      }
    }

    /** address_add. */
    method AddressAdd(device: nat, maxApdu: nat, src: Address)
      requires Valid()
      modifies slots
      ensures slots[..] == Add(old(slots[..]), device, maxApdu, src)
    {
      var k := Find(Device(device));
      if k < slots.Length {
        var ttl := LONG_TIME;
        if slots[k].flags.bindReq {
          ttl := LONG_TIME;
        } else if slots[k].flags.fixed {
          ttl := FOREVER;
        } else if slots[k].flags.shortTtl {
          ttl := SHORT_TIME;
        }
        slots[k] := slots[k].(address := src, maxApdu := maxApdu, ttl := ttl,
                              flags := slots[k].flags.(bindReq := false));
        return;
      }
      k := Find(NotInUse);
      if k == slots.Length {
        k := RemoveOldest();
      }
      if k < slots.Length {
        slots[k] := Slot(BOUND, device, maxApdu, src, SHORT_TIME);
      }
    }

    /** address_bind_request. */
    method AddressBindRequest(device: nat) returns (found: Option<(nat, Address)>)
      requires Valid()
      modifies slots
      ensures slots[..] == BindRequest(old(slots[..]), device).0
      ensures found == BindRequest(old(slots[..]), device).1
    {
      found := None;
      var k := Find(Device(device));
      if k < slots.Length {
        if !slots[k].flags.bindReq {
          found := Some((slots[k].maxApdu, slots[k].address));
          if slots[k].flags.shortTtl {
            slots[k] := slots[k].(flags := slots[k].flags.(shortTtl := false), ttl := LONG_TIME);
          }
        }
        return;
      }
      k := Find(NotHeld);
      if k == slots.Length {
        k := RemoveOldest();
      }
      if k < slots.Length {
        slots[k] := slots[k].(flags := REQUESTED, device := device, ttl := SHORT_TIME);
      }
    }

    /** address_add_binding. */
    method AddressAddBinding(device: nat, maxApdu: nat, src: Address)
      requires Valid()
      modifies slots
      ensures slots[..] == AddBinding(old(slots[..]), device, maxApdu, src)
    {
      var k := Find(Device(device));
      if k < slots.Length {
        slots[k] := slots[k].(address := src, maxApdu := maxApdu, flags := slots[k].flags.(bindReq := false));
        if !slots[k].flags.fixed {
          slots[k] := slots[k].(ttl := LONG_TIME);
        }
      }
    }

    /** address_remove_device. */
    method AddressRemoveDevice(device: nat)
      requires Valid()
      modifies slots
      ensures slots[..] == Remove(old(slots[..]), device)
    {
      var k := Find(Device(device));
      if k < slots.Length {
        slots[k] := slots[k].(flags := NONE);
      }
    }

    /** address_set_device_TTL. */
    method AddressSetDeviceTtl(device: nat, timeOut: nat, fixed: bool)
      requires Valid()
      modifies slots
      ensures slots[..] == SetTtl(old(slots[..]), device, timeOut, fixed)
    {
      var k := Find(Device(device));
      if k < slots.Length {
        if !slots[k].flags.bindReq {
          if fixed {
            slots[k] := slots[k].(flags := slots[k].flags.(fixed := true), ttl := FOREVER);
          } else {
            slots[k] := slots[k].(flags := slots[k].flags.(fixed := false), ttl := timeOut);
          }
        } else {
          slots[k] := slots[k].(ttl := timeOut);
        }
      }
    }

    method SweepSlots(w: Sweep)
      requires Valid()
      modifies slots
      ensures slots[..] == SweepAll(old(slots[..]), w)
    {
      for i := 0 to slots.Length
        invariant forall k :: 0 <= k < i ==> slots[k] == Swept(old(slots[k]), w)
        invariant forall k :: i <= k < slots.Length ==> slots[k] == old(slots[k])
      {
        slots[i] := Swept(slots[i], w);
      }
    }

    /** address_cache_timer. */
    method AddressCacheTimer(seconds: nat)
      requires Valid() && seconds < 65536
      modifies slots
      ensures slots[..] == SweepAll(old(slots[..]), Tick(seconds))
    {
      SweepSlots(Tick(seconds));
    }

    /** The effect of address_file_init. */
    method AddressFileInit(lines: seq<Line>)
      requires Valid()
      modifies slots
      ensures slots[..] == ReadFile(old(slots[..]), lines)
    {
      for i := 0 to |lines|
        invariant ReadFile(old(slots[..]), lines) == ReadFile(slots[..], lines[i..])
      {
        AddressAdd(lines[i].device, lines[i].maxApdu, lines[i].address);
        AddressSetDeviceTtl(lines[i].device, 0, true);
        assert lines[i..][1..] == lines[i + 1..];
      }
    }

    /** address_init. */
    method AddressInit(lines: seq<Line>)
      requires Valid()
      modifies slots
      ensures slots[..] == ReadFile(SweepAll(old(slots[..]), Clear), lines)
    {
      SweepSlots(Clear);
      AddressFileInit(lines);
    }

    /** address_init_partial. */
    method AddressInitPartial(lines: seq<Line>)
      requires Valid()
      modifies slots
      ensures slots[..] == ReadFile(SweepAll(old(slots[..]), Partial), lines)
    {
      SweepSlots(Partial);
      AddressFileInit(lines);
    }

    /** address_get_by_device. */
    method AddressGetByDevice(device: nat) returns (found: Option<(nat, Address)>)
      requires Valid()
      ensures found == Lookup(slots[..], device)
    {
      var k := Find(Device(device));
      found := None;
      if k < slots.Length && !slots[k].flags.bindReq {
        found := Some((slots[k].maxApdu, slots[k].address));
      }
    }

    /** address_get_device_id. */
    method AddressGetDeviceId(src: Address) returns (found: Option<nat>)
      requires Valid()
      ensures found == DeviceAt(slots[..], src)
    {
      var k := Find(WithAddress(src));
      found := if k < slots.Length then Some(slots[k].device) else None;
    }

    /** address_count. */
    method AddressCount() returns (count: nat)
      requires Valid()
      ensures count == |BoundFrom(slots[..], 0)|
    {
      count := 0;
      for i := 0 to slots.Length
        invariant count + |BoundFrom(slots[..], i)| == |BoundFrom(slots[..], 0)|
      {
        if Bound(slots[i]) {
          count := count + 1;
        }
      }
    }
  }
}
