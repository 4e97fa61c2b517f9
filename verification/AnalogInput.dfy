/** OUT_OF_RANGE intrinsic reporting of analog inputs (ai.c; section 13.3.6 of
    ANSI/ASHRAE 135-2008). Limits and values are real numbers. */
module AnalogInput {
  import opened Words

  const MAX_ANALOG_INPUTS := 4

  const NORMAL := 0
  const FAULT := 1
  const OFFNORMAL := 2
  const HIGH_LIMIT := 3
  const LOW_LIMIT := 4

  const UNKNOWN_OBJECT := 31
  const INVALID_TIME_STAMP := 14
  const INVALID_EVENT_STATE := 73

  datatype DateTime = DateTime(
    year: nat, month: nat, day: nat, wday: nat, hour: nat, min: nat, sec: nat, hundredths: nat)

  /** datetime_compare, which ignores the day of the week. */
  function Compare(a: DateTime, b: DateTime): int
  {
    if a.year != b.year then a.year - b.year
    else if a.month != b.month then a.month - b.month
    else if a.day != b.day then a.day - b.day
    else if a.hour != b.hour then a.hour - b.hour
    else if a.min != b.min then a.min - b.min
    else if a.sec != b.sec then a.sec - b.sec
    else a.hundredths - b.hundredths
  }

  /** The stamp an acknowledgement carries. */
  datatype TimeStamp = Time | Sequence | Dated(at: DateTime)

  datatype AckedInfo = AckedInfo(isAcked: bool, stamp: DateTime)

  /** One of each for the transitions to offnormal, fault and normal. */
  datatype PerTransition<T> = PerTransition(offnormal: T, fault: T, normal: T)

  datatype Transition = ToOffnormal | ToFault | ToNormal

  function Get<T>(p: PerTransition<T>, t: Transition): T
  {
    match t
    case ToOffnormal => p.offnormal
    case ToFault => p.fault
    case ToNormal => p.normal
  }

  function Put<T>(p: PerTransition<T>, t: Transition, v: T): PerTransition<T>
  {
    match t
    case ToOffnormal => p.(offnormal := v)
    case ToFault => p.(fault := v)
    case ToNormal => p.(normal := v)
  }

  /** The transition a state is reached by. */
  function TransitionTo(state: nat): Option<Transition>
  {
    if state == OFFNORMAL || state == HIGH_LIMIT || state == LOW_LIMIT then Some(ToOffnormal)
    else if state == FAULT then Some(ToFault)
    else if state == NORMAL then Some(ToNormal)
    else None
  }

  datatype LimitEnable = LimitEnable(low: bool, high: bool)
  datatype EventEnable = EventEnable(toOffnormal: bool, toFault: bool, toNormal: bool)

  datatype Descr = Descr(
    eventState: nat,
    presentValue: real,
    outOfService: bool,
    timeDelay: nat,
    highLimit: real,
    lowLimit: real,
    deadband: real,
    limitEnable: LimitEnable,
    eventEnable: EventEnable,
    notifyType: nat,
    acked: PerTransition<AckedInfo>,
    eventTimeStamps: PerTransition<DateTime>,
    remaining: nat,
    sendAckNotify: bool,
    ackState: nat)

  datatype Notification =
    | AckNotification(stamp: DateTime, toState: nat)
    | EventNotification(stamp: DateTime, notifyType: nat, fromState: nat, toState: nat, exceeding: real,
                        inAlarm: bool, outOfService: bool, deadband: real, exceededLimit: real)

  // ------------------------------------------------------- the state machine

  /** The state the present value asks for, if it is another one. */
  function Pending(d: Descr): Option<nat>
  {
    if d.eventState == NORMAL then
      if d.presentValue > d.highLimit && d.limitEnable.high && d.eventEnable.toOffnormal then Some(HIGH_LIMIT)
      else if d.presentValue < d.lowLimit && d.limitEnable.low && d.eventEnable.toOffnormal then Some(LOW_LIMIT)
      else None
    else if d.eventState == HIGH_LIMIT then
      if d.presentValue < d.highLimit - d.deadband && d.limitEnable.high && d.eventEnable.toNormal then Some(NORMAL)
      else None
    else if d.eventState == LOW_LIMIT then
      if d.presentValue > d.lowLimit + d.deadband && d.limitEnable.low && d.eventEnable.toNormal then Some(NORMAL)
      else None
    else None
  }

  predicate Reporting(d: Descr) { d.eventState == NORMAL || d.eventState == HIGH_LIMIT || d.eventState == LOW_LIMIT }

  /** One evaluation of the limits. */
  function Advance(d: Descr): Descr
  {
    if !Reporting(d) then d
    else
      match Pending(d)
      case None => d.(remaining := d.timeDelay)
      case Some(to) => if d.remaining == 0 then d.(eventState := to) else d.(remaining := d.remaining - 1)
  }

  /** The limit named in the notification of a change. */
  function Limit(d: Descr, from: nat, to: nat): real
  {
    if to == HIGH_LIMIT || (to == NORMAL && from == HIGH_LIMIT) then d.highLimit else d.lowLimit
  }

  /** Analog_Input_Intrinsic_Reporting at `now`, the notification class answering `ackRequired`. */
  function Report(d: Descr, now: DateTime, ackRequired: bool): (Descr, Option<Notification>)
  {
    if !d.limitEnable.low && !d.limitEnable.high then (d, None)
    else if d.sendAckNotify then (d.(sendAckNotify := false), Some(AckNotification(now, d.eventState)))
    else
      var e := Advance(d);
      if e.eventState == d.eventState then (e, None)
      else
        var t := if e.eventState == NORMAL then ToNormal else ToOffnormal;
        (e.(eventTimeStamps := Put(e.eventTimeStamps, t, now),
            acked := if ackRequired then Put(e.acked, t, AckedInfo(false, now)) else e.acked),
         Some(EventNotification(now, e.notifyType, d.eventState, e.eventState, e.presentValue, e.eventState != NORMAL,
                                e.outOfService, e.deadband, Limit(e, d.eventState, e.eventState))))
  }

  /** What an acknowledgement answers: 1, -1 with an error code, or -2. */
  datatype AckAnswer = AckAnswer(code: int, error: Option<nat>)

  /** Analog_Input_Alarm_Ack. */
  function Acknowledge(d: Descr, state: nat, stamp: TimeStamp): (Descr, AckAnswer)
  {
    match TransitionTo(state)
    case None => (d, AckAnswer(-2, None))
    case Some(t) =>
      var a := Get(d.acked, t);
      if a.isAcked then (d, AckAnswer(-1, Some(INVALID_EVENT_STATE)))
      else if !stamp.Dated? || Compare(a.stamp, stamp.at) > 0 then (d, AckAnswer(-1, Some(INVALID_TIME_STAMP)))
      else
        (d.(acked := Put(d.acked, t, a.(isAcked := true)), sendAckNotify := true, ackState := state),
          AckAnswer(1, None))
  }

  /** A property write that passed its checks. */
  datatype Setting =
    | PresentValue(value: real)
    | OutOfService(flag: bool)
    | TimeDelay(delay: nat)
    | HighLimit(limit: real)
    | LowLimit(limit: real)
    | Deadband(band: real)
    | Limits(limits: LimitEnable)
    | Events(events: EventEnable)
    | NotifyType(kind: nat)

  function Set(d: Descr, w: Setting): Descr
  {
    match w
    case PresentValue(v) => d.(presentValue := v)
    case OutOfService(f) => d.(outOfService := f)
    case TimeDelay(n) => d.(timeDelay := n, remaining := n)
    case HighLimit(v) => d.(highLimit := v)
    case LowLimit(v) => d.(lowLimit := v)
    case Deadband(v) => d.(deadband := v)
    case Limits(l) => d.(limitEnable := l)
    case Events(e) => d.(eventEnable := e)
    case NotifyType(k) => d.(notifyType := k)
  }

  // ------------------------------------------------------------ the objects

  /** An object as it is initialised: normal, nothing enabled, nothing to acknowledge. */
  predicate Initial(d: Descr)
  {
    && d.eventState == NORMAL && d.timeDelay == 0 && d.remaining == 0 && !d.sendAckNotify
    && d.highLimit == 0.0 && d.lowLimit == 0.0 && d.deadband == 0.0
    && !d.limitEnable.low && !d.limitEnable.high
    && forall t :: Get(d.acked, t).isAcked
  }

  class AnalogInputs {
    const descr: array<Descr>

    ghost predicate Valid() reads descr { descr.Length == MAX_ANALOG_INPUTS }

    /** Static storage after Analog_Input_Init; `wildcard` is the unset time stamp. */
    constructor (wildcard: DateTime)
      ensures Valid() && fresh(descr)
      ensures forall i :: 0 <= i < MAX_ANALOG_INPUTS ==> Initial(descr[i])
    {
      var unset := DateTime(0, 0, 0, 0, 0, 0, 0, 0);
      var none := AckedInfo(true, unset);
      descr := new Descr[MAX_ANALOG_INPUTS](_ =>
        Descr(NORMAL, 0.0, false, 0, 0.0, 0.0, 0.0, LimitEnable(false, false), EventEnable(false, false, false), 0,
              PerTransition(none, none, none), PerTransition(wildcard, wildcard, wildcard), 0, false, 0));
    }

    /** The switch over the event state. */
    method CheckLimits(i: nat)
      requires Valid() && i < descr.Length
      modifies descr
      ensures descr[i] == Advance(old(descr[i]))
      ensures forall j :: 0 <= j < descr.Length && j != i ==> descr[j] == old(descr[j])
    {
      var d := descr[i];
      var to := d.eventState;
      if d.eventState == NORMAL {
        if d.presentValue > d.highLimit && d.limitEnable.high && d.eventEnable.toOffnormal {
          to := HIGH_LIMIT;
        } else if d.presentValue < d.lowLimit && d.limitEnable.low && d.eventEnable.toOffnormal {
          to := LOW_LIMIT;
        }
      } else if d.eventState == HIGH_LIMIT {
        if d.presentValue < d.highLimit - d.deadband && d.limitEnable.high && d.eventEnable.toNormal {
          to := NORMAL;
        }
      } else if d.eventState == LOW_LIMIT {
        if d.presentValue > d.lowLimit + d.deadband && d.limitEnable.low && d.eventEnable.toNormal {
          to := NORMAL;
        }
      } else {
        return;
      }
      if to == d.eventState {
        descr[i] := d.(remaining := d.timeDelay);
      } else if d.remaining == 0 {
        descr[i] := d.(eventState := to);
      } else {
        descr[i] := d.(remaining := d.remaining - 1);
      }
    }

    /** Analog_Input_Intrinsic_Reporting. */
    method IntrinsicReporting(instance: nat, now: DateTime, ackRequired: bool) returns (sent: Option<Notification>)
      requires Valid()
      modifies descr
      ensures instance >= MAX_ANALOG_INPUTS ==> sent == None && descr[..] == old(descr[..])
      ensures instance < MAX_ANALOG_INPUTS ==>
                (descr[instance], sent) == Report(old(descr[instance]), now, ackRequired)
      ensures forall j :: 0 <= j < descr.Length && j != instance ==> descr[j] == old(descr[j])
    {
      sent := None;
      if instance >= MAX_ANALOG_INPUTS || (!descr[instance].limitEnable.low && !descr[instance].limitEnable.high) {
        return;
      }
      if descr[instance].sendAckNotify {
        descr[instance] := descr[instance].(sendAckNotify := false);
        sent := Some(AckNotification(now, descr[instance].eventState));
        return;
      }
      var fromState := descr[instance].eventState;
      CheckLimits(instance);
      var d := descr[instance];
      if fromState != d.eventState {
        var exceeded := Limit(d, fromState, d.eventState);
        var t := if d.eventState == NORMAL then ToNormal else ToOffnormal;
        sent := Some(EventNotification(now, d.notifyType, fromState, d.eventState, d.presentValue,
                                       d.eventState != NORMAL, d.outOfService, d.deadband, exceeded));
        descr[instance] := d.(eventTimeStamps := Put(d.eventTimeStamps, t, now));
        if ackRequired {
          descr[instance] := descr[instance].(acked := Put(d.acked, t, AckedInfo(false, now)));
        }
      }
    }

    /** Analog_Input_Alarm_Ack. */
    method AlarmAck(instance: nat, state: nat, stamp: TimeStamp) returns (answer: AckAnswer)
      requires Valid()
      modifies descr
      ensures instance >= MAX_ANALOG_INPUTS ==>
                answer == AckAnswer(-1, Some(UNKNOWN_OBJECT)) && descr[..] == old(descr[..])
      ensures instance < MAX_ANALOG_INPUTS ==>
                (descr[instance], answer) == Acknowledge(old(descr[instance]), state, stamp)
      ensures forall j :: 0 <= j < descr.Length && j != instance ==> descr[j] == old(descr[j])
    {
      if instance >= MAX_ANALOG_INPUTS {
        return AckAnswer(-1, Some(UNKNOWN_OBJECT));
      }
      var d := descr[instance];
      match TransitionTo(state) {
        case None => return AckAnswer(-2, None);
        case Some(t) =>
          var a := Get(d.acked, t);
          if a.isAcked {
            return AckAnswer(-1, Some(INVALID_EVENT_STATE));
          }
          if !stamp.Dated? {
            return AckAnswer(-1, Some(INVALID_TIME_STAMP));
          }
          if Compare(a.stamp, stamp.at) > 0 {
            return AckAnswer(-1, Some(INVALID_TIME_STAMP));
          }
          descr[instance] := d.(acked := Put(d.acked, t, a.(isAcked := true)));
      }
      descr[instance] := descr[instance].(sendAckNotify := true, ackState := state);
      return AckAnswer(1, None);
    }

    /** The accepted branches of Analog_Input_Write_Property. */
    method WriteProperty(instance: nat, w: Setting)
      requires Valid() && instance < MAX_ANALOG_INPUTS
      modifies descr
      ensures descr[instance] == Set(old(descr[instance]), w)
      ensures forall j :: 0 <= j < descr.Length && j != instance ==> descr[j] == old(descr[j])
    {
      match w {
        case TimeDelay(n) =>
          descr[instance] := descr[instance].(timeDelay := n);
          descr[instance] := descr[instance].(remaining := descr[instance].timeDelay);
        case _ => descr[instance] := Set(descr[instance], w);
      }
    }
  }
}
