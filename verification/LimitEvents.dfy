/** When a limit event is due and what its notification says, in the fields of the object themselves
    (ai.c:858-1154; section 13.3.6 of ANSI/ASHRAE 135-2008), and what acknowledgements and writes answer. */
module LimitEvents {
  import opened Words
  import opened AnalogInput
  import opened AlarmRuns

  // ------------------------------------------------------------------ events

  /** The value is above the high limit, and that matters. */
  predicate IsHigh(d: Descr) { d.presentValue > d.highLimit && d.limitEnable.high && d.eventEnable.toOffnormal }

  predicate IsLow(d: Descr) { d.presentValue < d.lowLimit && d.limitEnable.low && d.eventEnable.toOffnormal }

  /** The value is back below the high limit by the deadband. */
  predicate BelowHigh(d: Descr)
  {
    d.presentValue < d.highLimit - d.deadband && d.limitEnable.high && d.eventEnable.toNormal
  }

  predicate AboveLow(d: Descr)
  {
    d.presentValue > d.lowLimit + d.deadband && d.limitEnable.low && d.eventEnable.toNormal
  }

  /** The next evaluation looks at the limits. */
  predicate Looking(d: Descr) { Sane(d) && !d.sendAckNotify && (d.limitEnable.low || d.limitEnable.high) }

  /** From normal (0) to high limit (3) and low limit (4), the high limit first, and back: exactly when the
      value asks for it and no time is left. */
  lemma StateChanges(d: Descr, now: DateTime, required: bool)
    requires Sane(d) && !d.sendAckNotify
    ensures var e := Report(d, now, required).0;
            && (d.eventState == 0 && e.eventState == 3 <==> d.eventState == 0 && IsHigh(d) && d.remaining == 0)
            && (d.eventState == 0 && e.eventState == 4 <==>
                  d.eventState == 0 && IsLow(d) && !IsHigh(d) && d.remaining == 0)
            && (d.eventState == 3 && e.eventState == 0 <==> d.eventState == 3 && BelowHigh(d) && d.remaining == 0)
            && (d.eventState == 4 && e.eventState == 0 <==> d.eventState == 4 && AboveLow(d) && d.remaining == 0)
            && (e.eventState == d.eventState || d.eventState == 0 || e.eventState == 0)
  {
  }

  /** The value asks for a change. */
  predicate Due(d: Descr)
  {
    if d.eventState == 0 then IsHigh(d) || IsLow(d)
    else if d.eventState == 3 then BelowHigh(d)
    else AboveLow(d)
  }

  /** The time left counts down while a change is due, and starts again as soon as none is. */
  lemma TimeCounts(d: Descr, now: DateTime, required: bool)
    requires Looking(d)
    ensures Report(d, now, required).0.remaining
            == if !Due(d) then d.timeDelay else if d.remaining > 0 then d.remaining - 1 else 0
  {
  }

  /** What the run laws of the object call asking for a change. */
  lemma AsksIsDue(d: Descr, value: real)
    requires Reporting(d)
    ensures Asks(d, value) <==> Due(d.(presentValue := value))
  {
  }

  /** A change is notified with the old and the new state, the value, and the limit that was passed: the
      high one on the way to and from high limit, the low one otherwise. The transition is stamped, and it
      waits for acknowledgement if that is required. Without a change nothing is sent or stamped. */
  lemma ChangeIsNotified(d: Descr, now: DateTime, required: bool)
    requires Sane(d) && !d.sendAckNotify
    ensures var (e, sent) := Report(d, now, required);
            var limit := if d.eventState == 3 || e.eventState == 3 then d.highLimit else d.lowLimit;
            && sent == (if e.eventState == d.eventState then None
                        else Some(EventNotification(now, d.notifyType, d.eventState, e.eventState, d.presentValue,
                                                    e.eventState != 0, d.outOfService, d.deadband, limit)))
            && var stamped := e.eventState != d.eventState;
               && e.eventTimeStamps.normal == (if stamped && e.eventState == 0 then now else d.eventTimeStamps.normal)
               && e.eventTimeStamps.offnormal
                  == (if stamped && e.eventState != 0 then now else d.eventTimeStamps.offnormal)
               && e.acked.normal
                  == (if stamped && e.eventState == 0 && required then AckedInfo(false, now) else d.acked.normal)
               && e.acked.offnormal
                  == (if stamped && e.eventState != 0 && required then AckedInfo(false, now) else d.acked.offnormal)
               && e.acked.fault == d.acked.fault && e.eventTimeStamps.fault == d.eventTimeStamps.fault
  {
  }

  /** Nothing else of the object changes. */
  lemma ConfigurationStays(d: Descr, now: DateTime, required: bool)
    ensures var e := Report(d, now, required).0;
            e == d.(eventState := e.eventState, remaining := e.remaining, sendAckNotify := e.sendAckNotify,
                    acked := e.acked, eventTimeStamps := e.eventTimeStamps)
    ensures !d.limitEnable.low && !d.limitEnable.high ==> Report(d, now, required) == (d, None)
  {
  }

  // ---------------------------------------------------------- acknowledgement

  /** States 2, 3 and 4 are reached by the transition to offnormal, 1 by that to fault, 0 by that to
      normal; other states are refused with -2. An acknowledged transition is refused with error 73, a stamp
      that is no date and time or is older than the transition with error 14, and else it is accepted. */
  lemma AckAnswers(d: Descr, state: nat, stamp: TimeStamp)
    ensures var answer := Acknowledge(d, state, stamp).1;
            if state > 4 then answer == AckAnswer(-2, None)
            else
              var a := if state >= 2 then d.acked.offnormal else if state == 1 then d.acked.fault else d.acked.normal;
              if a.isAcked then answer == AckAnswer(-1, Some(73))
              else if stamp.Dated? && Compare(a.stamp, stamp.at) <= 0 then answer == AckAnswer(1, None)
              else answer == AckAnswer(-1, Some(14))
  {
  }

  /** Fields a clock gives; the day of the week does not count. */
  predicate ClockTime(t: DateTime)
  {
    t.month < 16 && t.day < 32 && t.hour < 32 && t.min < 64 && t.sec < 64 && t.hundredths < 128
  }

  /** A number that grows with time. */
  function Serial(t: DateTime): nat
  {
    ((((((t.year * 16 + t.month) * 32 + t.day) * 32 + t.hour) * 64 + t.min) * 64) + t.sec) * 128 + t.hundredths
  }

  /** The comparison is that of the years, then the months, and so down to the hundredths. */
  lemma CompareIsSerial(a: DateTime, b: DateTime)
    requires ClockTime(a) && ClockTime(b)
    ensures Compare(a, b) < 0 <==> Serial(a) < Serial(b)
    ensures Compare(a, b) > 0 <==> Serial(a) > Serial(b)
  {
  }

  // ------------------------------------------------------------------ writes

  /** A write changes the property it names, that of Time_Delay the time left too, and nothing else. */
  lemma WritesTake(d: Descr, x: real, n: nat, f: bool, l: LimitEnable, v: EventEnable)
    ensures Set(d, PresentValue(x)) == d.(presentValue := x) && Set(d, HighLimit(x)) == d.(highLimit := x)
    ensures Set(d, LowLimit(x)) == d.(lowLimit := x) && Set(d, Deadband(x)) == d.(deadband := x)
    ensures Set(d, TimeDelay(n)) == d.(timeDelay := n, remaining := n) && Set(d, NotifyType(n)) == d.(notifyType := n)
    ensures Set(d, OutOfService(f)) == d.(outOfService := f)
    ensures Set(d, Limits(l)) == d.(limitEnable := l) && Set(d, Events(v)) == d.(eventEnable := v)
  {
  }
}
