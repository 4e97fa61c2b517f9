/** What holds of an analog input over every run of evaluations, writes and acknowledgements. */
module AlarmRuns {
  import opened Words
  import opened AnalogInput

  datatype Step =
    | Evaluate(now: DateTime, ackRequired: bool)
    | Ack(state: nat, stamp: TimeStamp)
    | Write(setting: Setting)

  function Apply(d: Descr, s: Step): Descr
  {
    match s
    case Evaluate(now, required) => Report(d, now, required).0
    case Ack(state, stamp) => Acknowledge(d, state, stamp).0
    case Write(w) => Set(d, w)
  }

  function Run(d: Descr, steps: seq<Step>): Descr
    decreases |steps|
  {
    if steps == [] then d else Run(Apply(d, steps[0]), steps[1..])
  }

  // -------------------------------------------------------------- invariant

  predicate Sane(d: Descr) { Reporting(d) && d.remaining <= d.timeDelay }

  lemma ApplyKeepsSane(d: Descr, s: Step)
    requires Sane(d)
    ensures Sane(Apply(d, s))
  {
  }

  /** In every run the time left never exceeds the delay, and the state is one of the three. */
  lemma {:induction false} RunKeepsSane(d: Descr, steps: seq<Step>)
    requires Sane(d)
    ensures Sane(Run(d, steps))
    decreases |steps|
  {
    hide Apply, Sane;
    if steps != [] {
      ApplyKeepsSane(d, steps[0]);
      RunKeepsSane(Apply(d, steps[0]), steps[1..]);
    }
  }

  /** Every change of state goes to or from normal. */
  lemma ChangesTouchNormal(d: Descr, s: Step)
    ensures var e := Apply(d, s);
            e.eventState != d.eventState ==> d.eventState == NORMAL || e.eventState == NORMAL
  {
  }

  /** High and low limit are never adjacent: a run between them passes through normal. */
  lemma {:induction false} NormalLiesBetween(d: Descr, steps: seq<Step>) returns (k: nat)
    requires Sane(d) && d.eventState != NORMAL && Run(d, steps).eventState != NORMAL
    requires Run(d, steps).eventState != d.eventState
    ensures k <= |steps| && Run(d, steps[..k]).eventState == NORMAL
    decreases |steps|
  {
    hide Apply;
    var e := Apply(d, steps[0]);
    ChangesTouchNormal(d, steps[0]);
    ApplyKeepsSane(d, steps[0]);
    if e.eventState == NORMAL {
      k := 1;
      assert steps[..1] == [steps[0]] && steps[..1][1..] == [];
    } else {
      var j := NormalLiesBetween(e, steps[1..]);
      k := j + 1;
      assert steps[..k][1..] == steps[1..][..j];
    }
  }

  // ------------------------------------------------------------- no chatter

  /** Only evaluations and acknowledgements: the configuration and the value stay as they are. */
  predicate Steady(steps: seq<Step>) { forall k :: 0 <= k < |steps| ==> !steps[k].Write? }

  /** How often the event state changes. */
  function Changes(d: Descr, steps: seq<Step>): nat
    decreases |steps|
  {
    if steps == [] then 0
    else
      var e := Apply(d, steps[0]);
      (if e.eventState != d.eventState then 1 else 0) + Changes(e, steps[1..])
  }

  /** Evaluations that look at the limits, rather than send a waiting acknowledgement. */
  function Looks(d: Descr, steps: seq<Step>): nat
    decreases |steps|
  {
    if steps == [] then 0
    else (if steps[0].Evaluate? && !d.sendAckNotify then 1 else 0) + Looks(Apply(d, steps[0]), steps[1..])
  }

  /** Changes still to come while nothing else changes. */
  function ChangesLeft(d: Descr): nat
  {
    match Pending(d)
    case None => 0
    case Some(to) => if Pending(d.(eventState := to)).Some? then 2 else 1
  }

  /** Evaluations after which no more change can come. */
  function LooksLeft(d: Descr): nat
  {
    match Pending(d)
    case None => 0
    case Some(to) => d.remaining + ChangesLeft(d)
  }

  /** From normal, the value and the configuration lead to a state that leads back. */
  predicate Loop(d: Descr)
  {
    var n := d.(eventState := NORMAL);
    match Pending(n)
    case None => false
    case Some(x) => Pending(n.(eventState := x)) == Some(NORMAL)
  }

  predicate Restless(d: Descr) { Loop(d) && (d.eventState == NORMAL || Pending(d) == Some(NORMAL)) }

  /** A deadband that is not negative rules that out, whatever the limits. */
  lemma DeadbandCalms(d: Descr)
    requires d.deadband >= 0.0
    ensures !Restless(d)
  {
  }

  /** Otherwise the machine never returns where it came from. */
  lemma NoWayBack(d: Descr, to: nat)
    requires Sane(d) && !Restless(d) && Pending(d) == Some(to)
    ensures var e := d.(eventState := to);
            && !Restless(e)
            && match Pending(e) {
                 case None => true
                 case Some(next) => next != d.eventState && Pending(e.(eventState := next)) == None
               }
  {
  }

  lemma SteadyLook(d: Descr)
    requires Sane(d) && !Restless(d)
    ensures var e := Advance(d);
            var change := if e.eventState != d.eventState then 1 else 0;
            && !Restless(e)
            && ChangesLeft(e) + change <= ChangesLeft(d)
            && (if LooksLeft(d) > 0 then LooksLeft(e) < LooksLeft(d) else LooksLeft(e) == change == 0)
  {
    hide Restless;
    match Pending(d)
    case None => SameMachine(d, Advance(d));
    case Some(to) =>
      NoWayBack(d, to);
      SameMachine(d.(eventState := Advance(d).eventState), Advance(d));
  }

  /** What is pending depends on state, value and configuration alone. */
  lemma SameMachine(d: Descr, e: Descr)
    requires e == d.(remaining := e.remaining, acked := e.acked, eventTimeStamps := e.eventTimeStamps,
                     sendAckNotify := e.sendAckNotify, ackState := e.ackState)
    ensures Pending(d) == Pending(e) && Restless(d) == Restless(e) && ChangesLeft(d) == ChangesLeft(e)
    ensures d.remaining == e.remaining ==> LooksLeft(d) == LooksLeft(e)
  {
  }

  /** A step that is not a write: it looks at the limits or leaves the machine alone. */
  lemma SteadyStep(d: Descr, s: Step)
    requires Sane(d) && !Restless(d) && !s.Write?
    ensures var e := Apply(d, s);
            var change := if e.eventState != d.eventState then 1 else 0;
            && !Restless(e) && e.timeDelay == d.timeDelay
            && ChangesLeft(e) + change <= ChangesLeft(d)
            && (s.Evaluate? && !d.sendAckNotify && LooksLeft(d) > 0 ==> LooksLeft(e) < LooksLeft(d))
            && LooksLeft(e) <= LooksLeft(d)
            && (LooksLeft(d) == 0 ==> change == 0)
  {
    hide Restless, ChangesLeft, LooksLeft, Pending;
    NotEnabledNotPending(d);
    SteadyLook(d);
    var e := Apply(d, s);
    if s.Evaluate? && !d.sendAckNotify && (d.limitEnable.low || d.limitEnable.high) {
      SameMachine(Advance(d), e);
    } else {
      SameMachine(d, e);
    }
  }

  lemma NotEnabledNotPending(d: Descr)
    ensures Pending(d).Some? ==> d.limitEnable.low || d.limitEnable.high
    ensures ChangesLeft(d) <= 2
    ensures LooksLeft(d) == 0 <==> Pending(d) == None
  {
  }

  /** No chatter: while value and configuration stay and do not make it restless, the event state
      changes at most twice however long evaluations and acknowledgements go on. */
  lemma {:induction false} AtMostTwoChanges(d: Descr, steps: seq<Step>)
    requires Sane(d) && !Restless(d) && Steady(steps)
    ensures Changes(d, steps) <= ChangesLeft(d) <= 2
    decreases |steps|
  {
    hide Apply, Pending, ChangesLeft, Restless;
    NotEnabledNotPending(d);
    if steps != [] {
      SteadyStep(d, steps[0]);
      ApplyKeepsSane(d, steps[0]);
      AtMostTwoChanges(Apply(d, steps[0]), steps[1..]);
    }
  }

  /** And it is settled once the limits have been looked at `timeDelay + 2` times. */
  lemma {:induction false} SettledAfterDelay(d: Descr, steps: seq<Step>, more: seq<Step>)
    requires Sane(d) && !Restless(d) && Steady(steps) && Steady(more)
    requires Looks(d, steps) >= LooksLeft(d) || Looks(d, steps) >= d.timeDelay + 2
    ensures Changes(Run(d, steps), more) == 0
    decreases |steps|
  {
    hide Apply, Pending, ChangesLeft, LooksLeft, Sane, Restless;
    LooksBounded(d);
    if steps == [] {
      NotEnabledNotPending(d);
      StaysSettled(d, more);
    } else {
      SteadyStep(d, steps[0]);
      NotEnabledNotPending(d);
      ApplyKeepsSane(d, steps[0]);
      SettledAfterDelay(Apply(d, steps[0]), steps[1..], more);
    }
  }

  lemma LooksBounded(d: Descr)
    requires Sane(d)
    ensures LooksLeft(d) <= d.timeDelay + 2
  {
  }

  lemma {:induction false} StaysSettled(d: Descr, steps: seq<Step>)
    requires Sane(d) && !Restless(d) && Steady(steps) && LooksLeft(d) == 0
    ensures Changes(d, steps) == 0
    decreases |steps|
  {
    hide Apply, Pending, ChangesLeft, LooksLeft, Sane, Restless;
    if steps != [] {
      SteadyStep(d, steps[0]);
      ApplyKeepsSane(d, steps[0]);
      StaysSettled(Apply(d, steps[0]), steps[1..]);
    }
  }

  function Evaluations(n: nat, now: DateTime): (steps: seq<Step>)
    ensures |steps| == n && Steady(steps)
  {
    if n == 0 then [] else [Evaluate(now, false)] + Evaluations(n - 1, now)
  }

  /** Restless, it changes at every evaluation once the first delay is over. */
  lemma {:induction false} RestlessChatters(d: Descr, n: nat, now: DateTime)
    requires Sane(d) && Restless(d)
    ensures Changes(d, Evaluations(n, now)) >= n - d.remaining - if d.sendAckNotify then 1 else 0
    decreases n
  {
    hide Restless, Report, Sane, Pending;
    if n > 0 {
      RestlessStep(d, now);
      ApplyKeepsSane(d, Evaluate(now, false));
      assert Evaluations(n, now)[1..] == Evaluations(n - 1, now);
      RestlessChatters(Apply(d, Evaluate(now, false)), n - 1, now);
    }
  }

  lemma RestlessStep(d: Descr, now: DateTime)
    requires Sane(d) && Restless(d)
    ensures var e := Apply(d, Evaluate(now, false));
            && Restless(e) && !e.sendAckNotify
            && if d.sendAckNotify then e.eventState == d.eventState && e.remaining == d.remaining
               else if d.remaining > 0 then e.eventState == d.eventState && e.remaining == d.remaining - 1
               else e.eventState != d.eventState && e.remaining == 0
  {
  }

  /** So a steady object changes at most twice in every run exactly when it is not restless; a
      deadband below zero is needed for that. */
  lemma TwoChangesIffNotRestless(d: Descr, now: DateTime)
    requires Sane(d)
    ensures !Restless(d) <==> forall steps :: Steady(steps) ==> Changes(d, steps) <= 2
    ensures d.deadband >= 0.0 ==> !Restless(d)
  {
    hide Restless, Sane, Changes, Apply;
    if d.deadband >= 0.0 { DeadbandCalms(d); }
    if Restless(d) {
      var n := d.remaining + 4;
      RestlessChatters(d, n, now);
      assert Steady(Evaluations(n, now)) && Changes(d, Evaluations(n, now)) > 2;
    } else {
      forall steps | Steady(steps)
        ensures Changes(d, steps) <= 2
      {
        AtMostTwoChanges(d, steps);
      }
    }
  }

  // ------------------------------------------------------------- time delay

  /** A new value, then an evaluation. */
  function Sample(d: Descr, value: real, now: DateTime): Descr
  {
    Apply(Apply(d, Write(PresentValue(value))), Evaluate(now, false))
  }

  function Watch(d: Descr, values: seq<real>, now: DateTime): Descr
  {
    if values == [] then d else Sample(Watch(d, values[..|values| - 1], now), values[|values| - 1], now)
  }

  predicate Asks(d: Descr, value: real) { Pending(d.(presentValue := value)).Some? }

  /** How many of the last values in a row ask for another state. */
  function Streak(d: Descr, values: seq<real>): nat
  {
    if values == [] || !Asks(d, values[|values| - 1]) then 0 else 1 + Streak(d, values[..|values| - 1])
  }

  predicate Rested(d: Descr) { Reporting(d) && d.remaining == d.timeDelay && !d.sendAckNotify }

  /** No streak has outlasted the delay yet. */
  predicate Quiet(d: Descr, values: seq<real>)
  {
    forall k :: 0 <= k <= |values| ==> Streak(d, values[..k]) <= d.timeDelay
  }

  lemma SampleStep(d: Descr, value: real, now: DateTime)
    requires Sane(d) && !d.sendAckNotify
    ensures var e := Sample(d, value, now);
            && (!Asks(d, value) && (d.remaining == d.timeDelay || d.limitEnable.low || d.limitEnable.high)
                ==> e == d.(presentValue := value, remaining := d.timeDelay))
            && (Asks(d, value) && d.remaining > 0 ==> e == d.(presentValue := value, remaining := d.remaining - 1))
            && (Asks(d, value) && d.remaining == 0 ==> e.eventState != d.eventState && e.remaining == 0)
  {
  }

  lemma AsksEnabled(d: Descr, value: real)
    ensures Asks(d, value) ==> d.limitEnable.low || d.limitEnable.high
  {
  }

  /** While it is quiet the state stays and the time left is the delay less the streak. */
  lemma {:induction false} QuietCountsDown(d: Descr, values: seq<real>, now: DateTime)
    requires Rested(d) && Quiet(d, values)
    ensures Streak(d, values) <= d.timeDelay
    ensures Watch(d, values, now)
            == d.(presentValue := if values == [] then d.presentValue else values[|values| - 1],
                  remaining := d.timeDelay - Streak(d, values))
  {
    hide Sample, Asks;
    assert values[..|values|] == values;
    if values != [] {
      var front, last := values[..|values| - 1], values[|values| - 1];
      QuietPrefix(d, values);
      QuietCountsDown(d, front, now);
      var w := Watch(d, front, now);
      SampleStep(w, last, now);
      SameAsks(d, w, last);
      if Streak(d, front) > 0 { AsksEnabled(d, front[|front| - 1]); }
    }
  }

  lemma QuietPrefix(d: Descr, values: seq<real>)
    requires values != [] && Quiet(d, values)
    ensures Quiet(d, values[..|values| - 1])
  {
    var front := values[..|values| - 1];
    forall k | 0 <= k <= |front|
      ensures Streak(d, front[..k]) <= d.timeDelay
    {
      assert front[..k] == values[..k];
    }
  }

  lemma SameAsks(d: Descr, w: Descr, value: real)
    requires w == d.(presentValue := w.presentValue, remaining := w.remaining)
    ensures Asks(w, value) == Asks(d, value)
  {
  }

  /** From rest, the state changes at the first evaluation where the value has asked for it
      `timeDelay + 1` times in a row, and at no other. */
  lemma ChangesAfterTheDelay(d: Descr, values: seq<real>, value: real, now: DateTime)
    requires Rested(d) && Quiet(d, values)
    ensures Watch(d, values + [value], now).eventState != d.eventState
            <==> Streak(d, values + [value]) == d.timeDelay + 1
  {
    hide Sample, Asks;
    QuietCountsDown(d, values, now);
    var all, w := values + [value], Watch(d, values, now);
    assert all[..|all| - 1] == values;
    SampleStep(w, value, now);
    SameAsks(d, w, value);
    if Streak(d, values) > 0 { AsksEnabled(d, values[|values| - 1]); }
    assert values[..|values|] == values;
  }

  /** A change leaves no time on the counter, so the next change comes at the first evaluation that
      asks for it, however long the delay. */
  lemma NextChangeIsImmediate(d: Descr, value: real, now: DateTime)
    requires Sane(d) && !d.sendAckNotify && Apply(d, Evaluate(now, false)).eventState != d.eventState
    ensures var e := Apply(d, Evaluate(now, false));
            Sample(e, value, now).eventState != e.eventState <==> Asks(e, value)
  {
    hide Sample, Asks;
    var e := Apply(d, Evaluate(now, false));
    ApplyKeepsSane(d, Evaluate(now, false));
    SampleStep(e, value, now);
  }

  // -------------------------------------------------------- acknowledgement

  /** Date and time comparison is a total order up to the day of the week. */
  lemma CompareIsOrder(a: DateTime, b: DateTime, c: DateTime)
    ensures Compare(a, b) > 0 <==> Compare(b, a) < 0
    ensures Compare(a, b) == 0 <==> a.(wday := b.wday) == b
    ensures Compare(a, b) <= 0 && Compare(b, c) <= 0 ==> Compare(a, c) <= 0
  {
  }

  /** A transition that requires it is acknowledged by any date and time not before its own. */
  lemma TransitionIsAcknowledged(d: Descr, now: DateTime, stamp: TimeStamp)
    requires Report(d, now, true).1.Some? && Report(d, now, true).1.value.EventNotification?
    ensures var e := Report(d, now, true).0;
            && (Acknowledge(e, e.eventState, stamp).1.code == 1 <==> stamp.Dated? && Compare(now, stamp.at) <= 0)
            && Acknowledge(e, e.eventState, Dated(now)).1.code == 1
  {
  }

  /** Only an accepted acknowledgement changes anything, and then neither state nor time left. */
  lemma RefusedAckChangesNothing(d: Descr, state: nat, stamp: TimeStamp)
    ensures var (e, answer) := Acknowledge(d, state, stamp);
            && (answer.code != 1 ==> e == d)
            && e.eventState == d.eventState && e.remaining == d.remaining
            && (answer.code == 1 ==> e.sendAckNotify && Get(e.acked, TransitionTo(state).value).isAcked)
            && (answer.error.Some? <==> answer.code == -1)
  {
  }

  /** The evaluation after it sends one notification and looks at no limit. */
  lemma AckIsNotifiedOnce(d: Descr, state: nat, stamp: TimeStamp, now: DateTime, required: bool)
    requires Acknowledge(d, state, stamp).1.code == 1 && (d.limitEnable.low || d.limitEnable.high)
    ensures var e := Acknowledge(d, state, stamp).0;
            var (f, sent) := Report(e, now, required);
            && sent == Some(AckNotification(now, d.eventState))
            && f == e.(sendAckNotify := false)
            && (Report(f, now, required).1.Some? ==> Report(f, now, required).1.value.EventNotification?)
  {
  }

  /** A transition once acknowledged stays so, and is refused as not outstanding, until an
      evaluation requires acknowledgement again. */
  lemma {:induction false} AcknowledgedOnce(d: Descr, t: Transition, steps: seq<Step>, state: nat, stamp: TimeStamp)
    requires Get(d.acked, t).isAcked && TransitionTo(state) == Some(t)
    requires forall k :: 0 <= k < |steps| && steps[k].Evaluate? ==> !steps[k].ackRequired
    ensures Acknowledge(Run(d, steps), state, stamp) == (Run(d, steps), AckAnswer(-1, Some(INVALID_EVENT_STATE)))
    decreases |steps|
  {
    hide Apply;
    if steps != [] {
      AckedStays(d, t, steps[0]);
      AcknowledgedOnce(Apply(d, steps[0]), t, steps[1..], state, stamp);
    }
  }

  lemma AckedStays(d: Descr, t: Transition, s: Step)
    requires Get(d.acked, t).isAcked && (s.Evaluate? ==> !s.ackRequired)
    ensures Get(Apply(d, s).acked, t).isAcked
  {
  }

  /** Two acknowledgements before the next evaluation are announced by one notification. */
  lemma AcksCoalesce(d: Descr, first: nat, second: nat, stamp: TimeStamp, now: DateTime)
    requires Acknowledge(d, first, stamp).1.code == 1
    requires Acknowledge(Acknowledge(d, first, stamp).0, second, stamp).1.code == 1
    requires (d.limitEnable.low || d.limitEnable.high) && Pending(d) == None && Reporting(d)
    ensures var e := Acknowledge(Acknowledge(d, first, stamp).0, second, stamp).0;
            && Report(e, now, true).1.Some?
            && Report(Report(e, now, true).0, now, true).1 == None
  {
  }

  /** An acknowledgement that is accepted. */
  predicate Accepts(d: Descr, s: Step) { s.Ack? && Acknowledge(d, s.state, s.stamp).1.code == 1 }

  /** An evaluation that sends an acknowledgement notification. */
  predicate Announces(d: Descr, s: Step)
  {
    s.Evaluate? &&
    var sent := Report(d, s.now, s.ackRequired).1;
    sent.Some? && sent.value.AckNotification?
  }

  function Bit(b: bool): nat { if b then 1 else 0 }

  /** Acknowledgements accepted in a run, those of them accepted while one is still to be announced, and
      announcements sent. */
  function Accepted(d: Descr, steps: seq<Step>): nat
    decreases |steps|
  {
    if steps == [] then 0 else Bit(Accepts(d, steps[0])) + Accepted(Apply(d, steps[0]), steps[1..])
  }

  function Merged(d: Descr, steps: seq<Step>): nat
    decreases |steps|
  {
    if steps == [] then 0
    else Bit(Accepts(d, steps[0]) && d.sendAckNotify) + Merged(Apply(d, steps[0]), steps[1..])
  }

  function Announced(d: Descr, steps: seq<Step>): nat
    decreases |steps|
  {
    if steps == [] then 0 else Bit(Announces(d, steps[0])) + Announced(Apply(d, steps[0]), steps[1..])
  }

  lemma StepBalance(d: Descr, s: Step)
    ensures Bit(Announces(d, s)) + Bit(Accepts(d, s) && d.sendAckNotify) + Bit(Apply(d, s).sendAckNotify)
            == Bit(Accepts(d, s)) + Bit(d.sendAckNotify)
  {
  }

  /** Over every run each accepted acknowledgement is announced, merged with one that is waiting, or
      waiting at the end itself, and nothing else is announced. */
  lemma {:induction false} AcknowledgementsBalance(d: Descr, steps: seq<Step>)
    ensures Announced(d, steps) + Merged(d, steps) + Bit(Run(d, steps).sendAckNotify)
            == Accepted(d, steps) + Bit(d.sendAckNotify)
    decreases |steps|
  {
    hide Apply, Accepts, Announces, Bit;
    if steps != [] {
      StepBalance(d, steps[0]);
      AcknowledgementsBalance(Apply(d, steps[0]), steps[1..]);
    }
  }

  /** No acknowledgement is accepted in the run while another is to be announced. */
  predicate NoneWhileWaiting(d: Descr, steps: seq<Step>)
  {
    forall k :: 0 <= k < |steps| ==> !(Run(d, steps[..k]).sendAckNotify && Accepts(Run(d, steps[..k]), steps[k]))
  }

  lemma {:induction false} MergedIff(d: Descr, steps: seq<Step>)
    ensures Merged(d, steps) == 0 <==> NoneWhileWaiting(d, steps)
    decreases |steps|
  {
    hide Apply, Accepts;
    if steps != [] {
      var e, rest := Apply(d, steps[0]), steps[1..];
      MergedIff(e, rest);
      assert steps[..0] == [];
      forall k | 0 <= k < |rest|
        ensures Run(d, steps[..k + 1]) == Run(e, rest[..k]) && steps[k + 1] == rest[k]
      {
        assert steps[..k + 1][0] == steps[0] && steps[..k + 1][1..] == rest[..k];
      }
      if NoneWhileWaiting(d, steps) {
        assert !(Run(d, steps[..0]).sendAckNotify && Accepts(Run(d, steps[..0]), steps[0]));
        forall k | 0 <= k < |rest|
          ensures !(Run(e, rest[..k]).sendAckNotify && Accepts(Run(e, rest[..k]), rest[k]))
        {
          assert !(Run(d, steps[..k + 1]).sendAckNotify && Accepts(Run(d, steps[..k + 1]), steps[k + 1]));
        }
      } else {
        var k :| 0 <= k < |steps| && Run(d, steps[..k]).sendAckNotify && Accepts(Run(d, steps[..k]), steps[k]);
        if k > 0 {
          assert Run(e, rest[..k - 1]).sendAckNotify && Accepts(Run(e, rest[..k - 1]), rest[k - 1]);
        }
      }
    }
  }

  /** There are as many announcements as accepted acknowledgements, one waiting at the start counted in,
      exactly if none is accepted while one waits and none waits at the end. */
  lemma AllAnnouncedIff(d: Descr, steps: seq<Step>)
    ensures Announced(d, steps) == Accepted(d, steps) + Bit(d.sendAckNotify)
            <==> NoneWhileWaiting(d, steps) && !Run(d, steps).sendAckNotify
  {
    hide Run, Announced, Accepted, Merged, NoneWhileWaiting;
    AcknowledgementsBalance(d, steps);
    MergedIff(d, steps);
  }

  /** The object is made to go to high limit and back, both transitions are acknowledged, and it is
      evaluated twice. */
  function TwoAcks(now: DateTime): seq<Step>
  {
    var stamp := Dated(now);
    [Write(Limits(LimitEnable(true, true))), Write(Events(EventEnable(true, true, true))),
     Write(HighLimit(10.0)), Write(Deadband(1.0)), Write(PresentValue(20.0)), Evaluate(now, true),
     Write(PresentValue(5.0)), Evaluate(now, true),
     Ack(HIGH_LIMIT, stamp), Ack(NORMAL, stamp), Evaluate(now, true), Evaluate(now, true)]
  }

  /** What a run counts from its step `k` on. */
  lemma FromStep(d: Descr, steps: seq<Step>, k: nat)
    requires k < |steps|
    ensures var e, s := Apply(d, steps[k]), steps[k];
            && Accepted(d, steps[k..]) == Bit(Accepts(d, s)) + Accepted(e, steps[k + 1..])
            && Announced(d, steps[k..]) == Bit(Announces(d, s)) + Announced(e, steps[k + 1..])
            && Run(d, steps[k..]) == Run(e, steps[k + 1..])
  {
    hide Apply, Accepts, Announces;
    assert steps[k..][1..] == steps[k + 1..];
  }

  /** From steps `i` and `j` on a run counts the same. */
  predicate Counts(d: Descr, e: Descr, steps: seq<Step>, i: nat, j: nat)
    requires i <= j <= |steps|
  {
    && Accepted(d, steps[i..]) == Accepted(e, steps[j..]) && Announced(d, steps[i..]) == Announced(e, steps[j..])
    && Run(d, steps[i..]) == Run(e, steps[j..])
  }

  lemma Configured(d: Descr, now: DateTime) returns (e: Descr)
    requires Initial(d)
    ensures Counts(d, e, TwoAcks(now), 0, 5)
    ensures e == d.(limitEnable := LimitEnable(true, true), eventEnable := EventEnable(true, true, true),
                    highLimit := 10.0, deadband := 1.0, presentValue := 20.0)
  {
    hide Accepted, Announced, Run;
    var steps := TwoAcks(now);
    FromStep(d, steps, 0);
    var d1 := Apply(d, steps[0]);
    FromStep(d1, steps, 1);
    var d2 := Apply(d1, steps[1]);
    FromStep(d2, steps, 2);
    var d3 := Apply(d2, steps[2]);
    FromStep(d3, steps, 3);
    var d4 := Apply(d3, steps[3]);
    FromStep(d4, steps, 4);
    e := Apply(d4, steps[4]);
  }

  /** High limit and back: both transitions are to be acknowledged. */
  lemma BothOutstanding(d: Descr, now: DateTime) returns (e: Descr)
    requires d.eventState == NORMAL && d.timeDelay == 0 && d.remaining == 0 && !d.sendAckNotify && d.lowLimit == 0.0
    requires d.limitEnable == LimitEnable(true, true) && d.eventEnable == EventEnable(true, true, true)
    requires d.highLimit == 10.0 && d.deadband == 1.0 && d.presentValue == 20.0
    ensures Counts(d, e, TwoAcks(now), 5, 8)
    ensures e.eventState == NORMAL && !e.sendAckNotify && e.limitEnable == LimitEnable(true, true) && Pending(e) == None
    ensures e.acked.offnormal == e.acked.normal == AckedInfo(false, now)
  {
    hide Accepted, Announced, Run;
    var steps := TwoAcks(now);
    FromStep(d, steps, 5);
    var d6 := Apply(d, steps[5]);
    FromStep(d6, steps, 6);
    var d7 := Apply(d6, steps[6]);
    FromStep(d7, steps, 7);
    e := Apply(d7, steps[7]);
  }

  /** From initialisation on: two acknowledgements are accepted, one is announced, and none waits. */
  lemma OneAckIsLost(d: Descr, now: DateTime)
    requires Initial(d)
    ensures var steps := TwoAcks(now);
            && Accepted(d, steps) == 2 && Announced(d, steps) == 1 && Merged(d, steps) == 1
            && !Run(d, steps).sendAckNotify
  {
    hide Accepted, Announced, Run, Merged, TwoAcks;
    var steps := TwoAcks(now);
    var d5 := Configured(d, now);
    var d8 := BothOutstanding(d5, now);
    assert steps[0..] == steps;
    LastFour(d8, now);
    AcknowledgementsBalance(d, steps);
  }

  lemma LastFour(d: Descr, now: DateTime)
    requires d.eventState == NORMAL && !d.sendAckNotify && d.limitEnable == LimitEnable(true, true)
    requires Pending(d) == None
    requires d.acked.offnormal == d.acked.normal == AckedInfo(false, now)
    ensures var rest := TwoAcks(now)[8..];
            Accepted(d, rest) == 2 && Announced(d, rest) == 1 && !Run(d, rest).sendAckNotify
  {
    hide Accepted, Announced, Run;
    var steps := TwoAcks(now);
    FromStep(d, steps, 8);
    var d9 := Apply(d, steps[8]);
    FromStep(d9, steps, 9);
    var d10 := Apply(d9, steps[9]);
    FromStep(d10, steps, 10);
    var d11 := Apply(d10, steps[10]);
    FromStep(d11, steps, 11);
    var e := Apply(d11, steps[11]);
    NothingMore(e, steps[12..]);
  }

  lemma NothingMore(d: Descr, steps: seq<Step>)
    requires steps == []
    ensures Accepted(d, steps) == Announced(d, steps) == 0 && Run(d, steps) == d
  {
  }
}
