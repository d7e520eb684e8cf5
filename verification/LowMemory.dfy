/** The memory-pressure handler: an incomplete transition table, a repeating timer
    and a throttled cleanup. */
module LowMemory {
  import opened Wrappers

  const CLEANUP_GAP := 15
  const WORD := 0x1_0000_0000

  datatype Mem = Normal | Low | Critical | Reboot

  /** The published warning level. */
  datatype Warning = NoWarning | SoftWarning | HardWarning

  datatype Action = LowAct | OomAct | NormalAct

  datatype Row = Row(from: Mem, to: Mem, action: Action)

  const TABLE := [
    Row(Normal, Low, LowAct),
    Row(Normal, Critical, OomAct),
    Row(Low, Critical, OomAct),
    Row(Critical, Critical, OomAct),
    Row(Low, Mem.Normal, NormalAct),
    Row(Critical, Mem.Normal, NormalAct)
  ]

  /** The action the table holds for a transition, if it has a row. */
  function Lookup(from: Mem, to: Mem): Option<Action>
  {
    match (from, to)
    case (Normal, Low) => Some(LowAct)
    case (Normal, Critical) => Some(OomAct)
    case (Low, Critical) => Some(OomAct)
    case (Critical, Critical) => Some(OomAct)
    case (Low, Normal) => Some(NormalAct)
    case (Critical, Normal) => Some(NormalAct)
    case _ => None
  }

  type Clock = t: int | 0 <= t < WORD

  /** `timers` are the timers that exist; `armed` the one the handler remembers.
      `cleanups` and `ooms` are the times of the throttled cleanups and of the
      out-of-memory actions so far. */
  datatype Sys = Sys(mem: Mem, armed: Option<nat>, timers: set<nat>, made: nat, warning: Warning,
                     lastCleanup: Clock, cleanups: seq<Clock>, ooms: seq<Clock>)

  const START := Sys(Normal, None, {}, 0, NoWarning, 0, [], [])

  /** The unsigned difference the throttle tests. */
  function Elapsed(now: Clock, last: Clock): int
  {
    (now - last) % WORD
  }

  function Act(s: Sys, action: Action, now: Clock): Sys
  {
    match action
    case LowAct => s.(warning := SoftWarning)
    case NormalAct => s.(warning := NoWarning)
    case OomAct =>
      var cleans := Elapsed(now, s.lastCleanup) > CLEANUP_GAP;
      s.(warning := HardWarning, ooms := s.ooms + [now],
         lastCleanup := if cleans then now else s.lastCleanup,
         cleanups := if cleans then s.cleanups + [now] else s.cleanups)
  }

  /** A notification, or a tick of the timer. */
  datatype Event = Notify(mem: Mem, now: Clock, timerOk: bool) | Tick(now: Clock)

  function Disarm(s: Sys): Sys
  {
    if s.armed.Some? then s.(armed := None, timers := s.timers - {s.armed.value}) else s
  }

  function Arm(s: Sys, timerOk: bool): Sys
  {
    if timerOk then s.(armed := Some(s.made), timers := s.timers + {s.made}, made := s.made + 1)
    else s.(armed := None)
  }

  function Step(s: Sys, e: Event): Sys
  {
    match e
    case Notify(mem, now, timerOk) =>
      (match Lookup(s.mem, mem)
       case None => s
       case Some(action) =>
         var t := Act(Disarm(s), action, now);
         if mem == Critical then Arm(t, timerOk) else t).(mem := mem)
    case Tick(now) => if s.timers == {} then s else Act(s, OomAct, now)
  }

  function Run(events: seq<Event>): Sys
  {
    if events == [] then START else Step(Run(events[..|events| - 1]), events[|events| - 1])
  }

  // ---- The handler ----

  lemma TableIsLookup(from: Mem, to: Mem, i: nat)
    requires i < |TABLE| && TABLE[i].from == from && TABLE[i].to == to
    ensures Lookup(from, to) == Some(TABLE[i].action)
  {
  }

  lemma NoRowNoLookup(from: Mem, to: Mem)
    requires forall i :: 0 <= i < |TABLE| ==> !(TABLE[i].from == from && TABLE[i].to == to)
    ensures Lookup(from, to) == None
  {
    assert TABLE[0] == Row(Normal, Low, LowAct) && TABLE[1] == Row(Normal, Critical, OomAct);
    assert TABLE[2] == Row(Low, Critical, OomAct) && TABLE[3] == Row(Critical, Critical, OomAct);
    assert TABLE[4] == Row(Low, Mem.Normal, NormalAct) && TABLE[5] == Row(Critical, Mem.Normal, NormalAct);
  }

  class MemoryHandler {
    var mem: Mem
    var armed: Option<nat>
    var timers: set<nat>
    var made: nat
    var warning: Warning
    var lastCleanup: Clock
    ghost var cleanups: seq<Clock>
    ghost var ooms: seq<Clock>

    ghost function Abs(): Sys
      reads this
    {
      Sys(mem, armed, timers, made, warning, lastCleanup, cleanups, ooms)
    }

    constructor ()
      ensures Abs() == START
    {
      mem, armed, timers, made, warning := Normal, None, {}, 0, NoWarning;
      lastCleanup, cleanups, ooms := 0, [], [];
    }

    method MemoryLowAct()
      modifies this`warning
      ensures forall now: Clock :: Abs() == Act(old(Abs()), LowAct, now)
    {
      warning := SoftWarning;
    }

    method MemoryNormalAct()
      modifies this`warning
      ensures forall now: Clock :: Abs() == Act(old(Abs()), NormalAct, now)
    {
      warning := NoWarning;
    }

    method MemoryOomAct(now: Clock) returns (renew: bool)
      modifies this`warning, this`lastCleanup, this`cleanups, this`ooms
      ensures renew && Abs() == Act(old(Abs()), OomAct, now)
    {
      ooms := ooms + [now];
      if (now - lastCleanup) % WORD > CLEANUP_GAP {
        lastCleanup := now;
        cleanups := cleanups + [now];
      }
      warning := HardWarning;
      renew := true;
    }

    method Perform(action: Action, now: Clock)
      modifies this`warning, this`lastCleanup, this`cleanups, this`ooms
      ensures Abs() == Act(old(Abs()), action, now)
    {
      match action
      case LowAct => MemoryLowAct();
      case NormalAct => MemoryNormalAct();
      case OomAct => var _ := MemoryOomAct(now);
    }

    /** Looks the transition up and runs its row; without a row nothing happens. */
    method LowmemProcess(next: Mem, now: Clock, timerOk: bool)
      modifies this
      ensures Abs().(mem := next) == Step(old(Abs()), Notify(next, now, timerOk)) && mem == old(mem)
    {
      var i := 0;
      while i < |TABLE|
        invariant 0 <= i <= |TABLE|
        invariant forall j :: 0 <= j < i ==> !(TABLE[j].from == mem && TABLE[j].to == next)
        invariant Abs() == old(Abs())
      {
        if mem == TABLE[i].from && next == TABLE[i].to {
          TableIsLookup(mem, next, i);
          if armed.Some? {
            timers := timers - {armed.value};
            armed := None;
          }
          Perform(TABLE[i].action, now);
          if next == Critical {
            if timerOk {
              armed, timers, made := Some(made), timers + {made}, made + 1;
            } else {
              armed := None;
            }
          }
          return;
        }
        i := i + 1;
      }
      NoRowNoLookup(mem, next);
    }

    method LowmemCb(next: Mem, now: Clock, timerOk: bool)
      modifies this
      ensures Abs() == Step(old(Abs()), Notify(next, now, timerOk))
    {
      LowmemProcess(next, now, timerOk);
      mem := next;
    }

    /** A timer that exists fires; its callback asks to be called again. */
    method TimerFires(now: Clock) returns (renew: bool)
      requires timers != {}
      modifies this`warning, this`lastCleanup, this`cleanups, this`ooms
      ensures renew && Abs() == Step(old(Abs()), Tick(now))
    {
      renew := MemoryOomAct(now);
    }
  }

  // ---- The timer follows the published level ----

  predicate TimersOk(events: seq<Event>)
  {
    forall i :: 0 <= i < |events| && events[i].Notify? ==> events[i].timerOk
  }

  /** In every run at most one timer exists and the handler remembers it, and it is
      armed only while the published level is the hard warning; it is armed
      exactly then when no timer creation failed. */
  lemma {:induction false} TimerFollowsWarning(events: seq<Event>)
    ensures var s := Run(events);
            && s.timers == (if s.armed.Some? then {s.armed.value} else {})
            && (s.armed.Some? ==> s.warning == HardWarning)
            && (TimersOk(events) ==> (s.armed.Some? <==> s.warning == HardWarning))
  {
    if events != [] {
      TimerFollowsWarning(events[..|events| - 1]);
    }
  }

  /** The last notification, NORMAL before the first. */
  function LastMem(events: seq<Event>): Mem
  {
    if events == [] then Normal
    else
      var e := events[|events| - 1];
      if e.Notify? then e.mem else LastMem(events[..|events| - 1])
  }

  /** The last notification whose transition has a row in the table. */
  function LastRow(events: seq<Event>): (row: Option<Event>)
    ensures row.Some? ==> row.value.Notify?
  {
    if events == [] then None
    else
      var init, e := events[..|events| - 1], events[|events| - 1];
      if e.Notify? && Lookup(LastMem(init), e.mem).Some? then Some(e) else LastRow(init)
  }

  /** The last transition with a row went to CRITICAL and its timer was created. */
  predicate Arming(events: seq<Event>)
  {
    var row := LastRow(events);
    row.Some? && row.value.mem == Critical && row.value.timerOk
  }

  /** In every run, with REBOOT and with failing timers, the timer is armed exactly
      when the last transition that has a row went to CRITICAL and its timer was
      created; and that transition alone fixes the published level. */
  lemma {:induction false} ArmedByLastRow(events: seq<Event>)
    ensures Run(events).mem == LastMem(events)
    ensures Run(events).armed.Some? <==> Arming(events)
    ensures var row := LastRow(events);
            Run(events).warning == (if row.None? then NoWarning
                                    else if row.value.mem == Critical then HardWarning
                                    else if row.value.mem == Low then SoftWarning else NoWarning)
  {
    if events != [] {
      ArmedByLastRow(events[..|events| - 1]);
      TimerFollowsWarning(events[..|events| - 1]);
    }
  }

  /** The events before the last notification. */
  function Before(events: seq<Event>): seq<Event>
  {
    if events == [] then []
    else if events[|events| - 1].Notify? then events[..|events| - 1]
    else Before(events[..|events| - 1])
  }

  /** The last notification itself, if any. */
  function LastNotify(events: seq<Event>): (last: Option<Event>)
    ensures last.Some? ==> last.value.Notify?
  {
    if events == [] then None
    else if events[|events| - 1].Notify? then Some(events[|events| - 1])
    else LastNotify(events[..|events| - 1])
  }

  lemma {:induction false} LastRowSplits(events: seq<Event>)
    ensures LastNotify(events).None? ==> LastMem(events) == Normal && LastRow(events) == None
    ensures LastNotify(events).Some? ==>
              var e := LastNotify(events).value;
              e.Notify? && LastMem(events) == e.mem &&
              LastRow(events) == if Lookup(LastMem(Before(events)), e.mem).Some? then Some(e)
                                 else LastRow(Before(events))
  {
    if events != [] {
      LastRowSplits(events[..|events| - 1]);
    }
  }

  /** CRITICAL without a timer: the last notification was a CRITICAL that either came
      from REBOOT, which has no row, while no timer was armed, or had a row but its
      timer could not be created. */
  lemma CriticalUnarmed(events: seq<Event>)
    ensures Run(events).mem == Critical && Run(events).armed.None? <==>
            var e := LastNotify(events);
            e.Some? && e.value.mem == Critical &&
            if LastMem(Before(events)) == Reboot then !Arming(Before(events)) else !e.value.timerOk
  {
    ArmedByLastRow(events);
    LastRowSplits(events);
  }

  /** NORMAL with a timer: the last notification was a NORMAL that came from REBOOT,
      or from such a NORMAL, neither of which has a row, while a timer was armed. */
  lemma NormalArmed(events: seq<Event>)
    ensures Run(events).mem == Normal && Run(events).armed.Some? <==>
            var e := LastNotify(events);
            e.Some? && e.value.mem == Normal && Arming(Before(events)) &&
            (LastMem(Before(events)) == Reboot || LastMem(Before(events)) == Normal)
  {
    ArmedByLastRow(events);
    LastRowSplits(events);
  }

  predicate NoReboot(events: seq<Event>)
  {
    forall i :: 0 <= i < |events| && events[i].Notify? ==> events[i].mem != Reboot
  }

  /** The last notification other than LOW, or NORMAL before the first. */
  function LastExtreme(events: seq<Event>): Mem
  {
    if events == [] then Normal
    else
      var e := events[|events| - 1];
      if e.Notify? && e.mem != Low then e.mem else LastExtreme(events[..|events| - 1])
  }

  /** Without REBOOT, the timer is armed exactly when the last notification other than
      LOW was CRITICAL: CRITICAL -> LOW has no row and does not disarm it. The
      published level keeps the hard warning just as long, and is otherwise fixed
      by the last notification. */
  lemma {:induction false} ArmedSinceCritical(events: seq<Event>)
    requires NoReboot(events) && TimersOk(events)
    ensures Run(events).armed.Some? <==> LastExtreme(events) == Critical
    ensures Run(events).mem == LastMem(events)
    ensures Run(events).warning == (if LastExtreme(events) == Critical then HardWarning
                                    else if LastMem(events) == Low then SoftWarning else NoWarning)
    ensures LastMem(events) != Low ==> LastMem(events) == LastExtreme(events)
    ensures LastMem(events) != Reboot && LastExtreme(events) != Reboot
  {
    if events != [] {
      var init := events[..|events| - 1];
      assert forall i :: 0 <= i < |init| ==> init[i] == events[i];
      ArmedSinceCritical(init);
      TimerFollowsWarning(init);
    }
  }

  /** So "armed exactly in CRITICAL" holds after a run unless it ends in a LOW that
      CRITICAL led to; CRITICAL always implies armed and NORMAL disarmed. */
  lemma ArmedInCritical(events: seq<Event>)
    requires NoReboot(events) && TimersOk(events)
    ensures var s := Run(events);
            && ((s.armed.Some? <==> s.mem == Critical) <==>
                !(LastMem(events) == Low && LastExtreme(events) == Critical))
            && (s.mem == Critical ==> s.armed.Some?)
            && (s.mem == Normal ==> s.armed.None?)
  {
    ArmedSinceCritical(events);
  }

  /** With REBOOT both implications fail. */
  lemma RebootBreaksBoth(now: Clock)
    ensures Run([Notify(Critical, now, true), Notify(Reboot, now, true), Notify(Normal, now, true)]).armed.Some?
    ensures Run([Notify(Critical, now, true), Notify(Reboot, now, true), Notify(Normal, now, true)]).mem == Normal
    ensures Run([Notify(Reboot, now, true), Notify(Critical, now, true)]).armed.None?
    ensures Run([Notify(Reboot, now, true), Notify(Critical, now, true)]).mem == Critical
  {
    var c, r, n := Notify(Critical, now, true), Notify(Reboot, now, true), Notify(Normal, now, true);
    assert Run([]) == START;
    assert [c][..0] == [] && [c, r][..1] == [c] && [c, r, n][..2] == [c, r];
    assert Run([c]).armed == Some(0);
    assert Run([c, r]).armed == Some(0);
    assert [r][..0] == [] && [r, c][..1] == [r];
    assert Run([r]).mem == Reboot;
  }

  // ---- The throttle ----

  function Time(e: Event): Clock { e.now }

  predicate Forward(events: seq<Event>)
  {
    forall i, j :: 0 <= i < j < |events| ==> Time(events[i]) <= Time(events[j])
  }

  /** The time of the last cleanup, or 0 before the first. */
  function LastOf(cleanups: seq<Clock>): Clock
  {
    if cleanups == [] then 0 else cleanups[|cleanups| - 1]
  }

  predicate Spaced(cleanups: seq<Clock>)
  {
    (cleanups != [] ==> cleanups[0] > 15) &&
    forall i, j :: 0 <= i < j < |cleanups| ==> cleanups[j] as int - cleanups[i] as int > 15
  }

  // The exact guard, for any clock

  /** The clock reads earlier than the last cleanup, and not so much earlier that the
      wrapped difference is small. */
  predicate Wraps(last: Clock, now: Clock)
  {
    now < last < now + 0x1_0000_0000 - 15
  }

  lemma ElapsedIs(now: Clock, last: Clock)
    ensures Elapsed(now, last) == if now >= last then now - last else now - last + 0x1_0000_0000
  {
    if now < last {
      assert (now - last) % 0x1_0000_0000 == (now - last + 0x1_0000_0000) % 0x1_0000_0000;
    }
  }

  /** In every state an out-of-memory action cleans up within 15 seconds of the last
      cleanup, or before it, exactly when the difference wraps. */
  lemma CleansTooSoon(s: Sys, now: Clock)
    ensures Act(s, OomAct, now).cleanups != s.cleanups && now <= s.lastCleanup + 15 <==>
            Wraps(s.lastCleanup, now)
    ensures Act(s, OomAct, now).cleanups != s.cleanups <==>
            now > s.lastCleanup + 15 || Wraps(s.lastCleanup, now)
  {
    ElapsedIs(now, s.lastCleanup);
  }

  /** Does the event run the out-of-memory action? */
  predicate RunsOom(s: Sys, e: Event)
  {
    match e
    case Tick(_) => s.timers != {}
    case Notify(mem, _, _) => mem == Critical && s.mem != Reboot
  }

  /** Only the out-of-memory action touches the throttle. */
  lemma StepCases(s: Sys, e: Event)
    ensures var t, acted := Step(s, e), Act(s, OomAct, Time(e));
            if RunsOom(s, e)
            then t.ooms == acted.ooms && t.cleanups == acted.cleanups && t.lastCleanup == acted.lastCleanup
            else t.ooms == s.ooms && t.cleanups == s.cleanups && t.lastCleanup == s.lastCleanup
  {
  }

  /** Modulo 2^32 each cleanup is more than 15 after the one before, whatever the
      clock does, and the throttle remembers the latest. */
  ghost predicate SpacedModulo(s: Sys)
  {
    s.lastCleanup == LastOf(s.cleanups) &&
    forall i :: 0 <= i < |s.cleanups| ==>
      Elapsed(s.cleanups[i], LastOf(s.cleanups[..i])) > 15
  }

  lemma {:induction false} CleanupsSpacedModulo(events: seq<Event>)
    ensures SpacedModulo(Run(events))
  {
    if events != [] {
      var init, e := events[..|events| - 1], events[|events| - 1];
      CleanupsSpacedModulo(init);
      StepCases(Run(init), e);
      var before, after := Run(init).cleanups, Run(events).cleanups;
      forall i | 0 <= i < |after| ensures Elapsed(after[i], LastOf(after[..i])) > 15 {
        if i < |before| {
          assert after[..i] == before[..i];
        } else {
          assert after[..i] == before;
        }
      }
    }
  }

  lemma SpacedAppend(cleanups: seq<Clock>, now: Clock)
    ensures Spaced(cleanups + [now]) <==> Spaced(cleanups) && now > LastOf(cleanups) + 15
  {
    var longer := cleanups + [now];
    assert forall i :: 0 <= i < |cleanups| ==> cleanups[i] == longer[i];
    assert longer[|cleanups|] == now;
    if Spaced(cleanups) && now > LastOf(cleanups) + 15 {
      forall i | 0 <= i < |cleanups| ensures now - longer[i] > 15 {
        assert i < |cleanups| - 1 ==> cleanups[|cleanups| - 1] - cleanups[i] > 15;
      }
    }
  }

  /** No out-of-memory action of the run met a clock that wraps against the last
      cleanup. */
  predicate NeverWraps(events: seq<Event>)
  {
    events == [] ||
    var init, e := events[..|events| - 1], events[|events| - 1];
    NeverWraps(init) && !(RunsOom(Run(init), e) && Wraps(Run(init).lastCleanup, Time(e)))
  }

  /** In every run any two cleanups are more than 15 seconds apart, in order, exactly
      when no out-of-memory action met a clock that wraps. */
  lemma {:induction false} SpacedUnlessWrapped(events: seq<Event>)
    ensures Spaced(Run(events).cleanups) <==> NeverWraps(events)
  {
    if events != [] {
      var init, e := events[..|events| - 1], events[|events| - 1];
      var s := Run(init);
      SpacedUnlessWrapped(init);
      CleanupsSpacedModulo(init);
      StepCases(s, e);
      CleansTooSoon(s, Time(e));
      SpacedAppend(s.cleanups, Time(e));
    }
  }

  // A clock that never goes back

  predicate Throttled(s: Sys, now: Clock)
  {
    Spaced(s.cleanups) && s.lastCleanup == LastOf(s.cleanups) <= now
  }

  lemma ActIsThrottled(s: Sys, now: Clock)
    requires Throttled(s, now)
    ensures var t := Act(s, OomAct, now);
            && Throttled(t, now) && now <= LastOf(t.cleanups) + 15
            && t.cleanups == if now > LastOf(s.cleanups) + 15 then s.cleanups + [now] else s.cleanups
  {
  }

  lemma StepIsThrottled(s: Sys, e: Event)
    requires Throttled(s, Time(e))
    ensures Throttled(Step(s, e), Time(e))
    ensures Step(s, e).ooms != s.ooms ==> Step(s, e).cleanups == Act(s, OomAct, Time(e)).cleanups
  {
    StepCases(s, e);
    ActIsThrottled(s, Time(e));
  }

  /** With a clock that never goes back, any two cleanups are more than 15 seconds
      apart, and the latest is the time the throttle remembers. */
  lemma {:induction false} CleanupsSpaced(events: seq<Event>, now: Clock)
    requires Forward(events) && (events != [] ==> Time(events[|events| - 1]) <= now)
    ensures Throttled(Run(events), now)
  {
    if events != [] {
      var n := |events| - 1;
      var init := events[..n];
      assert forall i :: 0 <= i < |init| ==> init[i] == events[i];
      assert n > 0 ==> Time(events[n - 1]) <= Time(events[n]);
      CleanupsSpaced(init, Time(events[n]));
      StepIsThrottled(Run(init), events[n]);
    }
  }

  /** The throttle is tight: an out-of-memory action cleans up exactly when the last
      cleanup is more than 15 seconds old, so one is never older than that after it. */
  lemma OomActsAreCovered(events: seq<Event>, e: Event)
    requires Forward(events) && (events != [] ==> Time(events[|events| - 1]) <= Time(e))
    requires Step(Run(events), e).ooms != Run(events).ooms
    ensures var last := LastOf(Run(events).cleanups);
            && Step(Run(events), e).cleanups ==
               Run(events).cleanups + (if Time(e) > last + 15 then [Time(e)] else [])
            && Time(e) <= LastOf(Step(Run(events), e).cleanups) + 15
  {
    CleanupsSpaced(events, Time(e));
    StepIsThrottled(Run(events), e);
    ActIsThrottled(Run(events), Time(e));
  }

  /** A clock that steps back one second defeats the throttle. */
  lemma BackwardClockDefeatsThrottle()
    ensures Run([Notify(Critical, 100, true), Tick(99)]).cleanups == [100, 99]
  {
  }
}
