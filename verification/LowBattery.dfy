/** The battery monitor: a transition table, publishing that may fail, and the
    polling interval. */
module LowBattery {
  import opened Wrappers

  const BAT_MON_INTERVAL := 30
  const BAT_MON_INTERVAL_MIN := 2

  const BATTERY_UNKNOWN := -1
  const BATTERY_FULL := 100
  const BATTERY_NORMAL := 100
  const BATTERY_WARNING_LOW := 15
  const BATTERY_CRITICAL_LOW := 5
  const BATTERY_POWER_OFF := 1
  const BATTERY_REAL_POWER_OFF := 0

  const MAX_BATTERY_ERROR := 10

  datatype Action = WarningLow | CriticalLow | PowerOff

  /** The published battery status. */
  datatype Status = Full | Normal | Warning | Critical | Off

  datatype Row = Row(from: int, to: int, action: Action)

  const TABLE := [
    Row(BATTERY_NORMAL, BATTERY_WARNING_LOW, WarningLow),
    Row(BATTERY_WARNING_LOW, BATTERY_CRITICAL_LOW, CriticalLow),
    Row(BATTERY_CRITICAL_LOW, BATTERY_POWER_OFF, CriticalLow),
    Row(BATTERY_POWER_OFF, BATTERY_REAL_POWER_OFF, PowerOff),
    Row(BATTERY_NORMAL, BATTERY_CRITICAL_LOW, CriticalLow),
    Row(BATTERY_WARNING_LOW, BATTERY_POWER_OFF, CriticalLow),
    Row(BATTERY_CRITICAL_LOW, BATTERY_REAL_POWER_OFF, PowerOff),
    Row(BATTERY_NORMAL, BATTERY_POWER_OFF, CriticalLow),
    Row(BATTERY_WARNING_LOW, BATTERY_REAL_POWER_OFF, PowerOff),
    Row(BATTERY_NORMAL, BATTERY_REAL_POWER_OFF, PowerOff)
  ]

  // ---- Levels ----

  function Level(percent: int): int
  {
    if percent <= BATTERY_REAL_POWER_OFF then BATTERY_REAL_POWER_OFF
    else if percent <= BATTERY_POWER_OFF then BATTERY_POWER_OFF
    else if percent <= BATTERY_CRITICAL_LOW then BATTERY_CRITICAL_LOW
    else if percent <= BATTERY_WARNING_LOW then BATTERY_WARNING_LOW
    else BATTERY_NORMAL
  }

  predicate IsLevel(l: int)
  {
    l == BATTERY_NORMAL || l == BATTERY_WARNING_LOW || l == BATTERY_CRITICAL_LOW ||
    l == BATTERY_POWER_OFF || l == BATTERY_REAL_POWER_OFF
  }

  function StatusFor(percent: int, full: bool): Status
  {
    if percent <= BATTERY_POWER_OFF then Off
    else if percent <= BATTERY_CRITICAL_LOW then Critical
    else if percent <= BATTERY_WARNING_LOW then Warning
    else if percent == BATTERY_FULL && full then Full
    else Normal
  }

  /** What one sample meets outside: the status read back (None if that fails), the
      full flag, and whether publishing the capacity and the status works. */
  datatype World = World(status: Option<Status>, full: bool, capacityOk: bool, statusOk: bool)

  /** Is the sample published, as far as that is needed? */
  predicate Published(percent: int, w: World)
  {
    w.status.Some? && (w.status.value == StatusFor(percent, w.full) || w.statusOk)
  }

  /** The status a sample tries to set: what it calls for, unless that is set or the
      present one cannot be read. */
  function Set(percent: int, w: World): seq<Status>
  {
    if percent < 0 || w.status.None? || w.status.value == StatusFor(percent, w.full) then []
    else [StatusFor(percent, w.full)]
  }

  /** The action that belongs to a level that is entered. */
  function ActionFor(level: int): Action
  {
    if level == BATTERY_WARNING_LOW then WarningLow
    else if level == BATTERY_REAL_POWER_OFF then PowerOff
    else CriticalLow
  }

  /** An unknown state behaves as the highest level. */
  function Known(state: int): int
  {
    if state == BATTERY_UNKNOWN then BATTERY_NORMAL else state
  }

  predicate Descends(state: int, level: int)
  {
    level < Known(state)
  }

  /** The table has a row for every pair of a higher and a lower level, and no other,
      and its action is fixed by the lower level. */
  lemma TableHasDescents(state: int, level: int)
    requires (state == BATTERY_UNKNOWN || IsLevel(state)) && IsLevel(level)
    ensures Descends(state, level) <==>
            exists i :: 0 <= i < |TABLE| && TABLE[i].to == level && (state == BATTERY_UNKNOWN || state == TABLE[i].from)
    ensures forall i :: 0 <= i < |TABLE| && TABLE[i].to == level ==> TABLE[i].action == ActionFor(level)
  {
    assert TABLE[0].to == BATTERY_WARNING_LOW && TABLE[1].to == BATTERY_CRITICAL_LOW;
    assert TABLE[2].to == BATTERY_POWER_OFF && TABLE[3].to == BATTERY_REAL_POWER_OFF;
    assert TABLE[4].to == BATTERY_CRITICAL_LOW && TABLE[5].to == BATTERY_POWER_OFF;
    assert TABLE[6].to == BATTERY_REAL_POWER_OFF && TABLE[7].to == BATTERY_POWER_OFF;
    assert TABLE[8].to == BATTERY_REAL_POWER_OFF && TABLE[9].to == BATTERY_REAL_POWER_OFF;
  }

  // ---- One sample on values ----

  predicate Counts(percent: int, w: World)
  {
    percent >= 0 && Published(if percent > 100 then 100 else percent, w)
  }

  function After(state: int, percent: int, w: World): int
  {
    if Counts(percent, w) then Level(percent) else state
  }

  function Fired(state: int, percent: int, w: World): seq<Action>
  {
    if Counts(percent, w) && Descends(state, Level(percent)) then [ActionFor(Level(percent))] else []
  }

  /** Does the sample leave the monitor on the long interval? */
  predicate Settles(state: int, percent: int, w: World)
  {
    Counts(percent, w) &&
    (Descends(state, Level(percent)) || (state == Level(percent) && state != BATTERY_POWER_OFF))
  }

  // ---- The same in numbers ----

  lemma LevelInNumbers(p: int, q: int)
    ensures Level(p) == 100 <==> p > 15
    ensures Level(p) == 15 <==> 5 < p <= 15
    ensures Level(p) == 5 <==> 1 < p <= 5
    ensures Level(p) == 1 <==> p == 1
    ensures Level(p) == 0 <==> p <= 0
    ensures p <= q ==> Level(p) <= Level(q)
  {
  }

  /** A sample counts when it is a percentage, the present status can be read, and that
      is right already or can be set. */
  lemma CountsInNumbers(p: int, w: World)
    ensures Counts(p, w) <==>
            p >= 0 && w.status.Some? &&
            (w.statusOk ||
             match w.status.value
             case Off => p <= 1
             case Critical => 1 < p <= 5
             case Warning => 5 < p <= 15
             case Full => p >= 100 && w.full
             case Normal => p > 15 && !(p >= 100 && w.full))
  {
  }

  // ---- The monitor ----

  class BatteryMonitor {
    var state: int
    var capacity: int
    var errors: nat
    var interval: int
    var actions: seq<Action>
    var published: seq<Status> // the statuses it has tried to set

    ghost predicate Valid()
      reads this
    {
      state == BATTERY_UNKNOWN || IsLevel(state)
    }

    constructor ()
      ensures Valid() && state == BATTERY_UNKNOWN && actions == [] && errors == 0 && published == []
      ensures interval == BAT_MON_INTERVAL_MIN
    {
      state, capacity, errors, interval := BATTERY_UNKNOWN, -1, 0, BAT_MON_INTERVAL_MIN;
      actions, published := [], [];
    }

    /** The table scan, from a known or an unknown state. */
    method FindRow(level: int) returns (i: nat)
      requires Valid() && IsLevel(level)
      ensures i <= |TABLE|
      ensures i < |TABLE| <==> Descends(state, level)
      ensures i < |TABLE| ==> TABLE[i].action == ActionFor(level)
    {
      i := 0;
      while i < |TABLE| && !(TABLE[i].to == level && (state == BATTERY_UNKNOWN || state == TABLE[i].from))
        invariant i <= |TABLE|
        invariant forall j :: 0 <= j < i ==>
          !(TABLE[j].to == level && (state == BATTERY_UNKNOWN || state == TABLE[j].from))
      {
        i := i + 1;
      }
      TableHasDescents(state, level);
    }

    method Publish(status: Status, ok: bool) returns (r: int)
      modifies this`published
      ensures published == old(published) + [status]
      ensures r == if ok then 0 else -1
    {
      published := published + [status];
      r := if ok then 0 else -1;
    }

    /** Classifies a sample and publishes its status if that is not already set. */
    method PublishStatus(percent: int, status: Status, w: World) returns (level: int, r: int)
      modifies this`published
      ensures level == Level(percent)
      ensures published == old(published) +
                if status == StatusFor(percent, w.full) then [] else [StatusFor(percent, w.full)]
      ensures r == if status == StatusFor(percent, w.full) || w.statusOk then 0 else -1
    {
      r := 0;
      if percent <= BATTERY_REAL_POWER_OFF {
        level := BATTERY_REAL_POWER_OFF;
        if status != Off {
          r := Publish(Off, w.statusOk);
        }
      } else if percent <= BATTERY_POWER_OFF {
        level := BATTERY_POWER_OFF;
        if status != Off {
          r := Publish(Off, w.statusOk);
        }
      } else if percent <= BATTERY_CRITICAL_LOW {
        level := BATTERY_CRITICAL_LOW;
        if status != Critical {
          r := Publish(Critical, w.statusOk);
        }
      } else if percent <= BATTERY_WARNING_LOW {
        level := BATTERY_WARNING_LOW;
        if status != Warning {
          r := Publish(Warning, w.statusOk);
        }
      } else {
        level := BATTERY_NORMAL;
        if percent == BATTERY_FULL && w.full {
          if status != Full {
            r := Publish(Full, w.statusOk);
          }
        } else if status != Normal {
          r := Publish(Normal, w.statusOk);
        }
      }
    }

    /** Handles one capacity sample. Returns -1 to ask for an early next sample. */
    method LowbatProcess(percent: int, w: World) returns (ret: int)
      requires Valid()
      modifies this`state, this`capacity, this`actions, this`published
      ensures Valid()
      ensures percent < 0 || !Published(percent, w) ==> ret == -1 && state == old(state) && actions == old(actions)
      ensures percent >= 0 && Published(percent, w) ==>
        state == Level(percent) &&
        actions == old(actions) + (if Descends(old(state), Level(percent)) then [ActionFor(Level(percent))] else []) &&
        ret == if Descends(old(state), Level(percent)) ||
                  (old(state) == Level(percent) && state != BATTERY_POWER_OFF) then 0 else -1
      ensures capacity == if percent >= 0 && w.capacityOk then percent else old(capacity)
      ensures published == old(published) + Set(percent, w)
    {
      if percent < 0 {
        return -1;
      }
      if percent != capacity {
        if w.capacityOk {
          capacity := percent;
        }
      }
      if w.status.None? {
        return -1;
      }
      var level, r := PublishStatus(percent, w.status.value, w);
      if r < 0 {
        return -1;
      }
      if state == level && state != BATTERY_POWER_OFF {
        return 0;
      }
      var i := FindRow(level);
      if i < |TABLE| {
        actions := actions + [TABLE[i].action];
        state := level;
        return 0;
      }
      state := level;
      ret := -1;
    }

    /** The timer callback: reads a sample, bounds it and sets the next interval.
        Returns false to stop the timer. */
    method Monitor(percent: int, w: World) returns (again: bool)
      requires Valid()
      modifies this
      ensures Valid()
      ensures errors == old(errors) + (if percent < 0 then 1 else 0)
      ensures again <==> percent >= 0 || errors <= 10
      ensures state == After(old(state), percent, w)
      ensures actions == old(actions) + Fired(old(state), percent, w)
      ensures interval == if Settles(old(state), percent, w) then 30 else 2
      ensures published == old(published) + Set(if percent > 100 then 100 else percent, w)
    {
      if percent < 0 {
        interval := BAT_MON_INTERVAL_MIN;
        errors := errors + 1;
        if errors > MAX_BATTERY_ERROR {
          return false;
        }
        return true;
      }
      var bounded := if percent > 100 then 100 else percent;
      var r := LowbatProcess(bounded, w);
      interval := if r < 0 then BAT_MON_INTERVAL_MIN else BAT_MON_INTERVAL;
      again := true;
    }
  }

  // ---- Runs of samples ----

  datatype Sample = Sample(percent: int, w: World)

  function State(samples: seq<Sample>): int
  {
    if samples == [] then BATTERY_UNKNOWN
    else
      var n := |samples| - 1;
      After(State(samples[..n]), samples[n].percent, samples[n].w)
  }

  /** The actions of a whole run, in order. */
  function Trace(samples: seq<Sample>): seq<Action>
  {
    if samples == [] then []
    else
      var n := |samples| - 1;
      Trace(samples[..n]) + Fired(State(samples[..n]), samples[n].percent, samples[n].w)
  }

  /** The levels of the samples that were published. */
  function Levels(samples: seq<Sample>): seq<int>
  {
    if samples == [] then []
    else
      var n := |samples| - 1;
      Levels(samples[..n]) +
      if Counts(samples[n].percent, samples[n].w) then [Level(samples[n].percent)] else []
  }

  /** The actions of the strict descents of a level sequence that starts from `top`. */
  function Descents(top: int, levels: seq<int>): seq<Action>
    decreases |levels|
  {
    if levels == [] then []
    else (if levels[0] < top then [ActionFor(levels[0])] else []) + Descents(levels[0], levels[1..])
  }

  function Rises(top: int, levels: seq<int>): nat
    decreases |levels|
  {
    if levels == [] then 0 else (if levels[0] > top then 1 else 0) + Rises(levels[0], levels[1..])
  }

  lemma {:induction false} DescentsAppend(top: int, levels: seq<int>, l: int)
    ensures var last := if levels == [] then top else levels[|levels| - 1];
            Descents(top, levels + [l]) == Descents(top, levels) + if l < last then [ActionFor(l)] else []
    decreases |levels|
  {
    if levels == [] {
      assert [l][1..] == [];
    } else {
      var rest := levels[1..];
      DescentsAppend(levels[0], rest, l);
      assert (levels + [l])[1..] == rest + [l];
      var first := if levels[0] < top then [ActionFor(levels[0])] else [];
      var final := if l < (levels[|levels| - 1]) then [ActionFor(l)] else [];
      assert first + (Descents(levels[0], rest) + final) == (first + Descents(levels[0], rest)) + final;
    }
  }

  /** In every run, with publishing failing anywhere, the actions are exactly the
      strict descents of the published levels, started from normal; and the state
      is the last published level. A descent whose publishing fails stays pending. */
  lemma {:induction false} TraceIsDescents(samples: seq<Sample>)
    ensures Trace(samples) == Descents(BATTERY_NORMAL, Levels(samples))
    ensures State(samples) == if Levels(samples) == [] then BATTERY_UNKNOWN else Levels(samples)[|Levels(samples)| - 1]
    ensures forall l :: l in Levels(samples) ==> IsLevel(l)
  {
    if samples != [] {
      var n := |samples| - 1;
      TraceIsDescents(samples[..n]);
      if Counts(samples[n].percent, samples[n].w) {
        var before := Levels(samples[..n]);
        DescentsAppend(BATTERY_NORMAL, before, Level(samples[n].percent));
        assert before != [] ==> IsLevel(before[|before| - 1]);
      } else {
        assert Levels(samples) == Levels(samples[..n]) && Trace(samples) == Trace(samples[..n]);
      }
    }
  }

  // ---- The same over percentages ----

  /** The percentage of the last sample that counted. */
  function LastCounted(samples: seq<Sample>): Option<int>
  {
    if samples == [] then None
    else
      var n := |samples| - 1;
      if Counts(samples[n].percent, samples[n].w) then Some(samples[n].percent) else LastCounted(samples[..n])
  }

  /** The same, as the monitor takes it: full before the first. */
  function Before(samples: seq<Sample>): int
  {
    if LastCounted(samples).None? then 100 else LastCounted(samples).value
  }

  lemma {:induction false} StateIsLastCounted(samples: seq<Sample>)
    ensures State(samples) == if LastCounted(samples).None? then -1 else Level(LastCounted(samples).value)
  {
    if samples != [] {
      StateIsLastCounted(samples[..|samples| - 1]);
    }
  }

  /** The action a sample triggers, by its percentage and that of the last one that
      counted: the warning when it falls to 15 or less, the critical action when it
      falls to 5 or less or to 1, power off when it falls to 0. */
  lemma ActionsInNumbers(samples: seq<Sample>, s: Sample)
    ensures var p, top := s.percent, Before(samples);
            Trace(samples + [s]) == Trace(samples) +
              if !Counts(p, s.w) then []
              else if p <= 0 < top then [PowerOff]
              else if (p == 1 && top > 1) || (1 < p <= 5 && top > 5) then [CriticalLow]
              else if 5 < p <= 15 < top then [WarningLow]
              else []
  {
    StateIsLastCounted(samples);
    assert (samples + [s])[..|samples|] == samples;
  }

  /** The long interval is kept after a fall below 15, 5, 1 or 0, and while the sample
      stays between the same two of these, except at 1. */
  lemma IntervalInNumbers(samples: seq<Sample>, p: int, w: World)
    ensures var top, last := Before(samples), LastCounted(samples);
            Settles(State(samples), p, w) <==>
            Counts(p, w) &&
            (p <= 0 < top || p <= 1 < top || p <= 5 < top || p <= 15 < top ||
             (last.Some? && var l := last.value;
              (p <= 0 && l <= 0) || (1 < p <= 5 && 1 < l <= 5) || (5 < p <= 15 && 5 < l <= 15) || (p > 15 && l > 15)))
  {
    StateIsLastCounted(samples);
  }

  // ---- How many ----

  function Rank(level: int): nat
  {
    if level == BATTERY_NORMAL then 4
    else if level == BATTERY_WARNING_LOW then 3
    else if level == BATTERY_CRITICAL_LOW then 2
    else if level == BATTERY_POWER_OFF then 1
    else 0
  }

  lemma {:induction false} DescentsBounded(top: int, levels: seq<int>)
    requires IsLevel(top) && forall l :: l in levels ==> IsLevel(l)
    ensures |Descents(top, levels)| <= Rank(top) + 4 * Rises(top, levels)
    decreases |levels|
  {
    if levels != [] {
      assert IsLevel(levels[0]);
      DescentsBounded(levels[0], levels[1..]);
    }
  }

  /** At most four actions, and four more for every rise of the published level. */
  lemma FewActions(samples: seq<Sample>)
    ensures |Trace(samples)| <= 4 + 4 * Rises(BATTERY_NORMAL, Levels(samples))
  {
    TraceIsDescents(samples);
    DescentsBounded(BATTERY_NORMAL, Levels(samples));
  }
}
