/** What every interleaving of calls, dispatches, forks and child exits keeps. */
module RunQueueRuns {
  import opened Wrappers
  import opened RunQueue

  // ---- The invariant ----

  /** An entry that has run waits for something that is sure to delete it, or is
      bound to a process that is not a child. */
  predicate Settled(s: Sys, foreign: set<int>, e: Entry)
  {
    match e.state
    case Init => false
    case Done => e.pid == -1 && ClearMsg(-1) in s.pipe && e.id !in s.adopted
    case Running =>
      e.pid > 0 && (e.pid in s.live || ClearMsg(e.pid) in s.pipe || e.pid in foreign) &&
      (e.pid in foreign <==> e.id in s.adopted)
  }

  /** The phase of a batch that runs the ids below `Last(s.bounds)` downwards to
      `lo`: those in [lo, hi) are still to come and, when `busy`, `hi` is executing.
      Between dispatches lo == hi == Last(s.bounds). */
  datatype Phase = Phase(lo: nat, hi: nat, busy: bool)

  predicate EntryOk(s: Sys, foreign: set<int>, ph: Phase, e: Entry)
  {
    if e.id >= Last(s.bounds) then e.state == Init && e.pid == 0 && e.id !in s.adopted && RunMsg in s.pipe
    else if ph.lo <= e.id < ph.hi then e.state == Init && e.pid == 0 && e.id !in s.adopted
    else if ph.busy && e.id == ph.hi then e.state == Running && e.pid == 0 && e.id !in s.adopted
    else Settled(s, foreign, e)
  }

  /** The newest entries are consecutive from `next - 1` down to `lo`; older ones follow. */
  predicate Ordered(s: Sys, lo: nat)
  {
    && lo <= s.next && s.next - lo <= |s.queue|
    && (forall i :: 0 <= i < s.next - lo ==> s.queue[i].id == s.next - 1 - i)
    && (forall i :: s.next - lo <= i < |s.queue| ==> s.queue[i].id < lo)
    && (forall i, j :: 0 <= i < j < |s.queue| ==> s.queue[j].id < s.queue[i].id)
  }

  predicate PipeOk(s: Sys, foreign: set<int>)
  {
    && (forall p :: p in s.live ==> p > 0 && p !in foreign)
    && (forall i :: 0 <= i < |s.pipe| && s.pipe[i].ClearMsg? && s.pipe[i].pid != -1 ==>
          s.pipe[i].pid > 0 && s.pipe[i].pid !in s.live && s.pipe[i].pid !in foreign)
  }

  predicate InQueue(q: seq<Entry>, id: nat)
  {
    exists i :: 0 <= i < |q| && q[i].id == id
  }

  ghost predicate Inv(s: Sys, foreign: set<int>, ph: Phase)
  {
    && ph.lo <= ph.hi <= Last(s.bounds) <= s.next
    && (ph.busy ==> ph.hi < Last(s.bounds))
    && Ordered(s, ph.lo)
    && PipeOk(s, foreign)
    && (forall id :: id in s.adopted ==> id < Last(s.bounds) && InQueue(s.queue, id))
    && (forall i :: 0 <= i < |s.queue| ==> EntryOk(s, foreign, ph, s.queue[i]))
  }

  function Idle(s: Sys): Phase
  {
    Phase(Last(s.bounds), Last(s.bounds), false)
  }

  // ---- Every step keeps it ----

  lemma PushKeepsOrder(s: Sys, lo: nat, e: Entry)
    requires Ordered(s, lo) && e.id == s.next
    ensures Ordered(s.(queue := [e] + s.queue, accepted := s.accepted + [e.args]), lo)
  {
  }

  lemma PushKeepsMembers(q: seq<Entry>, e: Entry, id: nat)
    requires InQueue(q, id)
    ensures InQueue([e] + q, id)
  {
    var i :| 0 <= i < |q| && q[i].id == id;
    assert ([e] + q)[i + 1].id == id;
  }

  /** A longer pipe and a new entry in front leave the old entries as they were. */
  lemma CallKeepsEntries(s: Sys, foreign: set<int>, ph: Phase, e: Env, t: Sys)
    requires Inv(s, foreign, ph) && e.Call? && t == EnvStep(s, foreign, e)
    ensures forall i :: 0 <= i < |t.queue| ==> EntryOk(t, foreign, ph, t.queue[i])
  {
    assert forall m :: m in s.pipe ==> m in t.pipe;
    assert RunMsg == t.pipe[|s.pipe|];
    forall i | 0 <= i < |s.queue| ensures EntryOk(t, foreign, ph, s.queue[i]) {
      assert EntryOk(s, foreign, ph, s.queue[i]);
    }
    if e.accepted {
      assert EntryOk(t, foreign, ph, t.queue[0]);
    }
  }

  lemma CallKeeps(s: Sys, foreign: set<int>, ph: Phase, e: Env)
    requires Inv(s, foreign, ph) && e.Call?
    ensures Inv(EnvStep(s, foreign, e), foreign, ph)
  {
    var t := EnvStep(s, foreign, e);
    CallKeepsEntries(s, foreign, ph, e, t);
    if e.accepted {
      PushKeepsOrder(s, ph.lo, t.queue[0]);
      forall id | id in s.adopted ensures InQueue(t.queue, id) {
        PushKeepsMembers(s.queue, t.queue[0], id);
      }
    }
  }

  lemma ForkKeeps(s: Sys, foreign: set<int>, ph: Phase, e: Env)
    requires Inv(s, foreign, ph) && e.Fork?
    ensures Inv(EnvStep(s, foreign, e), foreign, ph)
  {
  }

  lemma ChildExitKeeps(s: Sys, foreign: set<int>, ph: Phase, e: Env)
    requires Inv(s, foreign, ph) && e.ChildExit?
    ensures Inv(EnvStep(s, foreign, e), foreign, ph)
  {
  }

  lemma EnvStepKeeps(s: Sys, foreign: set<int>, ph: Phase, e: Env)
    requires Inv(s, foreign, ph)
    ensures Inv(EnvStep(s, foreign, e), foreign, ph)
  {
    match e
    case Call(_, _) => CallKeeps(s, foreign, ph, e);
    case Fork(_) => ForkKeeps(s, foreign, ph, e);
    case ChildExit(_) => ChildExitKeeps(s, foreign, ph, e);
  }

  lemma {:induction false} EnvStepsKeep(s: Sys, foreign: set<int>, ph: Phase, es: seq<Env>)
    requires Inv(s, foreign, ph)
    ensures Inv(EnvSteps(s, foreign, es), foreign, ph)
    decreases |es|
  {
    if es != [] {
      EnvStepKeeps(s, foreign, ph, es[0]);
      EnvStepsKeep(EnvStep(s, foreign, es[0]), foreign, ph, es[1..]);
    }
  }

  /** The outside world neither runs nor deletes entries. */
  lemma {:induction false} HistoryKept(s: Sys, foreign: set<int>, es: seq<Env>)
    ensures var t := EnvSteps(s, foreign, es);
            t.log == s.log && t.bounds == s.bounds && t.removed == s.removed && t.released == s.released
    decreases |es|
  {
    if es != [] {
      HistoryKept(EnvStep(s, foreign, es[0]), foreign, es[1..]);
    }
  }

  lemma UpdateKeepsIds(q: seq<Entry>, id: nat, state: State, pid: int, other: nat)
    ensures InQueue(Update(q, id, state, pid), other) == InQueue(q, other)
  {
  }

  /** The entry the batch reaches next becomes the executing one. */
  lemma BeginKeeps(s: Sys, foreign: set<int>, ph: Phase)
    requires Inv(s, foreign, ph) && !ph.busy && ph.lo < ph.hi
    ensures Inv(Begin(s, ph.hi - 1), foreign, Phase(ph.lo, ph.hi - 1, true))
    ensures Begin(s, ph.hi - 1).log == s.log + [ph.hi - 1]
    ensures Begin(s, ph.hi - 1).bounds == s.bounds
  {
    var id, t := ph.hi - 1, Begin(s, ph.hi - 1);
    forall other | other in t.adopted ensures InQueue(t.queue, other) {
      UpdateKeepsIds(s.queue, id, Running, 0, other);
    }
    forall i | 0 <= i < |t.queue| ensures EntryOk(t, foreign, Phase(ph.lo, id, true), t.queue[i]) {
      assert EntryOk(s, foreign, ph, s.queue[i]);
    }
  }

  lemma FinishKeeps(s: Sys, foreign: set<int>, ph: Phase)
    requires Inv(s, foreign, ph) && ph.busy
    ensures Inv(Finish(s, ph.hi), foreign, ph.(busy := false))
  {
    var t := Finish(s, ph.hi);
    assert forall m :: m in s.pipe ==> m in t.pipe;
    assert t.pipe[|s.pipe|] == ClearMsg(-1);
    forall other | other in t.adopted ensures InQueue(t.queue, other) {
      UpdateKeepsIds(s.queue, ph.hi, Done, -1, other);
    }
    forall i | 0 <= i < |t.queue| ensures EntryOk(t, foreign, ph.(busy := false), t.queue[i]) {
      assert EntryOk(s, foreign, ph, s.queue[i]);
    }
  }

  /** Binding the entry is safe even when the child has died since the lookup,
      because its CLEAR message is then still in the pipe. */
  lemma AssignKeeps(s: Sys, foreign: set<int>, ph: Phase, pid: int)
    requires Inv(s, foreign, ph) && ph.busy && pid > 0
    requires pid in s.live || ClearMsg(pid) in s.pipe || pid in foreign
    ensures Inv(Assign(s, foreign, ph.hi, pid), foreign, ph.(busy := false))
  {
    var t := Assign(s, foreign, ph.hi, pid);
    assert InQueue(s.queue, ph.hi) by {
      assert s.queue[s.next - 1 - ph.hi].id == ph.hi;
    }
    forall other | other in t.adopted ensures InQueue(t.queue, other) {
      UpdateKeepsIds(s.queue, ph.hi, Running, pid, other);
    }
    forall i | 0 <= i < |t.queue| ensures EntryOk(t, foreign, ph.(busy := false), t.queue[i]) {
      assert EntryOk(s, foreign, ph, s.queue[i]);
    }
  }

  /** A child found by the lookup is later either alive or announced dead. */
  lemma {:induction false} ChildIsTracked(s: Sys, foreign: set<int>, es: seq<Env>, pid: int)
    requires pid in s.live || ClearMsg(pid) in s.pipe
    ensures pid in EnvSteps(s, foreign, es).live || ClearMsg(pid) in EnvSteps(s, foreign, es).pipe
    decreases |es|
  {
    if es != [] {
      var t := EnvStep(s, foreign, es[0]);
      assert forall m :: m in s.pipe ==> m in t.pipe;
      if es[0].ChildExit? && es[0].pid in s.live {
        assert t.pipe[|s.pipe|] == ClearMsg(es[0].pid);
      }
      ChildIsTracked(t, foreign, es[1..], pid);
    }
  }

  /** After the lookup the entry is bound to the process found, or finished. */
  lemma SettleKeeps(looked: Sys, foreign: set<int>, ph: Phase, sc: Script, settled: Sys, t: Sys)
    requires Inv(looked, foreign, ph) && ph.busy
    requires settled == EnvSteps(looked, foreign, sc.afterAccess)
    requires t == if Accessible(looked, foreign, sc.ret) then Assign(settled, foreign, ph.hi, sc.ret)
                  else Finish(settled, ph.hi)
    ensures Inv(t, foreign, ph.(busy := false))
  {
    EnvStepsKeep(looked, foreign, ph, sc.afterAccess);
    if Accessible(looked, foreign, sc.ret) {
      if sc.ret in looked.live {
        ChildIsTracked(looked, foreign, sc.afterAccess, sc.ret);
      }
      AssignKeeps(settled, foreign, ph, sc.ret);
    } else {
      FinishKeeps(settled, foreign, ph);
    }
  }

  /** The invariant up to the lookup. */
  lemma LookKeeps(s: Sys, foreign: set<int>, ph: Phase, sc: Script, begun: Sys, looked: Sys)
    requires Inv(s, foreign, ph) && !ph.busy && ph.lo < ph.hi && begun == Begin(s, ph.hi - 1)
    requires looked == EnvSteps(EnvSteps(begun, foreign, sc.during), foreign, sc.beforeAccess)
    ensures Inv(looked, foreign, Phase(ph.lo, ph.hi - 1, true))
  {
    var now := Phase(ph.lo, ph.hi - 1, true);
    BeginKeeps(s, foreign, ph);
    EnvStepsKeep(begun, foreign, now, sc.during);
    EnvStepsKeep(EnvSteps(begun, foreign, sc.during), foreign, now, sc.beforeAccess);
  }

  lemma RunEntryKeeps(s: Sys, foreign: set<int>, ph: Phase, id: nat, sc: Script, after: Phase, t: Sys)
    requires Inv(s, foreign, ph) && !ph.busy && ph.lo < ph.hi
    requires id == ph.hi - 1 && after == Phase(ph.lo, id, false)
    requires t == RunEntry(s, foreign, id, sc)
    ensures Inv(t, foreign, after)
  {
    var begun := Begin(s, id);
    var looked := EnvSteps(EnvSteps(begun, foreign, sc.during), foreign, sc.beforeAccess);
    LookKeeps(s, foreign, ph, sc, begun, looked);
    SettleKeeps(looked, foreign, Phase(ph.lo, id, true), sc, EnvSteps(looked, foreign, sc.afterAccess), t);
  }

  lemma RunEntryLogs(s: Sys, foreign: set<int>, id: nat, sc: Script, t: Sys)
    requires t == RunEntry(s, foreign, id, sc)
    ensures t.log == s.log + [id] && t.bounds == s.bounds
  {
    var done := EnvSteps(Begin(s, id), foreign, sc.during);
    var looked := EnvSteps(done, foreign, sc.beforeAccess);
    HistoryKept(Begin(s, id), foreign, sc.during);
    HistoryKept(done, foreign, sc.beforeAccess);
    HistoryKept(looked, foreign, sc.afterAccess);
  }

  lemma {:induction false} InitIdsOfPrefix(q: seq<Entry>, lo: nat, hi: nat)
    requires lo <= hi && hi - lo <= |q|
    requires forall i :: 0 <= i < hi - lo ==> q[i].id == hi - 1 - i && q[i].state == Init
    requires forall i :: hi - lo <= i < |q| ==> q[i].state != Init
    ensures InitIds(q) == Down(lo, hi)
    decreases |q|
  {
    if q != [] {
      InitIdsOfPrefix(q[1..], lo, if lo < hi then hi - 1 else hi);
    }
  }

  lemma {:induction false} DownLength(lo: nat, hi: nat)
    requires lo <= hi
    ensures |Down(lo, hi)| == hi - lo
    decreases hi
  {
    if lo < hi {
      DownLength(lo, hi - 1);
    }
  }

  lemma {:induction false} DownAt(lo: nat, hi: nat, i: nat)
    requires lo <= hi && i < hi - lo
    ensures |Down(lo, hi)| == hi - lo && Down(lo, hi)[i] == hi - 1 - i
    decreases hi
  {
    if hi - 1 > lo {
      DownAt(lo, hi - 1, if i == 0 then 0 else i - 1);
    }
  }

  /** A batch runs the entries it found waiting, newest first. */
  lemma {:induction false} BatchKeeps(s: Sys, foreign: set<int>, from: Phase, ids: seq<nat>,
                                      scripts: seq<Script>, n: nat, to: Phase, t: Sys)
    requires Inv(s, foreign, from) && !from.busy
    requires n <= |ids| && from.lo + |ids| == from.hi && to == Phase(from.lo, from.hi - n, false)
    requires forall i :: 0 <= i < |ids| ==> ids[i] == from.hi - 1 - i
    requires t == RunBatch(s, foreign, ids, scripts, n)
    ensures Inv(t, foreign, to)
    decreases n
  {
    if n > 0 {
      var u, reached := RunBatch(s, foreign, ids, scripts, n - 1), Phase(from.lo, from.hi - n + 1, false);
      BatchKeeps(s, foreign, from, ids, scripts, n - 1, reached, u);
      RunEntryKeeps(u, foreign, reached, ids[n - 1], ScriptAt(scripts, n - 1), to, t);
    } else {
      assert to == from;
    }
  }

  lemma {:induction false} BatchLogs(s: Sys, foreign: set<int>, ids: seq<nat>, scripts: seq<Script>, n: nat, t: Sys)
    requires n <= |ids| && t == RunBatch(s, foreign, ids, scripts, n)
    ensures t.log == s.log + ids[..n] && t.bounds == s.bounds
    decreases n
  {
    if n > 0 {
      var u := RunBatch(s, foreign, ids, scripts, n - 1);
      BatchLogs(s, foreign, ids, scripts, n - 1, u);
      RunEntryLogs(u, foreign, ids[n - 1], ScriptAt(scripts, n - 1), t);
      assert ids[..n] == ids[..n - 1] + [ids[n - 1]];
    }
  }

  /** Between dispatches the entries still INIT are those accepted since the last RUN. */
  lemma WaitingIds(s: Sys, foreign: set<int>)
    requires Inv(s, foreign, Idle(s))
    ensures InitIds(s.queue) == Down(Last(s.bounds), s.next)
  {
    forall i | 0 <= i < |s.queue| ensures i < s.next - Last(s.bounds) <==> s.queue[i].state == Init {
      assert EntryOk(s, foreign, Idle(s), s.queue[i]);
    }
    InitIdsOfPrefix(s.queue, Last(s.bounds), s.next);
  }

  // ---- Dispatching ----

  /** Reading RUN turns every entry accepted since the last RUN into batch work. */
  lemma BatchStarts(s: Sys, foreign: set<int>)
    requires Inv(s, foreign, Idle(s)) && s.pipe != [] && s.pipe[0].RunMsg?
    ensures Inv(s.(pipe := s.pipe[1..], bounds := s.bounds + [s.next]), foreign,
                Phase(Last(s.bounds), s.next, false))
  {
  }

  lemma BatchEnds(t: Sys, foreign: set<int>, lo: nat)
    requires Inv(t, foreign, Phase(lo, lo, false))
    ensures Inv(t, foreign, Idle(t))
  {
  }

  lemma RunDispatchKeeps(s: Sys, foreign: set<int>, scripts: seq<Script>)
    requires Inv(s, foreign, Idle(s)) && s.pipe != [] && s.pipe[0].RunMsg?
    ensures var t := Dispatch(s, foreign, scripts);
            && t.bounds == s.bounds + [s.next]
            && t.log == s.log + Down(Last(s.bounds), s.next)
            && Inv(t, foreign, Idle(t))
  {
    var lo := Last(s.bounds);
    var t := s.(pipe := s.pipe[1..], bounds := s.bounds + [s.next]);
    WaitingIds(s, foreign);
    var ids := Down(lo, s.next);
    BatchStarts(s, foreign);
    DownLength(lo, s.next);
    forall i | 0 <= i < s.next - lo ensures ids[i] == s.next - 1 - i {
      DownAt(lo, s.next, i);
    }
    var done := RunBatch(t, foreign, ids, scripts, |ids|);
    BatchKeeps(t, foreign, Phase(lo, s.next, false), ids, scripts, |ids|, Phase(lo, lo, false), done);
    BatchLogs(t, foreign, ids, scripts, |ids|, done);
    BatchEnds(done, foreign, lo);
    assert ids[..|ids|] == ids;
  }

  predicate NewestFirst(q: seq<Entry>)
  {
    forall i, j :: 0 <= i < j < |q| ==> q[j].id < q[i].id
  }

  lemma {:induction false} FilterKeepsOrder(q: seq<Entry>, pid: int)
    requires NewestFirst(q)
    ensures NewestFirst(ByPid(q, pid, false))
  {
    if q != [] {
      FilterKeepsOrder(q[1..], pid);
      var rest := ByPid(q[1..], pid, false);
      forall j | 0 <= j < |rest| ensures rest[j].id < q[0].id {
        assert rest[j] in q[1..];
      }
    }
  }

  lemma {:induction false} FilterSplits(q: seq<Entry>, pid: int, n: nat)
    requires n <= |q| && forall i :: 0 <= i < n ==> q[i].pid != pid
    ensures ByPid(q, pid, false) == q[..n] + ByPid(q[n..], pid, false)
    decreases n
  {
    if n == 0 {
      assert q[0..] == q;
    } else {
      var rest, tail := q[1..], q[n..];
      assert rest[n - 1..] == tail && q[..n] == [q[0]] + rest[..n - 1];
      FilterSplits(rest, pid, n - 1);
      Regroup([q[0]], rest[..n - 1], ByPid(tail, pid, false));
    }
  }

  /** Deleting finished entries leaves the consecutive front alone. */
  lemma FilterKeepsOrdered(s: Sys, lo: nat, pid: int)
    requires Ordered(s, lo)
    requires forall i :: 0 <= i < s.next - lo ==> s.queue[i].pid != pid
    ensures Ordered(s.(queue := ByPid(s.queue, pid, false)), lo)
  {
    var n := s.next - lo;
    FilterKeepsOrder(s.queue, pid);
    FilterSplits(s.queue, pid, n);
    var rest := ByPid(s.queue[n..], pid, false);
    forall i | 0 <= i < |rest| ensures rest[i].id < lo {
      assert rest[i] in s.queue[n..];
    }
  }

  lemma QueuedIsOk(s: Sys, foreign: set<int>, e: Entry)
    requires Inv(s, foreign, Idle(s)) && e in s.queue
    ensures EntryOk(s, foreign, Idle(s), e)
  {
  }

  lemma ClearKeepsEntries(s: Sys, foreign: set<int>, p: int, t: Sys)
    requires Inv(s, foreign, Idle(s)) && s.pipe != [] && s.pipe[0] == ClearMsg(p)
    requires t == Clear(s.(pipe := s.pipe[1..]), p)
    ensures forall e :: e in t.queue ==> EntryOk(t, foreign, Idle(s), e)
  {
  }

  lemma ClearKeepsAdopted(s: Sys, foreign: set<int>, p: int)
    requires Inv(s, foreign, Idle(s)) && s.pipe != [] && s.pipe[0] == ClearMsg(p)
    ensures forall id :: id in s.adopted ==> InQueue(ByPid(s.queue, p, false), id)
  {
  }

  lemma ClearDispatchKeeps(s: Sys, foreign: set<int>, scripts: seq<Script>)
    requires Inv(s, foreign, Idle(s)) && s.pipe != [] && s.pipe[0].ClearMsg?
    ensures Inv(Dispatch(s, foreign, scripts), foreign, Idle(s))
    ensures Dispatch(s, foreign, scripts).bounds == s.bounds
  {
    var p, t := s.pipe[0].pid, Dispatch(s, foreign, scripts);
    forall i | 0 <= i < s.next - Last(s.bounds) ensures s.queue[i].pid != p {
      assert EntryOk(s, foreign, Idle(s), s.queue[i]);
    }
    FilterKeepsOrdered(s, Last(s.bounds), p);
    ClearKeepsEntries(s, foreign, p, t);
    ClearKeepsAdopted(s, foreign, p);
  }

  lemma StepKeeps(s: Sys, foreign: set<int>, e: Event)
    requires Inv(s, foreign, Idle(s))
    ensures Inv(Step(s, foreign, e), foreign, Idle(Step(s, foreign, e)))
  {
    match e
    case Outside(env) => EnvStepKeeps(s, foreign, Idle(s), env);
    case Dispatched(scripts) =>
      if s.pipe != [] {
        match s.pipe[0]
        case RunMsg => RunDispatchKeeps(s, foreign, scripts);
        case ClearMsg(_) => ClearDispatchKeeps(s, foreign, scripts);
      }
  }

  /** The protocol invariant holds in every run. */
  lemma {:induction false} NoLostCompletion(foreign: set<int>, events: seq<Event>)
    ensures Inv(Run(START, foreign, events), foreign, Idle(Run(START, foreign, events)))
  {
    if events != [] {
      NoLostCompletion(foreign, events[..|events| - 1]);
      StepKeeps(Run(START, foreign, events[..|events| - 1]), foreign, events[|events| - 1]);
    }
  }

  // ---- Quiescence ----

  predicate Quiet(s: Sys)
  {
    s.pipe == [] && s.live == {}
  }

  /** With an empty pipe and no live child, exactly the entries whose action named
      a process that is not a child of the server are left. */
  lemma QuietQueue(foreign: set<int>, events: seq<Event>)
    requires Quiet(Run(START, foreign, events))
    ensures var s := Run(START, foreign, events);
            && (forall i :: 0 <= i < |s.queue| ==> s.queue[i].id in s.adopted)
            && (forall id :: id in s.adopted ==> InQueue(s.queue, id))
            && (s.queue == [] <==> s.adopted == {})
            && (foreign == {} ==> s.queue == [])
  {
    NoLostCompletion(foreign, events);
    var s := Run(START, foreign, events);
    forall i | 0 <= i < |s.queue| ensures s.queue[i].id in s.adopted {
      assert EntryOk(s, foreign, Idle(s), s.queue[i]);
    }
    if s.queue != [] {
      assert s.queue[0].id in s.adopted;
      assert EntryOk(s, foreign, Idle(s), s.queue[0]);
    }
  }
}
