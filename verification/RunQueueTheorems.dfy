/** Order of execution, conservation, safety of deletion and draining. */
module RunQueueTheorems {
  import opened Wrappers
  import opened RunQueue
  import opened RunQueueRuns

  // ---- Nobody waits for nothing ----

  /** In every run, an entry that waits has a RUN message to wait for, a finished one
      its CLEAR(-1), and a running one a live child, a CLEAR for it, or a process
      that is not a child. */
  lemma EveryEntryIsAwaited(foreign: set<int>, events: seq<Event>, e: Entry)
    requires e in Run(START, foreign, events).queue
    ensures var s := Run(START, foreign, events);
            match e.state
            case Init => e.pid == 0 && RunMsg in s.pipe
            case Done => e.pid == -1 && ClearMsg(-1) in s.pipe
            case Running => e.pid > 0 && (e.pid in s.live || ClearMsg(e.pid) in s.pipe || e.pid in foreign)
  {
    NoLostCompletion(foreign, events);
    QueuedIsOk(Run(START, foreign, events), foreign, e);
  }

  // ---- Exactly once, in batch order ----

  predicate Nondecreasing(bounds: seq<nat>)
  {
    forall i, j :: 0 <= i < j < |bounds| ==> bounds[i] <= bounds[j]
  }

  lemma BlocksAppend(bounds: seq<nat>, n: nat)
    requires Nondecreasing(bounds) && Last(bounds) <= n
    ensures Nondecreasing(bounds + [n])
    ensures Blocks(bounds + [n]) == Blocks(bounds) + Down(Last(bounds), n)
  {
  }

  lemma StepLogs(s: Sys, foreign: set<int>, e: Event)
    requires Inv(s, foreign, Idle(s))
    requires s.log == Blocks(s.bounds) && Nondecreasing(s.bounds)
    ensures var t := Step(s, foreign, e);
            t.log == Blocks(t.bounds) && Nondecreasing(t.bounds)
  {
    if e.Dispatched? && s.pipe != [] && s.pipe[0].RunMsg? {
      RunDispatchKeeps(s, foreign, e.scripts);
      BlocksAppend(s.bounds, s.next);
    }
  }

  /** The ids run so far are consecutive blocks, one per RUN dispatch, each run
      newest first. */
  lemma {:induction false} RunsInBlocks(foreign: set<int>, events: seq<Event>)
    ensures var s := Run(START, foreign, events);
            s.log == Blocks(s.bounds) && Nondecreasing(s.bounds)
  {
    if events != [] {
      RunsInBlocks(foreign, events[..|events| - 1]);
      NoLostCompletion(foreign, events[..|events| - 1]);
      StepLogs(Run(START, foreign, events[..|events| - 1]), foreign, events[|events| - 1]);
    }
  }

  lemma ConsCounts(x: nat, rest: seq<nat>, id: nat)
    ensures multiset([x] + rest)[id] == multiset(rest)[id] + if x == id then 1 else 0
  {
  }

  lemma {:induction false} DownCounts(lo: nat, hi: nat, id: nat)
    ensures multiset(Down(lo, hi))[id] == if lo <= id < hi then 1 else 0
    decreases hi
  {
    if lo < hi {
      DownCounts(lo, hi - 1, id);
      assert Down(lo, hi) == [hi - 1] + Down(lo, hi - 1);
      ConsCounts(hi - 1, Down(lo, hi - 1), id);
    }
  }

  lemma {:induction false} BlocksCount(bounds: seq<nat>, id: nat)
    requires Nondecreasing(bounds)
    ensures multiset(Blocks(bounds))[id] == if id < Last(bounds) then 1 else 0
  {
    if bounds != [] {
      var init := bounds[..|bounds| - 1];
      BlocksCount(init, id);
      DownCounts(Last(init), Last(bounds), id);
    }
  }

  /** An accepted call runs at most once ever, and exactly once as soon as no RUN
      message is pending. */
  lemma ExactlyOnce(foreign: set<int>, events: seq<Event>, id: nat)
    ensures var s := Run(START, foreign, events);
            && multiset(s.log)[id] <= (if id < s.next then 1 else 0)
            && (RunMsg !in s.pipe ==> multiset(s.log)[id] == if id < s.next then 1 else 0)
  {
    var s := Run(START, foreign, events);
    RunsInBlocks(foreign, events);
    NoLostCompletion(foreign, events);
    BlocksCount(s.bounds, id);
    if Last(s.bounds) < s.next {
      assert EntryOk(s, foreign, Idle(s), s.queue[0]);
    }
  }

  /** Were the calls `a` and `b` waiting at the same RUN dispatch? */
  predicate SameBatch(bounds: seq<nat>, a: nat, b: nat)
  {
    forall i :: 0 <= i < |bounds| ==> (a < bounds[i] <==> b < bounds[i])
  }

  lemma BlockMembers(bounds: seq<nat>, i: nat)
    requires Nondecreasing(bounds) && i < |Blocks(bounds)|
    ensures Blocks(bounds)[i] < Last(bounds)
  {
    BlocksCount(bounds, Blocks(bounds)[i]);
    assert Blocks(bounds)[i] in multiset(Blocks(bounds));
  }

  lemma LatestTogether(bounds: seq<nat>, a: nat, b: nat)
    requires Nondecreasing(bounds) && bounds != [] && Last(bounds[..|bounds| - 1]) <= a < Last(bounds)
    ensures SameBatch(bounds, a, b) <==> Last(bounds[..|bounds| - 1]) <= b < Last(bounds)
  {
    var init := bounds[..|bounds| - 1];
    if init != [] {
      assert bounds[|init| - 1] == Last(init);
    }
  }

  /** Of two calls, one of the latest block and one run before it. */
  lemma LatestBlock(bounds: seq<nat>, i: nat, j: nat)
    requires Nondecreasing(bounds) && bounds != []
    requires |Blocks(bounds[..|bounds| - 1])| <= j && i < j < |Blocks(bounds)|
    ensures var l := Blocks(bounds);
            l[i] < Last(bounds) && l[j] < Last(bounds) &&
            if SameBatch(bounds, l[i], l[j]) then l[i] > l[j] else l[i] < l[j]
  {
    var init, lo, hi := bounds[..|bounds| - 1], Last(bounds[..|bounds| - 1]), Last(bounds);
    var k, l := |Blocks(init)|, Blocks(bounds);
    assert l == Blocks(init) + Down(lo, hi);
    DownLength(lo, hi);
    DownAt(lo, hi, j - k);
    if i < k {
      BlockMembers(init, i);
      assert l[i] == Blocks(init)[i];
    } else {
      DownAt(lo, hi, i - k);
    }
    LatestTogether(bounds, l[j], l[i]);
  }

  lemma {:induction false} BlocksOrder(bounds: seq<nat>, i: nat, j: nat)
    requires Nondecreasing(bounds) && i < j < |Blocks(bounds)|
    ensures var l := Blocks(bounds);
            l[i] < Last(bounds) && l[j] < Last(bounds) &&
            if SameBatch(bounds, l[i], l[j]) then l[i] > l[j] else l[i] < l[j]
  {
    var init := bounds[..|bounds| - 1];
    if j < |Blocks(init)| {
      BlocksOrder(init, i, j);
      assert Last(init) <= Last(bounds);
    } else {
      LatestBlock(bounds, i, j);
    }
  }

  /** Of two calls that have run, the newer runs first when both waited at one RUN
      dispatch, and the older runs first otherwise. */
  lemma BatchOrder(foreign: set<int>, events: seq<Event>, i: nat, j: nat)
    requires i < j < |Run(START, foreign, events).log|
    ensures var s := Run(START, foreign, events);
            if SameBatch(s.bounds, s.log[i], s.log[j]) then s.log[i] > s.log[j] else s.log[i] < s.log[j]
  {
    RunsInBlocks(foreign, events);
    BlocksOrder(Run(START, foreign, events).bounds, i, j);
  }

  // ---- Conservation ----

  function Ids(q: seq<Entry>): seq<nat>
  {
    seq(|q|, i requires 0 <= i < |q| => q[i].id)
  }

  /** Every accepted call is in the queue or deleted, once in all. */
  predicate Accounted(s: Sys)
  {
    multiset(Ids(s.queue)) + multiset(Ids(s.removed)) == multiset(Down(0, s.next))
  }

  /** An entry keeps the arguments of its call. */
  predicate ArgsKept(s: Sys)
  {
    forall e :: e in s.queue + s.removed ==> e.id < s.next && e.args == s.accepted[e.id]
  }

  /** Nothing is deleted before it has run, and the strings freed are those of the
      deleted entries, in order, each once. */
  predicate FreedOnce(s: Sys)
  {
    s.released == Owned(s.removed) && forall e :: e in s.removed ==> e.state != Init
  }

  predicate Conserved(s: Sys)
  {
    Accounted(s) && ArgsKept(s) && FreedOnce(s)
  }

  lemma ConsMultiset(x: nat, rest: seq<nat>)
    ensures multiset([x] + rest) == multiset{x} + multiset(rest)
  {
  }

  lemma IdsOfCons(e: Entry, q: seq<Entry>)
    ensures multiset(Ids([e] + q)) == multiset{e.id} + multiset(Ids(q))
  {
    assert Ids([e] + q) == [e.id] + Ids(q);
    ConsMultiset(e.id, Ids(q));
  }

  lemma CallAccounted(s: Sys, foreign: set<int>, args: seq<Option<int>>)
    requires Accounted(s)
    ensures Accounted(EnvStep(s, foreign, Call(true, args)))
  {
    IdsOfCons(Entry(s.next, Init, 0, args), s.queue);
    assert Down(0, s.next + 1) == [s.next] + Down(0, s.next);
    ConsMultiset(s.next, Down(0, s.next));
  }

  lemma CallKeepsArgs(s: Sys, foreign: set<int>, args: seq<Option<int>>)
    requires ArgsKept(s)
    ensures ArgsKept(EnvStep(s, foreign, Call(true, args)))
  {
  }

  lemma EnvStepConserves(s: Sys, foreign: set<int>, e: Env)
    requires Conserved(s)
    ensures Conserved(EnvStep(s, foreign, e))
  {
    if e.Call? && e.accepted {
      CallAccounted(s, foreign, e.args);
      CallKeepsArgs(s, foreign, e.args);
    }
  }

  lemma {:induction false} EnvStepsConserve(s: Sys, foreign: set<int>, es: seq<Env>)
    requires Conserved(s)
    ensures Conserved(EnvSteps(s, foreign, es))
    decreases |es|
  {
    if es != [] {
      EnvStepConserves(s, foreign, es[0]);
      EnvStepsConserve(EnvStep(s, foreign, es[0]), foreign, es[1..]);
    }
  }

  lemma UpdateConserves(s: Sys, t: Sys, id: nat, state: State, pid: int)
    requires Conserved(s)
    requires t.queue == Update(s.queue, id, state, pid)
    requires t.accepted == s.accepted && t.removed == s.removed && t.released == s.released
    ensures Conserved(t)
  {
    assert Ids(t.queue) == Ids(s.queue);
    forall e | e in t.queue + t.removed ensures e.id < s.next && e.args == s.accepted[e.id] {
      if i :| 0 <= i < |t.queue| && t.queue[i] == e {
        assert s.queue[i] in s.queue + s.removed;
      } else {
        assert e in s.queue + s.removed;
      }
    }
  }

  lemma RunEntryConserves(s: Sys, foreign: set<int>, id: nat, sc: Script, t: Sys)
    requires Conserved(s) && t == RunEntry(s, foreign, id, sc)
    ensures Conserved(t)
  {
    var begun := Begin(s, id);
    UpdateConserves(s, begun, id, Running, 0);
    EnvStepsConserve(begun, foreign, sc.during);
    var done := EnvSteps(begun, foreign, sc.during);
    EnvStepsConserve(done, foreign, sc.beforeAccess);
    var looked := EnvSteps(done, foreign, sc.beforeAccess);
    EnvStepsConserve(looked, foreign, sc.afterAccess);
    var settled := EnvSteps(looked, foreign, sc.afterAccess);
    UpdateConserves(settled, Assign(settled, foreign, id, sc.ret), id, Running, sc.ret);
    UpdateConserves(settled, Finish(settled, id), id, Done, -1);
  }

  lemma {:induction false} BatchConserves(s: Sys, foreign: set<int>, ids: seq<nat>, scripts: seq<Script>, n: nat,
                                          t: Sys)
    requires Conserved(s) && n <= |ids| && t == RunBatch(s, foreign, ids, scripts, n)
    ensures Conserved(t)
    decreases n
  {
    if n > 0 {
      var u := RunBatch(s, foreign, ids, scripts, n - 1);
      BatchConserves(s, foreign, ids, scripts, n - 1, u);
      RunEntryConserves(u, foreign, ids[n - 1], ScriptAt(scripts, n - 1), t);
    }
  }

  /** Filtering by pid splits a queue into two order-preserving parts. */
  lemma {:induction false} FilterPartitions(q: seq<Entry>, pid: int)
    ensures multiset(Ids(q)) == multiset(Ids(ByPid(q, pid, true))) + multiset(Ids(ByPid(q, pid, false)))
  {
    if q != [] {
      FilterPartitions(q[1..], pid);
      IdsOfCons(q[0], q[1..]);
      assert q == [q[0]] + q[1..];
      IdsOfCons(q[0], ByPid(q[1..], pid, q[0].pid == pid));
    }
  }

  lemma IdsOfConcat(a: seq<Entry>, b: seq<Entry>)
    ensures multiset(Ids(a + b)) == multiset(Ids(a)) + multiset(Ids(b))
  {
    assert Ids(a + b) == Ids(a) + Ids(b);
  }

  lemma ClearAccounted(s: Sys, pid: int)
    requires Accounted(s)
    ensures Accounted(Clear(s, pid))
  {
    var gone, t := ByPid(s.queue, pid, true), Clear(s, pid);
    FilterPartitions(s.queue, pid);
    IdsOfConcat(s.removed, gone);
    assert multiset(Ids(t.queue)) + multiset(Ids(t.removed)) == multiset(Ids(s.queue)) + multiset(Ids(s.removed));
  }

  lemma ClearKeepsArgs(s: Sys, pid: int)
    requires ArgsKept(s)
    ensures ArgsKept(Clear(s, pid))
  {
  }

  lemma ClearConserves(s: Sys, foreign: set<int>, pid: int)
    requires Conserved(s) && Inv(s, foreign, Idle(s)) && pid != 0
    ensures Conserved(Clear(s, pid))
  {
    ClearAccounted(s, pid);
    ClearKeepsArgs(s, pid);
    var gone := ByPid(s.queue, pid, true);
    OwnedConcat(s.removed, gone);
    forall e | e in gone ensures e.state != Init {
      QueuedIsOk(s, foreign, e);
    }
  }

  lemma StepConserves(s: Sys, foreign: set<int>, e: Event)
    requires Conserved(s) && Inv(s, foreign, Idle(s))
    ensures Conserved(Step(s, foreign, e))
  {
    match e
    case Outside(env) => EnvStepConserves(s, foreign, env);
    case Dispatched(scripts) =>
      if s.pipe != [] {
        match s.pipe[0]
        case RunMsg =>
          var t := s.(pipe := s.pipe[1..], bounds := s.bounds + [s.next]);
          BatchConserves(t, foreign, InitIds(t.queue), scripts, |InitIds(t.queue)|, Dispatch(s, foreign, scripts));
        case ClearMsg(p) =>
          ClearDispatchKeeps(s, foreign, scripts);
          ClearConserves(s, foreign, p);
      }
  }

  lemma {:induction false} NothingLostOrFreedTwice(foreign: set<int>, events: seq<Event>)
    ensures Conserved(Run(START, foreign, events))
  {
    if events != [] {
      NothingLostOrFreedTwice(foreign, events[..|events| - 1]);
      NoLostCompletion(foreign, events[..|events| - 1]);
      StepConserves(Run(START, foreign, events[..|events| - 1]), foreign, events[|events| - 1]);
    }
  }

  lemma ClearedIsFinished(s: Sys, foreign: set<int>, e: Entry)
    requires Inv(s, foreign, Idle(s)) && s.pipe != [] && s.pipe[0] == ClearMsg(e.pid) && e in s.queue
    ensures e.id < Last(s.bounds) && e.state != Init && e.pid !in s.live && e.id !in s.adopted
  {
  }

  /** A CLEAR dispatch deletes only entries that have run, and never one whose
      child is still alive. */
  lemma DeletesOnlyFinished(foreign: set<int>, events: seq<Event>, e: Entry)
    requires var s := Run(START, foreign, events);
             s.pipe != [] && s.pipe[0].ClearMsg? && e in ByPid(s.queue, s.pipe[0].pid, true)
    ensures var s := Run(START, foreign, events);
            e.id in s.log && e.state != Init && e.pid !in s.live && e.id !in s.adopted
  {
    var s := Run(START, foreign, events);
    NoLostCompletion(foreign, events);
    ClearedIsFinished(s, foreign, e);
    RunsInBlocks(foreign, events);
    BlocksCount(s.bounds, e.id);
    assert e.id in multiset(s.log);
  }

  // ---- Draining ----

  function Forks(es: seq<Env>): nat
  {
    if es == [] then 0 else (if es[0].Fork? then 1 else 0) + Forks(es[1..])
  }

  predicate NoCalls(es: seq<Env>)
  {
    forall i :: 0 <= i < |es| ==> !es[i].Call?
  }

  /** The action makes no call and forks at most `k` children. */
  predicate Calm(sc: Script, k: nat)
  {
    && NoCalls(sc.during) && NoCalls(sc.beforeAccess) && NoCalls(sc.afterAccess)
    && Forks(sc.during) + Forks(sc.beforeAccess) + Forks(sc.afterAccess) <= k
  }

  /** A dispatch of a pending message, or the death of a child. */
  predicate Internal(s: Sys, k: nat, e: Event)
  {
    match e
    case Outside(env) => env.ChildExit? && env.pid in s.live
    case Dispatched(scripts) => s.pipe != [] && forall i :: 0 <= i < |scripts| ==> Calm(scripts[i], k)
  }

  function Load(s: Sys): nat
  {
    |s.pipe| + 2 * |s.live|
  }

  function Work(s: Sys, k: nat): nat
  {
    (2 * k + 1) * |InitIds(s.queue)| + Load(s)
  }

  lemma {:induction false} EnvLoad(s: Sys, foreign: set<int>, es: seq<Env>)
    requires NoCalls(es)
    ensures Load(EnvSteps(s, foreign, es)) <= Load(s) + 2 * Forks(es)
    ensures EnvSteps(s, foreign, es).accepted == s.accepted
    decreases |es|
  {
    if es != [] {
      assert !es[0].Call?;
      EnvLoad(EnvStep(s, foreign, es[0]), foreign, es[1..]);
    }
  }

  lemma RunEntryLoad(s: Sys, foreign: set<int>, id: nat, sc: Script, k: nat)
    requires Calm(sc, k)
    ensures Load(RunEntry(s, foreign, id, sc)) <= Load(s) + 2 * k + 1
    ensures RunEntry(s, foreign, id, sc).accepted == s.accepted
  {
    var begun := Begin(s, id);
    EnvLoad(begun, foreign, sc.during);
    var done := EnvSteps(begun, foreign, sc.during);
    EnvLoad(done, foreign, sc.beforeAccess);
    EnvLoad(EnvSteps(done, foreign, sc.beforeAccess), foreign, sc.afterAccess);
  }

  lemma {:induction false} BatchLoad(s: Sys, foreign: set<int>, ids: seq<nat>, scripts: seq<Script>, n: nat, k: nat)
    requires n <= |ids| && forall i :: 0 <= i < |scripts| ==> Calm(scripts[i], k)
    ensures Load(RunBatch(s, foreign, ids, scripts, n)) <= Load(s) + (2 * k + 1) * n
    ensures RunBatch(s, foreign, ids, scripts, n).accepted == s.accepted
    decreases n
  {
    if n > 0 {
      BatchLoad(s, foreign, ids, scripts, n - 1, k);
      RunEntryLoad(RunBatch(s, foreign, ids, scripts, n - 1), foreign, ids[n - 1], ScriptAt(scripts, n - 1), k);
      assert (2 * k + 1) * n == (2 * k + 1) * (n - 1) + (2 * k + 1);
    }
  }

  /** Every dispatch and every child death uses up some of the remaining work. */
  lemma StepUsesWork(s: Sys, foreign: set<int>, k: nat, e: Event)
    requires Inv(s, foreign, Idle(s)) && Internal(s, k, e)
    ensures Work(Step(s, foreign, e), k) < Work(s, k)
  {
    var t := Step(s, foreign, e);
    StepKeeps(s, foreign, e);
    WaitingIds(s, foreign);
    WaitingIds(t, foreign);
    match e
    case Outside(env) =>
    case Dispatched(scripts) =>
      match s.pipe[0]
      case RunMsg =>
        RunDispatchKeeps(s, foreign, scripts);
        var begun := s.(pipe := s.pipe[1..], bounds := s.bounds + [s.next]);
        var ids := InitIds(s.queue);
        BatchLoad(begun, foreign, ids, scripts, |ids|, k);
        assert InitIds(t.queue) == [];
      case ClearMsg(_) => ClearDispatchKeeps(s, foreign, scripts);
  }

  predicate AllInternal(s: Sys, foreign: set<int>, k: nat, events: seq<Event>)
  {
    forall i :: 0 <= i < |events| ==> Internal(Run(s, foreign, events[..i]), k, events[i])
  }

  lemma {:induction false} DrainCounts(s: Sys, foreign: set<int>, k: nat, events: seq<Event>)
    requires Inv(s, foreign, Idle(s)) && AllInternal(s, foreign, k, events)
    ensures |events| + Work(Run(s, foreign, events), k) <= Work(s, k)
    ensures Inv(Run(s, foreign, events), foreign, Idle(Run(s, foreign, events)))
  {
    if events != [] {
      var init, e := events[..|events| - 1], events[|events| - 1];
      forall i | 0 <= i < |init| ensures Internal(Run(s, foreign, init[..i]), k, init[i]) {
        assert init[..i] == events[..i];
      }
      DrainCounts(s, foreign, k, init);
      StepUsesWork(Run(s, foreign, init), foreign, k, e);
      StepKeeps(Run(s, foreign, init), foreign, e);
    }
  }

  lemma BusyMeansInternal(t: Sys, k: nat)
    ensures !Quiet(t) <==> exists e :: Internal(t, k, e)
  {
    if t.pipe != [] {
      assert Internal(t, k, Dispatched([]));
    } else if t.live != {} {
      if forall p :: p !in t.live {
        assert false;
      }
      var p :| p in t.live;
      assert Internal(t, k, Outside(ChildExit(p)));
    }
  }

  /** With no further calls, at most `Work` dispatches and child deaths can follow,
      and one is possible until the system is quiet. */
  lemma DrainingTerminates(foreign: set<int>, before: seq<Event>, k: nat, after: seq<Event>)
    requires AllInternal(Run(START, foreign, before), foreign, k, after)
    ensures |after| <= Work(Run(START, foreign, before), k)
    ensures var t := Run(Run(START, foreign, before), foreign, after);
            !Quiet(t) <==> exists e :: Internal(t, k, e)
  {
    NoLostCompletion(foreign, before);
    DrainCounts(Run(START, foreign, before), foreign, k, after);
    BusyMeansInternal(Run(Run(START, foreign, before), foreign, after), k);
  }
}
