/** What the result of an action does to its entry, and how long that lasts. */
module RunQueueBinding {
  import opened Wrappers
  import opened RunQueue
  import opened RunQueueRuns
  import opened RunQueueTheorems

  // ---- One execution ----

  /** The state in which the result of an execution is looked up. */
  function Looked(s: Sys, foreign: set<int>, id: nat, sc: Script): Sys
  {
    EnvSteps(EnvSteps(Begin(s, id), foreign, sc.during), foreign, sc.beforeAccess)
  }

  /** What becomes of an entry whose action returned `ret`, looked up in `looked`. */
  function Resolved(e: Entry, looked: Sys, foreign: set<int>, ret: int): Entry
  {
    if ret > 0 && (ret in looked.live || ret in foreign) then Entry(e.id, Running, ret, e.args)
    else Entry(e.id, Done, -1, e.args)
  }

  /** The entry is left waiting for the process its action named exactly when that is
      a live child or a process that is no child; otherwise it is done and CLEAR(-1)
      is written. No other entry changes. */
  lemma OutcomeOfAction(s: Sys, foreign: set<int>, id: nat, sc: Script)
    ensures var looked, t := Looked(s, foreign, id, sc), RunEntry(s, foreign, id, sc);
            var settled := EnvSteps(looked, foreign, sc.afterAccess);
            && |t.queue| == |settled.queue| && t.live == settled.live
            && (forall i :: 0 <= i < |t.queue| ==>
                  t.queue[i] == if settled.queue[i].id == id then Resolved(settled.queue[i], looked, foreign, sc.ret)
                                else settled.queue[i])
            && t.pipe == settled.pipe +
                 if sc.ret > 0 && (sc.ret in looked.live || sc.ret in foreign) then [] else [ClearMsg(-1)]
  {
  }

  // ---- One batch ----

  lemma {:induction false} EnvKeepsEntry(s: Sys, foreign: set<int>, es: seq<Env>, e: Entry)
    requires e in s.queue
    ensures e in EnvSteps(s, foreign, es).queue
    decreases |es|
  {
    if es != [] {
      EnvKeepsEntry(EnvStep(s, foreign, es[0]), foreign, es[1..], e);
    }
  }

  lemma UpdateKeepsOther(q: seq<Entry>, id: nat, state: State, pid: int, e: Entry)
    requires e in q && e.id != id
    ensures e in Update(q, id, state, pid)
  {
    var i :| 0 <= i < |q| && q[i] == e;
    assert Update(q, id, state, pid)[i] == e;
  }

  lemma UpdateMoves(q: seq<Entry>, state: State, pid: int, e: Entry)
    requires e in q
    ensures e.(state := state, pid := pid) in Update(q, e.id, state, pid)
  {
    var i :| 0 <= i < |q| && q[i] == e;
    assert Update(q, e.id, state, pid)[i] == e.(state := state, pid := pid);
  }

  lemma RunEntryKeepsOther(s: Sys, foreign: set<int>, id: nat, sc: Script, e: Entry, t: Sys)
    requires e in s.queue && e.id != id && t == RunEntry(s, foreign, id, sc)
    ensures e in t.queue
  {
    var looked := Looked(s, foreign, id, sc);
    var settled := EnvSteps(looked, foreign, sc.afterAccess);
    UpdateKeepsOther(s.queue, id, Running, 0, e);
    EnvKeepsEntry(Begin(s, id), foreign, sc.during, e);
    EnvKeepsEntry(EnvSteps(Begin(s, id), foreign, sc.during), foreign, sc.beforeAccess, e);
    EnvKeepsEntry(looked, foreign, sc.afterAccess, e);
    UpdateKeepsOther(settled.queue, id, Running, sc.ret, e);
    UpdateKeepsOther(settled.queue, id, Done, -1, e);
  }

  lemma RunEntryResolves(s: Sys, foreign: set<int>, sc: Script, e: Entry, t: Sys)
    requires e in s.queue && t == RunEntry(s, foreign, e.id, sc)
    ensures Resolved(e, Looked(s, foreign, e.id, sc), foreign, sc.ret) in t.queue
  {
    var looked := Looked(s, foreign, e.id, sc);
    var settled, busy := EnvSteps(looked, foreign, sc.afterAccess), e.(state := Running, pid := 0);
    UpdateMoves(s.queue, Running, 0, e);
    EnvKeepsEntry(Begin(s, e.id), foreign, sc.during, busy);
    EnvKeepsEntry(EnvSteps(Begin(s, e.id), foreign, sc.during), foreign, sc.beforeAccess, busy);
    EnvKeepsEntry(looked, foreign, sc.afterAccess, busy);
    UpdateMoves(settled.queue, Running, sc.ret, busy);
    UpdateMoves(settled.queue, Done, -1, busy);
  }

  lemma {:induction false} BatchKeepsOther(s: Sys, foreign: set<int>, ids: seq<nat>, scripts: seq<Script>, n: nat,
                                           e: Entry, t: Sys)
    requires n <= |ids| && e in s.queue && e.id !in ids[..n] && t == RunBatch(s, foreign, ids, scripts, n)
    ensures e in t.queue
    decreases n
  {
    if n > 0 {
      var u := RunBatch(s, foreign, ids, scripts, n - 1);
      assert ids[..n] == ids[..n - 1] + [ids[n - 1]];
      BatchKeepsOther(s, foreign, ids, scripts, n - 1, e, u);
      RunEntryKeepsOther(u, foreign, ids[n - 1], ScriptAt(scripts, n - 1), e, t);
    }
  }

  predicate Descending(ids: seq<nat>)
  {
    forall i, j :: 0 <= i < j < |ids| ==> ids[j] < ids[i]
  }

  /** The state in which the result of the `j`-th action of a batch is looked up. */
  function LookedInBatch(s: Sys, foreign: set<int>, ids: seq<nat>, scripts: seq<Script>, j: nat): Sys
    requires j < |ids|
  {
    Looked(RunBatch(s, foreign, ids, scripts, j), foreign, ids[j], ScriptAt(scripts, j))
  }

  lemma {:induction false} BatchResolves(s: Sys, foreign: set<int>, ids: seq<nat>, scripts: seq<Script>, j: nat, n: nat,
                                         e: Entry, t: Sys)
    requires j < n <= |ids| && Descending(ids) && e in s.queue && e.id == ids[j]
    requires t == RunBatch(s, foreign, ids, scripts, n)
    ensures Resolved(e, LookedInBatch(s, foreign, ids, scripts, j), foreign, ScriptAt(scripts, j).ret) in t.queue
    decreases n
  {
    var u := RunBatch(s, foreign, ids, scripts, n - 1);
    if j == n - 1 {
      BatchKeepsOther(s, foreign, ids, scripts, j, e, u);
      RunEntryResolves(u, foreign, ScriptAt(scripts, j), e, t);
    } else {
      var r := Resolved(e, LookedInBatch(s, foreign, ids, scripts, j), foreign, ScriptAt(scripts, j).ret);
      BatchResolves(s, foreign, ids, scripts, j, n - 1, e, u);
      assert ids[n - 1] < ids[j];
      RunEntryKeepsOther(u, foreign, ids[n - 1], ScriptAt(scripts, n - 1), r, t);
    }
  }

  // ---- Whole runs ----

  /** The state after a RUN message was taken off the pipe. */
  function Taken(s: Sys): Sys
    requires s.pipe != []
  {
    s.(pipe := s.pipe[1..], bounds := s.bounds + [s.next])
  }

  lemma WaitingDescend(s: Sys, foreign: set<int>)
    requires Inv(s, foreign, Idle(s))
    ensures |InitIds(s.queue)| == s.next - Last(s.bounds) <= |s.queue| && Descending(InitIds(s.queue))
    ensures forall j :: 0 <= j < |InitIds(s.queue)| ==> Last(s.bounds) <= InitIds(s.queue)[j] == s.queue[j].id < s.next
  {
    var lo, hi := Last(s.bounds), s.next;
    WaitingIds(s, foreign);
    DownLength(lo, hi);
    forall j | 0 <= j < hi - lo ensures Down(lo, hi)[j] == hi - 1 - j {
      DownAt(lo, hi, j);
    }
  }

  /** A dispatched RUN resolves every call it finds waiting by the result of its own
      action, and the call keeps its arguments. */
  lemma DispatchResolves(foreign: set<int>, before: seq<Event>, scripts: seq<Script>, j: nat)
    requires var s := Run(START, foreign, before);
             ReadsRun(s, Dispatched(scripts)) && j < |InitIds(s.queue)|
    ensures var s := Run(START, foreign, before);
            var ids := InitIds(s.queue);
            var looked := LookedInBatch(Taken(s), foreign, ids, scripts, j);
            ids[j] < s.next &&
            Resolved(Entry(ids[j], Init, 0, s.accepted[ids[j]]), looked, foreign, ScriptAt(scripts, j).ret) in
              Step(s, foreign, Dispatched(scripts)).queue
  {
    var s := Run(START, foreign, before);
    NoLostCompletion(foreign, before);
    NothingLostOrFreedTwice(foreign, before);
    WaitingDescend(s, foreign);
    assert s.queue[j] in s.queue + s.removed;
    BatchResolves(Taken(s), foreign, InitIds(s.queue), scripts, j, |InitIds(s.queue)|, s.queue[j],
                  Step(s, foreign, Dispatched(scripts)));
  }

  lemma {:induction false} EnvAddsNoOld(s: Sys, foreign: set<int>, es: seq<Env>, id: nat)
    requires id < s.next && !InQueue(s.queue, id)
    ensures var t := EnvSteps(s, foreign, es);
            id < t.next && !InQueue(t.queue, id)
    decreases |es|
  {
    if es != [] {
      EnvAddsNoOld(EnvStep(s, foreign, es[0]), foreign, es[1..], id);
    }
  }

  lemma RunEntryAddsNoOld(s: Sys, foreign: set<int>, other: nat, sc: Script, id: nat, t: Sys)
    requires id < s.next && !InQueue(s.queue, id) && t == RunEntry(s, foreign, other, sc)
    ensures id < t.next && !InQueue(t.queue, id)
  {
    var looked := Looked(s, foreign, other, sc);
    var settled := EnvSteps(looked, foreign, sc.afterAccess);
    UpdateKeepsIds(s.queue, other, Running, 0, id);
    EnvAddsNoOld(Begin(s, other), foreign, sc.during, id);
    EnvAddsNoOld(EnvSteps(Begin(s, other), foreign, sc.during), foreign, sc.beforeAccess, id);
    EnvAddsNoOld(looked, foreign, sc.afterAccess, id);
    UpdateKeepsIds(settled.queue, other, Running, sc.ret, id);
    UpdateKeepsIds(settled.queue, other, Done, -1, id);
  }

  lemma {:induction false} BatchAddsNoOld(s: Sys, foreign: set<int>, ids: seq<nat>, scripts: seq<Script>, n: nat,
                                          id: nat, t: Sys)
    requires n <= |ids| && id < s.next && !InQueue(s.queue, id) && t == RunBatch(s, foreign, ids, scripts, n)
    ensures id < t.next && !InQueue(t.queue, id)
    decreases n
  {
    if n > 0 {
      var u := RunBatch(s, foreign, ids, scripts, n - 1);
      BatchAddsNoOld(s, foreign, ids, scripts, n - 1, id, u);
      RunEntryAddsNoOld(u, foreign, ids[n - 1], ScriptAt(scripts, n - 1), id, t);
    }
  }

  /** A deleted call never comes back. */
  lemma StepAddsNoOld(s: Sys, foreign: set<int>, ev: Event, id: nat)
    requires id < s.next && !InQueue(s.queue, id)
    ensures var t := Step(s, foreign, ev);
            id < t.next && !InQueue(t.queue, id)
  {
    var t := Step(s, foreign, ev);
    if ev.Outside? {
      assert EnvSteps(s, foreign, [ev.env]) == EnvSteps(t, foreign, [ev.env][1..]) == t;
      EnvAddsNoOld(s, foreign, [ev.env], id);
    } else if s.pipe != [] {
      match s.pipe[0]
      case RunMsg => BatchAddsNoOld(Taken(s), foreign, InitIds(s.queue), ev.scripts, |InitIds(s.queue)|, id, t);
      case ClearMsg(p) =>
        forall i | 0 <= i < |t.queue| ensures t.queue[i].id != id {
          assert t.queue[i] in s.queue;
        }
    }
  }

  /** An event keeps an entry that has run unless it reads the CLEAR of its pid. */
  lemma StepKeepsBound(s: Sys, foreign: set<int>, ev: Event, e: Entry)
    requires Inv(s, foreign, Idle(s)) && e in s.queue && e.state != Init
    ensures if ReadsClear(s, ev, e.pid) then !InQueue(Step(s, foreign, ev).queue, e.id)
            else e in Step(s, foreign, ev).queue
  {
    var t := Step(s, foreign, ev);
    QueuedIsOk(s, foreign, e);
    if ev.Dispatched? && s.pipe != [] {
      match s.pipe[0]
      case RunMsg =>
        WaitingDescend(s, foreign);
        BatchKeepsOther(Taken(s), foreign, InitIds(s.queue), ev.scripts, |InitIds(s.queue)|, e, t);
      case ClearMsg(p) =>
        if e.pid == p {
          forall i | 0 <= i < |t.queue| ensures t.queue[i].id != e.id {
            assert t.queue[i] in s.queue && t.queue[i].pid != p;
          }
        }
    }
  }

  lemma QueuedIsOld(s: Sys, foreign: set<int>, e: Entry)
    requires Inv(s, foreign, Idle(s)) && e in s.queue
    ensures e.id < s.next
  {
  }

  /** One of the events reads the CLEAR of `pid`. */
  predicate Cleared(s: Sys, foreign: set<int>, events: seq<Event>, pid: int)
  {
    events != [] &&
    var init := events[..|events| - 1];
    Cleared(s, foreign, init, pid) || ReadsClear(Run(s, foreign, init), events[|events| - 1], pid)
  }

  lemma BoundStep(u: Sys, foreign: set<int>, ev: Event, e: Entry, t: Sys)
    requires Inv(u, foreign, Idle(u)) && e in u.queue && e.state != Init && t == Step(u, foreign, ev)
    ensures Inv(t, foreign, Idle(t)) && e.id < t.next
    ensures if ReadsClear(u, ev, e.pid) then !InQueue(t.queue, e.id) else e in t.queue
  {
    StepKeeps(u, foreign, ev);
    StepKeepsBound(u, foreign, ev, e);
    if ReadsClear(u, ev, e.pid) {
      QueuedIsOld(u, foreign, e);
    } else {
      QueuedIsOld(t, foreign, e);
    }
  }

  lemma {:induction false} BoundUntilClear(s: Sys, foreign: set<int>, events: seq<Event>, e: Entry)
    requires Inv(s, foreign, Idle(s)) && e in s.queue && e.state != Init
    ensures var t := Run(s, foreign, events);
            && Inv(t, foreign, Idle(t)) && e.id < t.next
            && if Cleared(s, foreign, events, e.pid) then !InQueue(t.queue, e.id) else e in t.queue
  {
    if events == [] {
      QueuedIsOld(s, foreign, e);
    } else {
      var n := |events| - 1;
      var init, u := events[..n], Run(s, foreign, events[..n]);
      BoundUntilClear(s, foreign, init, e);
      if !Cleared(s, foreign, init, e.pid) {
        BoundStep(u, foreign, events[n], e, Run(s, foreign, events));
      } else {
        StepKeeps(u, foreign, events[n]);
        StepAddsNoOld(u, foreign, events[n], e.id);
      }
    }
  }

  /** Every call that a RUN finds waiting is resolved by the result of its own action:
      a child alive at the lookup, or a process that is no child, holds it in the
      queue, Running with that pid, exactly until the CLEAR of that pid is read;
      any other result makes it Done, exactly until a CLEAR(-1) is read. */
  lemma HeldUntilClear(foreign: set<int>, before: seq<Event>, scripts: seq<Script>, j: nat, after: seq<Event>)
    requires var s := Run(START, foreign, before);
             ReadsRun(s, Dispatched(scripts)) && j < |InitIds(s.queue)|
    ensures var s := Run(START, foreign, before);
            var ids, ret, t := InitIds(s.queue), ScriptAt(scripts, j).ret, Step(s, foreign, Dispatched(scripts));
            var looked := LookedInBatch(Taken(s), foreign, ids, scripts, j);
            ids[j] < s.next &&
            var held := Resolved(Entry(ids[j], Init, 0, s.accepted[ids[j]]), looked, foreign, ret);
            if Cleared(t, foreign, after, held.pid) then !InQueue(Run(t, foreign, after).queue, ids[j])
            else held in Run(t, foreign, after).queue
  {
    var s := Run(START, foreign, before);
    var ids, ret, t := InitIds(s.queue), ScriptAt(scripts, j).ret, Step(s, foreign, Dispatched(scripts));
    var looked := LookedInBatch(Taken(s), foreign, ids, scripts, j);
    DispatchResolves(foreign, before, scripts, j);
    NoLostCompletion(foreign, before);
    StepKeeps(s, foreign, Dispatched(scripts));
    BoundUntilClear(t, foreign, after, Resolved(Entry(ids[j], Init, 0, s.accepted[ids[j]]), looked, foreign, ret));
  }
}
