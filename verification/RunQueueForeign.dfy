/** Actions whose result names a process that is no child of the server: when that
    happens, and that exactly their entries are never completed. */
module RunQueueForeign {
  import opened Wrappers
  import opened RunQueue
  import opened RunQueueRuns
  import Launch

  // ---- Which entries are bound to a process that is no child ----

  /** The action's result names a process that exists and is no child. */
  predicate NamesForeign(foreign: set<int>, sc: Script)
  {
    sc.ret > 0 && sc.ret in foreign
  }

  /** The ids among the first `n` of a batch whose action names such a process. */
  function Naming(foreign: set<int>, ids: seq<nat>, scripts: seq<Script>, n: nat): set<nat>
    requires n <= |ids|
  {
    set j | 0 <= j < n && NamesForeign(foreign, ScriptAt(scripts, j)) :: ids[j]
  }

  /** The calls of a run whose action named a process that is no child. */
  function ForeignRuns(foreign: set<int>, events: seq<Event>): set<nat>
  {
    if events == [] then {}
    else
      var init, e := events[..|events| - 1], events[|events| - 1];
      var s := Run(START, foreign, init);
      ForeignRuns(foreign, init) +
      if ReadsRun(s, e) then Naming(foreign, InitIds(s.queue), e.scripts, |InitIds(s.queue)|) else {}
  }

  lemma {:induction false} EnvAdopts(s: Sys, foreign: set<int>, es: seq<Env>)
    ensures EnvSteps(s, foreign, es).adopted == s.adopted
    decreases |es|
  {
    if es != [] {
      EnvAdopts(EnvStep(s, foreign, es[0]), foreign, es[1..]);
    }
  }

  lemma RunEntryAdopts(s: Sys, foreign: set<int>, id: nat, sc: Script)
    ensures RunEntry(s, foreign, id, sc).adopted == s.adopted + if NamesForeign(foreign, sc) then {id} else {}
  {
    var done := EnvSteps(Begin(s, id), foreign, sc.during);
    EnvAdopts(Begin(s, id), foreign, sc.during);
    EnvAdopts(done, foreign, sc.beforeAccess);
    EnvAdopts(EnvSteps(done, foreign, sc.beforeAccess), foreign, sc.afterAccess);
  }

  lemma {:induction false} BatchAdopts(s: Sys, foreign: set<int>, ids: seq<nat>, scripts: seq<Script>, n: nat)
    requires n <= |ids|
    ensures RunBatch(s, foreign, ids, scripts, n).adopted == s.adopted + Naming(foreign, ids, scripts, n)
    decreases n
  {
    if n > 0 {
      BatchAdopts(s, foreign, ids, scripts, n - 1);
      RunEntryAdopts(RunBatch(s, foreign, ids, scripts, n - 1), foreign, ids[n - 1], ScriptAt(scripts, n - 1));
    }
  }

  lemma StepAdopts(s: Sys, foreign: set<int>, e: Event)
    ensures Step(s, foreign, e).adopted == s.adopted +
            if ReadsRun(s, e) then Naming(foreign, InitIds(s.queue), e.scripts, |InitIds(s.queue)|) else {}
  {
    if ReadsRun(s, e) {
      var ids := InitIds(s.queue);
      BatchAdopts(s.(pipe := s.pipe[1..], bounds := s.bounds + [s.next]), foreign, ids, e.scripts, |ids|);
    }
  }

  /** The adopted ids are exactly the calls whose action named such a process. */
  lemma {:induction false} AdoptedExactly(foreign: set<int>, events: seq<Event>)
    ensures Run(START, foreign, events).adopted == ForeignRuns(foreign, events)
  {
    if events != [] {
      AdoptedExactly(foreign, events[..|events| - 1]);
      StepAdopts(Run(START, foreign, events[..|events| - 1]), foreign, events[|events| - 1]);
    }
  }

  // ---- Quiescence ----

  /** Every result of every action is a child, a process that does not exist, or no
      process. */
  predicate OnlyChildren(foreign: set<int>, events: seq<Event>)
  {
    forall i, j :: 0 <= i < |events| && events[i].Dispatched? && 0 <= j < |events[i].scripts| ==>
      !NamesForeign(foreign, events[i].scripts[j])
  }

  lemma {:induction false} OnlyChildrenNamed(foreign: set<int>, events: seq<Event>)
    requires OnlyChildren(foreign, events)
    ensures ForeignRuns(foreign, events) == {}
  {
    if events != [] {
      var init := events[..|events| - 1];
      assert forall i :: 0 <= i < |init| ==> init[i] == events[i];
      OnlyChildrenNamed(foreign, init);
    }
  }

  /** With an empty pipe and no live child exactly the calls whose action named a
      process that is no child are left. The queue is empty if and only if there was
      none, and so whenever every positive result is the server's own child. */
  lemma QuietQueueExactly(foreign: set<int>, events: seq<Event>)
    requires Quiet(Run(START, foreign, events))
    ensures var queue := Run(START, foreign, events).queue;
            && (forall id :: InQueue(queue, id) <==> id in ForeignRuns(foreign, events))
            && (queue == [] <==> ForeignRuns(foreign, events) == {})
            && (OnlyChildren(foreign, events) ==> queue == [])
  {
    QuietQueue(foreign, events);
    AdoptedExactly(foreign, events);
    if OnlyChildren(foreign, events) {
      OnlyChildrenNamed(foreign, events);
    }
  }

  // ---- Such an entry stays for ever ----

  lemma {:induction false} AdoptedForever(s: Sys, foreign: set<int>, events: seq<Event>, id: nat)
    requires Inv(s, foreign, Idle(s)) && id in s.adopted
    ensures id in Run(s, foreign, events).adopted && InQueue(Run(s, foreign, events).queue, id)
    ensures Inv(Run(s, foreign, events), foreign, Idle(Run(s, foreign, events)))
  {
    if events != [] {
      var init, e := events[..|events| - 1], events[|events| - 1];
      AdoptedForever(s, foreign, init, id);
      StepKeeps(Run(s, foreign, init), foreign, e);
      StepAdopts(Run(s, foreign, init), foreign, e);
    }
  }

  /** Whenever an action launches a program that already runs, process 1 being no
      child of the server, the call's entry is still queued after any later events. */
  lemma RunningProgramLeaks(foreign: set<int>, before: seq<Event>, scripts: seq<Script>, j: nat, after: seq<Event>,
                            path: string, running: int, mallocOk: bool, launched: int)
    requires 1 in foreign && running > 0
    requires var s := Run(START, foreign, before);
             ReadsRun(s, Dispatched(scripts)) && j < |InitIds(s.queue)|
    requires var pid := Launch.LaunchIfNoexist(Some(path), running, mallocOk, launched);
             ScriptAt(scripts, j).ret == Launch.UsbconAnswer(pid)
    ensures var s := Run(START, foreign, before);
            InQueue(Run(Step(s, foreign, Dispatched(scripts)), foreign, after).queue, InitIds(s.queue)[j])
  {
    var s := Run(START, foreign, before);
    var t := Step(s, foreign, Dispatched(scripts));
    NoLostCompletion(foreign, before);
    StepKeeps(s, foreign, Dispatched(scripts));
    StepAdopts(s, foreign, Dispatched(scripts));
    assert NamesForeign(foreign, ScriptAt(scripts, j));
    AdoptedForever(t, foreign, after, InitIds(s.queue)[j]);
  }

  /** The launcher answers 1 for a program that already runs. Process 1 exists and
      is no child of the server, so the entry of one such call outlives it. */
  lemma AlreadyRunningLeaks()
    ensures var call := Outside(Call(true, []));
            var run := Dispatched([Script([], 1, [], [])]);
            var s := Run(START, {1}, [call, run]);
            Quiet(s) && s.queue == [Entry(0, Running, 1, [])]
  {
    var sc := Script([], 1, [], []);
    var called := EnvStep(START, {1}, Call(true, []));
    assert Run(START, {1}, [Outside(Call(true, []))]) == called by {
      assert Run(START, {1}, []) == START;
    }
    assert [Outside(Call(true, [])), Dispatched([sc])][..1] == [Outside(Call(true, []))];
    assert Run(START, {1}, [Outside(Call(true, [])), Dispatched([sc])]) == Dispatch(called, {1}, [sc]);
    assert called.queue[1..] == [];
    assert InitIds(called.queue) == [0];
    var t := called.(pipe := [], bounds := [1]);
    assert RunBatch(t, {1}, [0], [sc], 0) == t;
    assert RunBatch(t, {1}, [0], [sc], 1) == RunEntry(t, {1}, 0, sc);
    assert called.pipe[1..] == [] && called.bounds + [called.next] == [1];
    assert Dispatch(called, {1}, [sc]) == RunEntry(t, {1}, 0, sc);
  }
}
