/** What the protocol's history owes to the events of a run: the calls made, in order. */
module RunQueueHistory {
  import opened Wrappers
  import opened RunQueue

  // ---- Everything that happened outside ----

  function ScriptEnvs(sc: Script): seq<Env>
  {
    sc.during + sc.beforeAccess + sc.afterAccess
  }

  function BatchEnvs(scripts: seq<Script>, n: nat): seq<Env>
  {
    if n == 0 then [] else BatchEnvs(scripts, n - 1) + ScriptEnvs(ScriptAt(scripts, n - 1))
  }

  /** What happens outside during one event, inside the actions it runs included. */
  function EventEnvs(s: Sys, e: Event): seq<Env>
  {
    if e.Outside? then [e.env]
    else if ReadsRun(s, e) then BatchEnvs(e.scripts, |InitIds(s.queue)|)
    else []
  }

  /** Everything that happened outside in a run, in order. */
  function Happened(foreign: set<int>, events: seq<Event>): seq<Env>
  {
    if events == [] then []
    else
      var init := events[..|events| - 1];
      Happened(foreign, init) + EventEnvs(Run(START, foreign, init), events[|events| - 1])
  }

  /** The arguments of the calls among `es` that were accepted, or refused, in order. */
  function CallArgs(es: seq<Env>, accepted: bool): seq<seq<Option<int>>>
  {
    if es == [] then []
    else (if es[0].Call? && es[0].accepted == accepted then [es[0].args] else []) + CallArgs(es[1..], accepted)
  }

  lemma {:induction false} CallArgsConcat(a: seq<Env>, b: seq<Env>, accepted: bool)
    ensures CallArgs(a + b, accepted) == CallArgs(a, accepted) + CallArgs(b, accepted)
  {
    if a == [] {
      assert a + b == b;
    } else {
      assert (a + b)[0] == a[0] && (a + b)[1..] == a[1..] + b;
      CallArgsConcat(a[1..], b, accepted);
      Regroup(if a[0].Call? && a[0].accepted == accepted then [a[0].args] else [],
              CallArgs(a[1..], accepted), CallArgs(b, accepted));
    }
  }

  /** The RUN messages ever written: those read and those in the pipe. */
  function RunsWritten(s: Sys): nat
  {
    |s.bounds| + multiset(s.pipe)[RunMsg]
  }

  /** `t` follows `s` after `es`: each call was accepted with its arguments or refused
      with them, and wrote one RUN message. */
  predicate Follows(s: Sys, es: seq<Env>, t: Sys)
  {
    && t.accepted == s.accepted + CallArgs(es, true)
    && t.refused == s.refused + CallArgs(es, false)
    && RunsWritten(t) == RunsWritten(s) + |CallArgs(es, true)| + |CallArgs(es, false)|
  }

  lemma FollowsTwice(s: Sys, a: seq<Env>, t: Sys, b: seq<Env>, u: Sys)
    requires Follows(s, a, t) && Follows(t, b, u)
    ensures Follows(s, a + b, u)
  {
    CallArgsConcat(a, b, true);
    CallArgsConcat(a, b, false);
    Regroup(s.accepted, CallArgs(a, true), CallArgs(b, true));
    Regroup(s.refused, CallArgs(a, false), CallArgs(b, false));
  }

  lemma EnvStepFollows(s: Sys, foreign: set<int>, e: Env)
    ensures Follows(s, [e], EnvStep(s, foreign, e))
  {
    assert [e][1..] == [];
    assert CallArgs([e][1..], true) == CallArgs([e][1..], false) == [];
  }

  lemma {:induction false} EnvStepsFollow(s: Sys, foreign: set<int>, es: seq<Env>)
    ensures Follows(s, es, EnvSteps(s, foreign, es))
    decreases |es|
  {
    if es != [] {
      var t := EnvStep(s, foreign, es[0]);
      EnvStepFollows(s, foreign, es[0]);
      EnvStepsFollow(t, foreign, es[1..]);
      FollowsTwice(s, [es[0]], t, es[1..], EnvSteps(s, foreign, es));
      assert es == [es[0]] + es[1..];
    }
  }

  lemma RunEntryFollows(s: Sys, foreign: set<int>, id: nat, sc: Script, t: Sys)
    requires t == RunEntry(s, foreign, id, sc)
    ensures Follows(s, ScriptEnvs(sc), t)
  {
    var begun := Begin(s, id);
    var done := EnvSteps(begun, foreign, sc.during);
    var looked := EnvSteps(done, foreign, sc.beforeAccess);
    EnvStepsFollow(begun, foreign, sc.during);
    EnvStepsFollow(done, foreign, sc.beforeAccess);
    EnvStepsFollow(looked, foreign, sc.afterAccess);
    FollowsTwice(begun, sc.during, done, sc.beforeAccess, looked);
    FollowsTwice(begun, sc.during + sc.beforeAccess, looked, sc.afterAccess, EnvSteps(looked, foreign, sc.afterAccess));
  }

  lemma {:induction false} BatchFollows(s: Sys, foreign: set<int>, ids: seq<nat>, scripts: seq<Script>, n: nat, t: Sys)
    requires n <= |ids| && t == RunBatch(s, foreign, ids, scripts, n)
    ensures Follows(s, BatchEnvs(scripts, n), t)
    decreases n
  {
    if n > 0 {
      var u := RunBatch(s, foreign, ids, scripts, n - 1);
      BatchFollows(s, foreign, ids, scripts, n - 1, u);
      RunEntryFollows(u, foreign, ids[n - 1], ScriptAt(scripts, n - 1), t);
      FollowsTwice(s, BatchEnvs(scripts, n - 1), u, ScriptEnvs(ScriptAt(scripts, n - 1)), t);
    }
  }

  lemma StepFollows(s: Sys, foreign: set<int>, e: Event)
    ensures Follows(s, EventEnvs(s, e), Step(s, foreign, e))
  {
    if e.Outside? {
      EnvStepFollows(s, foreign, e.env);
    } else if s.pipe != [] {
      assert s.pipe == [s.pipe[0]] + s.pipe[1..];
      if s.pipe[0].RunMsg? {
        var t, ids := s.(pipe := s.pipe[1..], bounds := s.bounds + [s.next]), InitIds(s.queue);
        BatchFollows(t, foreign, ids, e.scripts, |ids|, Step(s, foreign, e));
      }
    }
  }

  /** In every run the accepted calls are, in order and with their arguments, the calls
      made whose allocation succeeded; the refused ones likewise; and every call,
      accepted or refused, wrote one RUN message. */
  lemma {:induction false} CallsInOrder(foreign: set<int>, events: seq<Event>)
    ensures var s, es := Run(START, foreign, events), Happened(foreign, events);
            && s.accepted == CallArgs(es, true) && s.refused == CallArgs(es, false)
            && RunsWritten(s) == |CallArgs(es, true)| + |CallArgs(es, false)|
  {
    if events != [] {
      var init, e := events[..|events| - 1], events[|events| - 1];
      var s := Run(START, foreign, init);
      CallsInOrder(foreign, init);
      StepFollows(s, foreign, e);
      CallArgsConcat(Happened(foreign, init), EventEnvs(s, e), true);
      CallArgsConcat(Happened(foreign, init), EventEnvs(s, e), false);
    }
  }
}
