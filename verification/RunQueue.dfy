/** The asynchronous action protocol on values: the run queue, the core pipe and
    the server's children. `Server` runs these steps on a linked list. */
module RunQueue {
  import opened Wrappers

  datatype State = Init | Running | Done

  /** A run-queue entry. `id` numbers the accepted calls; `args` holds the heap
      strings the entry owns. */
  datatype Entry = Entry(id: nat, state: State, pid: int, args: seq<Option<int>>)

  datatype Msg = RunMsg | ClearMsg(pid: int)

  /** `live` holds the server's children that have not been reaped. The rest is
      history: the arguments of every accepted and of every refused call, the ids
      run so far, the number of calls accepted at each RUN dispatch, the entries
      deleted and the strings freed, and the ids whose action named a process that
      is not a child of the server. */
  datatype Sys = Sys(queue: seq<Entry>, pipe: seq<Msg>, live: set<int>,
                     accepted: seq<seq<Option<int>>>, refused: seq<seq<Option<int>>>,
                     log: seq<nat>, bounds: seq<nat>, removed: seq<Entry>,
                     released: seq<int>, adopted: set<nat>)
  {
    const next: nat := |accepted|
  }

  const START := Sys([], [], {}, [], [], [], [], [], [], {})

  // ---- What can happen at any moment ----

  /** A call that is or is not accepted (its allocation may fail), a fork, or the
      death of a child, whose SIGCHLD is handled at once. */
  datatype Env = Call(accepted: bool, args: seq<Option<int>>) | Fork(pid: int) | ChildExit(pid: int)

  function EnvStep(s: Sys, foreign: set<int>, e: Env): Sys
  {
    match e
    case Call(true, args) =>
      s.(queue := [Entry(s.next, Init, 0, args)] + s.queue, accepted := s.accepted + [args], pipe := s.pipe + [RunMsg])
    case Call(false, args) => s.(refused := s.refused + [args], pipe := s.pipe + [RunMsg])
    case Fork(p) =>
      if p > 0 && p !in s.live && p !in foreign && ClearMsg(p) !in s.pipe then s.(live := s.live + {p}) else s
    case ChildExit(p) =>
      if p in s.live then s.(live := s.live - {p}, pipe := s.pipe + [ClearMsg(p)]) else s
  }

  function EnvSteps(s: Sys, foreign: set<int>, es: seq<Env>): Sys
    decreases |es|
  {
    if es == [] then s else EnvSteps(EnvStep(s, foreign, es[0]), foreign, es[1..])
  }

  // ---- Running one entry ----

  /** One execution of an action: what happens while it runs, its result, and what
      happens just before and just after its result is looked up in /proc. */
  datatype Script = Script(during: seq<Env>, ret: int, beforeAccess: seq<Env>, afterAccess: seq<Env>)

  function Update(q: seq<Entry>, id: nat, state: State, pid: int): (r: seq<Entry>)
    ensures |r| == |q|
    ensures forall i :: 0 <= i < |q| ==>
      r[i] == if q[i].id == id then q[i].(state := state, pid := pid) else q[i]
  {
    seq(|q|, i requires 0 <= i < |q| => if q[i].id == id then q[i].(state := state, pid := pid) else q[i])
  }

  function Begin(s: Sys, id: nat): Sys
  {
    s.(queue := Update(s.queue, id, Running, 0), log := s.log + [id])
  }

  /** Is `ret` the pid of a process that exists? */
  predicate Accessible(s: Sys, foreign: set<int>, ret: int)
  {
    ret > 0 && (ret in s.live || ret in foreign)
  }

  function Finish(s: Sys, id: nat): Sys
  {
    s.(queue := Update(s.queue, id, Done, -1), pipe := s.pipe + [ClearMsg(-1)])
  }

  function Assign(s: Sys, foreign: set<int>, id: nat, pid: int): Sys
  {
    s.(queue := Update(s.queue, id, Running, pid),
       adopted := if pid in foreign then s.adopted + {id} else s.adopted)
  }

  function RunEntry(s: Sys, foreign: set<int>, id: nat, sc: Script): Sys
  {
    var looked := EnvSteps(EnvSteps(Begin(s, id), foreign, sc.during), foreign, sc.beforeAccess);
    var settled := EnvSteps(looked, foreign, sc.afterAccess);
    if Accessible(looked, foreign, sc.ret) then Assign(settled, foreign, id, sc.ret) else Finish(settled, id)
  }

  // ---- One dispatch ----

  function InitIds(q: seq<Entry>): seq<nat>
  {
    if q == [] then []
    else if q[0].state == Init then [q[0].id] + InitIds(q[1..])
    else InitIds(q[1..])
  }

  function ScriptAt(scripts: seq<Script>, i: nat): Script
  {
    if i < |scripts| then scripts[i] else Script([], 0, [], [])
  }

  /** Runs the first `n` of `ids` in order. */
  function RunBatch(s: Sys, foreign: set<int>, ids: seq<nat>, scripts: seq<Script>, n: nat): Sys
    requires n <= |ids|
  {
    if n == 0 then s
    else RunEntry(RunBatch(s, foreign, ids, scripts, n - 1), foreign, ids[n - 1], ScriptAt(scripts, n - 1))
  }

  /** The entries whose forked pid is, or is not, `pid`, in queue order. */
  function ByPid(q: seq<Entry>, pid: int, equal: bool): (r: seq<Entry>)
    ensures forall e :: e in r <==> e in q && (e.pid == pid) == equal
  {
    if q == [] then []
    else if (q[0].pid == pid) == equal then [q[0]] + ByPid(q[1..], pid, equal)
    else ByPid(q[1..], pid, equal)
  }

  function Strings(args: seq<Option<int>>): seq<int>
  {
    if args == [] then []
    else if args[0].Some? then [args[0].value] + Strings(args[1..])
    else Strings(args[1..])
  }

  /** The strings owned by `q`, in order. */
  function Owned(q: seq<Entry>): seq<int>
  {
    if q == [] then [] else Strings(q[0].args) + Owned(q[1..])
  }

  lemma {:induction false} OwnedConcat(a: seq<Entry>, b: seq<Entry>)
    ensures Owned(a + b) == Owned(a) + Owned(b)
  {
    if a == [] {
      assert a + b == b;
    } else {
      var whole, rest, first := a + b, a[1..], Strings(a[0].args);
      assert whole[0] == a[0] && whole[1..] == rest + b;
      OwnedConcat(rest, b);
      Regroup(first, Owned(rest), Owned(b));
    }
  }

  function Clear(s: Sys, pid: int): Sys
  {
    var gone := ByPid(s.queue, pid, true);
    s.(queue := ByPid(s.queue, pid, false), removed := s.removed + gone, released := s.released + Owned(gone))
  }

  function Dispatch(s: Sys, foreign: set<int>, scripts: seq<Script>): Sys
  {
    if s.pipe == [] then s
    else
      var t := s.(pipe := s.pipe[1..]);
      match s.pipe[0]
      case RunMsg =>
        var ids := InitIds(t.queue);
        RunBatch(t.(bounds := t.bounds + [t.next]), foreign, ids, scripts, |ids|)
      case ClearMsg(p) => Clear(t, p)
  }

  // ---- Runs ----

  datatype Event = Outside(env: Env) | Dispatched(scripts: seq<Script>)

  /** Does the event read a RUN message in state `s`? */
  predicate ReadsRun(s: Sys, e: Event)
  {
    e.Dispatched? && s.pipe != [] && s.pipe[0].RunMsg?
  }

  /** Does the event read the CLEAR message of `pid`? */
  predicate ReadsClear(s: Sys, e: Event, pid: int)
  {
    e.Dispatched? && s.pipe != [] && s.pipe[0] == ClearMsg(pid)
  }

  function Step(s: Sys, foreign: set<int>, e: Event): Sys
  {
    match e
    case Outside(env) => EnvStep(s, foreign, env)
    case Dispatched(scripts) => Dispatch(s, foreign, scripts)
  }

  function Run(s: Sys, foreign: set<int>, events: seq<Event>): Sys
  {
    if events == [] then s
    else Step(Run(s, foreign, events[..|events| - 1]), foreign, events[|events| - 1])
  }

  // ---- The order of execution ----

  /** hi-1, hi-2, ..., lo. */
  function Down(lo: nat, hi: nat): seq<nat>
    decreases hi
  {
    if hi <= lo then [] else [hi - 1] + Down(lo, hi - 1)
  }

  function Last(bounds: seq<nat>): nat
  {
    if bounds == [] then 0 else bounds[|bounds| - 1]
  }

  /** Consecutive blocks, each newest first. */
  function Blocks(bounds: seq<nat>): seq<nat>
  {
    if bounds == [] then []
    else Blocks(bounds[..|bounds| - 1]) + Down(Last(bounds[..|bounds| - 1]), Last(bounds))
  }
}
