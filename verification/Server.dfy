/** The run queue as the server keeps it: entries updated in place on a linked
    list, a pipe, and the kernel's view of the server's children. Every method is
    tied to the step of `RunQueue` it performs. */
module Server {
  import opened Wrappers
  import opened EinaList
  import opened RunQueue

  /** One call waiting, running or done. `id` is only used to talk about it. */
  class RunQueueEntry {
    ghost const id: nat
    const argv: seq<Option<int>>
    var state: State
    var forkedPid: int

    constructor (ghost id: nat, argv: seq<Option<int>>)
      ensures this.id == id && this.argv == argv && state == Init && forkedPid == 0
    {
      this.id, this.argv, state, forkedPid := id, argv, Init, 0;
    }

    ghost function Value(): Entry
      reads this
    {
      Entry(id, state, forkedPid, argv)
    }
  }

  /** The entries' present field values. */
  ghost function Snapshot(entries: seq<RunQueueEntry>): (q: seq<Entry>)
    reads entries
    ensures |q| == |entries|
    ensures forall i :: 0 <= i < |q| ==> q[i] == entries[i].Value()
  {
    seq(|entries|, i requires 0 <= i < |entries| reads entries => entries[i].Value())
  }

  lemma SnapshotPush(entry: RunQueueEntry, entries: seq<RunQueueEntry>)
    ensures Snapshot([entry] + entries) == [entry.Value()] + Snapshot(entries)
  {
  }

  ghost predicate DistinctIds(entries: seq<RunQueueEntry>, bound: nat)
  {
    forall i, j :: 0 <= i <= j < |entries| ==>
      entries[j].id < bound && (i < j ==> entries[i].id != entries[j].id)
  }

  lemma DistinctIdsPush(entry: RunQueueEntry, entries: seq<RunQueueEntry>, bound: nat)
    requires DistinctIds(entries, bound) && entry.id == bound
    ensures DistinctIds([entry] + entries, bound + 1)
  {
  }

  /** `b` is `a` with more in front. */
  ghost predicate Behind<T>(a: seq<T>, b: seq<T>)
  {
    |a| <= |b| && forall i :: 0 <= i < |a| ==> a[i] == b[|b| - |a| + i]
  }

  lemma BehindTransitive<T>(a: seq<T>, b: seq<T>, c: seq<T>)
    requires Behind(a, b) && Behind(b, c)
    ensures Behind(a, c)
  {
  }

  lemma BehindContains(a: seq<Node<RunQueueEntry>>, b: seq<Node<RunQueueEntry>>, e: RunQueueEntry)
    requires Behind(a, b) && e in Values(a)
    ensures e in Values(b)
  {
  }

  class ActionServer {
    const runQueue: List<RunQueueEntry>
    var pipe: seq<Msg>
    var live: set<int>
    var released: seq<int>
    const foreign: set<int>
    ghost var entries: seq<RunQueueEntry>
    ghost var accepted: seq<seq<Option<int>>>
    ghost var refused: seq<seq<Option<int>>>
    ghost var log: seq<nat>
    ghost var bounds: seq<nat>
    ghost var removed: seq<Entry>
    ghost var adopted: set<nat>

    ghost predicate Valid()
      reads this`accepted, this`entries, runQueue, runQueue.footprint
    {
      && runQueue.Valid() && runQueue.Contents() == entries
      && DistinctIds(entries, |accepted|)
    }

    /** The protocol state this server is in. */
    ghost function Abs(): Sys
      reads this, entries
    {
      Sys(Snapshot(entries), pipe, live, accepted, refused, log, bounds, removed, released, adopted)
    }

    /** The part of the state that a deletion leaves alone. */
    ghost function Others(): Sys
      reads this
    {
      Sys([], pipe, live, accepted, refused, log, bounds, [], [], adopted)
    }

    constructor (foreign: set<int>)
      ensures Valid() && Abs() == START && this.foreign == foreign && fresh(runQueue)
    {
      this.foreign := foreign;
      runQueue := new List();
      pipe, live, released := [], {}, [];
      entries, accepted, refused, log, bounds, removed, adopted := [], [], [], [], [], [], {};
    }

    method CoreActionRun()
      requires Valid()
      modifies this`pipe
      ensures Valid() && Snapshot(entries) == old(Snapshot(entries))
      ensures pipe == old(pipe) + [RunMsg]
    {
      pipe := pipe + [RunMsg];
    }

    method CoreActionClear(pid: int)
      requires Valid()
      modifies this`pipe
      ensures Valid() && Snapshot(entries) == old(Snapshot(entries))
      ensures pipe == old(pipe) + [ClearMsg(pid)]
    {
      pipe := pipe + [ClearMsg(pid)];
    }

    /** New nodes may be in front; the old chain is untouched behind them. */
    twostate predicate Extends()
      reads runQueue
    {
      Behind(old(runQueue.nodes), runQueue.nodes)
    }

    method Push(entry: RunQueueEntry)
      requires Valid() && entry.id == |accepted|
      modifies this`entries, this`accepted, runQueue
      ensures Valid() && Extends()
      ensures entries == [entry] + old(entries) && accepted == old(accepted) + [entry.argv]
      ensures Snapshot(entries) == old(Snapshot([entry] + entries))
    {
      DistinctIdsPush(entry, entries, |accepted|);
      runQueue.Prepend(entry);
      entries, accepted := [entry] + entries, accepted + [entry.argv];
    }

    method Refuse(argv: seq<Option<int>>)
      requires Valid()
      modifies this`refused
      ensures Valid() && Abs() == old(Abs()).(refused := old(refused) + [argv])
    {
      ghost var queue := Snapshot(entries);
      refused := refused + [argv];
      assert Snapshot(entries) == queue;
    }

    /** A fresh entry in front of the queue. */
    method Accept(argv: seq<Option<int>>)
      requires Valid()
      modifies this`entries, this`accepted, runQueue
      ensures Valid() && Extends()
      ensures Abs() == old(Abs()).(queue := [Entry(|old(accepted)|, Init, 0, argv)] + old(Snapshot(entries)),
                                   accepted := old(accepted) + [argv])
    {
      var entry := new RunQueueEntry(|accepted|, argv);
      SnapshotPush(entry, entries);
      Push(entry);
    }

    method RunQueueAdd(argv: seq<Option<int>>, mallocOk: bool) returns (ret: int)
      requires Valid()
      modifies this, runQueue
      ensures Valid() && Extends()
      ensures ret == if mallocOk then 0 else -1
      ensures Abs() == if !mallocOk then old(Abs()).(refused := old(refused) + [argv])
                       else old(Abs()).(queue := [Entry(|old(accepted)|, Init, 0, argv)] + old(Snapshot(entries)),
                                        accepted := old(accepted) + [argv])
    {
      if !mallocOk {
        Refuse(argv);
        return -1;
      }
      Accept(argv);
      ret := 0;
    }

    /** Queues a call and wakes the dispatcher, even when the queueing failed. */
    method EntryCall(argv: seq<Option<int>>, mallocOk: bool)
      requires Valid()
      modifies this, runQueue
      ensures Valid() && Extends()
      ensures Abs() == EnvStep(old(Abs()), foreign, Call(mallocOk, argv))
    {
      var _ := RunQueueAdd(argv, mallocOk);
      CoreActionRun();
    }

    method ForkChild(pid: int)
      requires Valid()
      modifies this`live
      ensures Valid() && Extends()
      ensures Abs() == EnvStep(old(Abs()), foreign, Fork(pid))
    {
      if pid > 0 && pid !in live && pid !in foreign && ClearMsg(pid) !in pipe {
        live := live + {pid};
      }
    }

    /** A child dies and the SIGCHLD handler reaps and announces it. */
    method SigChild(pid: int)
      requires Valid()
      modifies this`live, this`pipe
      ensures Valid() && Extends()
      ensures Abs() == EnvStep(old(Abs()), foreign, ChildExit(pid))
    {
      ghost var queue := Snapshot(entries);
      if pid in live {
        live := live - {pid};
        CoreActionClear(pid);
      }
      assert Snapshot(entries) == queue;
    }

    /** What the rest of the system does: a call, a fork, or SIGCHLD. */
    method Happen(e: Env)
      requires Valid()
      modifies this, runQueue
      ensures Valid() && Extends()
      ensures Abs() == EnvStep(old(Abs()), foreign, e)
    {
      match e
      case Call(mallocOk, argv) => EntryCall(argv, mallocOk);
      case Fork(pid) => ForkChild(pid);
      case ChildExit(pid) => SigChild(pid);
    }

    method HappenAll(es: seq<Env>)
      requires Valid()
      modifies this, runQueue
      ensures Valid() && Extends()
      ensures Abs() == EnvSteps(old(Abs()), foreign, es)
      decreases |es|
    {
      if es != [] {
        ghost var start := runQueue.nodes;
        Happen(es[0]);
        ghost var middle := runQueue.nodes;
        HappenAll(es[1..]);
        BehindTransitive(start, middle, runQueue.nodes);
      }
    }

    /** Overwrites one entry's fields. */
    method SetEntry(entry: RunQueueEntry, state: State, pid: int)
      requires Valid() && entry in entries
      modifies entry
      ensures Valid() && unchanged(this) && unchanged(runQueue)
      ensures Snapshot(entries) == Update(old(Snapshot(entries)), entry.id, state, pid)
    {
      entry.state, entry.forkedPid := state, pid;
    }

    method BeginAction(entry: RunQueueEntry)
      requires Valid() && entry in entries
      modifies this`log, entry
      ensures Valid() && unchanged(runQueue) && entries == old(entries)
      ensures Abs() == Begin(old(Abs()), entry.id)
    {
      SetEntry(entry, Running, 0);
      ghost var queue := Snapshot(entries);
      log := log + [entry.id];
      assert Snapshot(entries) == queue;
    }

    /** Binds an entry to the process its action named. */
    method Bind(entry: RunQueueEntry, pid: int)
      requires Valid() && entry in entries
      modifies this`adopted, entry
      ensures Valid() && unchanged(runQueue) && entries == old(entries)
      ensures Abs() == Assign(old(Abs()), foreign, entry.id, pid)
    {
      SetEntry(entry, Running, pid);
      ghost var queue := Snapshot(entries);
      adopted := if pid in foreign then adopted + {entry.id} else adopted;
      assert Snapshot(entries) == queue;
    }

    /** Marks an entry finished and announces it. */
    method FastDone(entry: RunQueueEntry)
      requires Valid() && entry in entries
      modifies this`pipe, entry
      ensures Valid() && unchanged(runQueue) && entries == old(entries)
      ensures Abs() == Finish(old(Abs()), entry.id)
    {
      SetEntry(entry, Done, -1);
      CoreActionClear(-1);
    }

    /** Everything that happens during three stretches of an action, with the
        lookup of its result between the second and the third. */
    method Execute(sc: Script) returns (accessible: bool)
      requires Valid()
      modifies this, runQueue
      ensures Valid() && Extends()
      ensures var looked := EnvSteps(EnvSteps(old(Abs()), foreign, sc.during), foreign, sc.beforeAccess);
              accessible == Accessible(looked, foreign, sc.ret) &&
              Abs() == EnvSteps(looked, foreign, sc.afterAccess)
    {
      ghost var start := runQueue.nodes;
      HappenAll(sc.during);
      ghost var ran := runQueue.nodes;
      HappenAll(sc.beforeAccess);
      ghost var looked := runQueue.nodes;
      BehindTransitive(start, ran, looked);
      accessible := sc.ret > 0 && (sc.ret in live || sc.ret in foreign);
      HappenAll(sc.afterAccess);
      BehindTransitive(start, looked, runQueue.nodes);
    }

    /** Executes one INIT entry. */
    method ActionRun(entry: RunQueueEntry, sc: Script)
      requires Valid() && entry in entries
      modifies this, runQueue, entry
      ensures Valid() && Extends()
      ensures Abs() == RunEntry(old(Abs()), foreign, entry.id, sc)
    {
      ghost var start := runQueue.nodes;
      BeginAction(entry);
      var accessible := Execute(sc);
      ghost var nodes := runQueue.nodes;
      BehindContains(start, nodes, entry);
      if accessible {
        Bind(entry, sc.ret);
      } else {
        FastDone(entry);
      }
      assert runQueue.nodes == nodes;
    }

    /** From position `i` on, the walked entries are as they were at the start. */
    static ghost predicate Pristine(walked: seq<RunQueueEntry>, q: seq<Entry>, i: nat)
      reads walked
    {
      |walked| == |q| && forall j :: i <= j < |q| ==> walked[j].Value() == q[j]
    }

    lemma LaterDiffer(walked: seq<RunQueueEntry>, bound: nat, i: nat)
      requires DistinctIds(walked, bound)
      ensures forall j :: i < j < |walked| ==> walked[j] != walked[i]
    {
    }

    method RunNext(entry: RunQueueEntry, sc: Script, ghost walked: seq<RunQueueEntry>, ghost q: seq<Entry>,
                   ghost i: nat, ghost bound: nat)
      requires Valid() && i < |walked| && entry == walked[i] && entry in entries
      requires DistinctIds(walked, bound) && Pristine(walked, q, i)
      modifies this, runQueue, entry
      ensures Valid() && Extends() && Pristine(walked, q, i + 1)
      ensures Abs() == RunEntry(old(Abs()), foreign, entry.id, sc)
    {
      LaterDiffer(walked, bound, i);
      ActionRun(entry, sc);
    }

    /** What the walk has done when `done` are the ids it has run and position `i`
        is next. */
    ghost predicate Walked(start: Sys, q: seq<Entry>, scripts: seq<Script>, done: seq<nat>, i: nat)
      reads this, entries
    {
      i <= |q| && InitIds(q) == done + InitIds(q[i..]) &&
      Abs() == RunBatch(start, foreign, InitIds(q), scripts, |done|)
    }

    lemma WalkStarts(scripts: seq<Script>)
      ensures Walked(Abs(), Snapshot(entries), scripts, [], 0)
    {
    }

    lemma WalkEnds(start: Sys, q: seq<Entry>, scripts: seq<Script>, done: seq<nat>)
      requires Walked(start, q, scripts, done, |q|)
      ensures Abs() == RunBatch(start, foreign, InitIds(q), scripts, |InitIds(q)|)
    {
    }

    lemma WalkOver(start: Sys, q: seq<Entry>, scripts: seq<Script>, done: seq<nat>, i: nat)
      requires Walked(start, q, scripts, done, i) && i < |q| && q[i].state != Init
      ensures Walked(start, q, scripts, done, i + 1)
    {
    }

    lemma WalkTo(q: seq<Entry>, done: seq<nat>, i: nat)
      requires i < |q| && q[i].state == Init && InitIds(q) == done + InitIds(q[i..])
      ensures InitIds(q) == (done + [q[i].id]) + InitIds(q[i + 1..])
    {
    }

    lemma NextNode(nodes: seq<Node<RunQueueEntry>>, i: nat)
      requires runQueue.Valid() && Behind(nodes, runQueue.nodes) && i < |nodes|
      ensures nodes[i].next == if i + 1 < |nodes| then nodes[i + 1] else null
    {
    }

    /** The body of the walk. */
    method Visit(entry: RunQueueEntry, scripts: seq<Script>, count: nat, ghost start: Sys,
                 ghost walked: seq<RunQueueEntry>, ghost q: seq<Entry>, ghost done: seq<nat>, ghost i: nat,
                 ghost bound: nat)
      returns (count': nat, ghost done': seq<nat>)
      requires Valid() && i < |walked| && entry == walked[i] && entry in entries
      requires DistinctIds(walked, bound) && Pristine(walked, q, i)
      requires Walked(start, q, scripts, done, i) && count == |done|
      modifies this, runQueue, entry
      ensures Valid() && Extends() && Pristine(walked, q, i + 1)
      ensures Walked(start, q, scripts, done', i + 1) && count' == |done'|
    {
      count', done' := count, done;
      if entry.state == Init {
        WalkTo(q, done, i);
        RunNext(entry, ScriptAt(scripts, count), walked, q, i, bound);
        count', done' := count + 1, done + [entry.id];
      } else {
        WalkOver(start, q, scripts, done, i);
      }
    }

    /** The walk stands at `tmp`, position `i` of the chain it started on. */
    ghost predicate InWalk(tmp: Node?<RunQueueEntry>, nodes: seq<Node<RunQueueEntry>>, i: nat)
      reads runQueue
    {
      i <= |nodes| && Behind(nodes, runQueue.nodes) && tmp == if i < |nodes| then nodes[i] else null
    }

    /** One turn of the walk: the next node is read before the entry runs. */
    method Advance(tmp: Node<RunQueueEntry>, scripts: seq<Script>, count: nat, ghost start: Sys,
                   ghost nodes: seq<Node<RunQueueEntry>>, ghost q: seq<Entry>, ghost done: seq<nat>, ghost i: nat,
                   ghost bound: nat)
      returns (next: Node?<RunQueueEntry>, count': nat, ghost done': seq<nat>)
      requires Valid() && InWalk(tmp, nodes, i) && DistinctIds(Values(nodes), bound)
      requires Pristine(Values(nodes), q, i)
      requires Walked(start, q, scripts, done, i) && count == |done|
      modifies this, runQueue, tmp.data
      ensures Valid() && InWalk(next, nodes, i + 1) && Pristine(Values(nodes), q, i + 1)
      ensures Walked(start, q, scripts, done', i + 1) && count' == |done'|
    {
      next := tmp.next;
      ghost var before := runQueue.nodes;
      BehindContains(nodes, before, tmp.data);
      NextNode(nodes, i);
      count', done' := Visit(tmp.data, scripts, count, start, Values(nodes), q, done, i, bound);
      BehindTransitive(nodes, before, runQueue.nodes);
    }

    /** Runs every entry that is INIT when the walk reaches it. Entries that the
        actions prepend are behind the walk and wait for their own RUN. */
    method QueueRun(scripts: seq<Script>)
      requires Valid()
      modifies this, runQueue, entries
      ensures Valid()
      ensures var ids := InitIds(old(Snapshot(entries)));
              Abs() == RunBatch(old(Abs()), foreign, ids, scripts, |ids|)
    {
      ghost var q, nodes, done, i := Snapshot(entries), runQueue.nodes, [], 0;
      WalkStarts(scripts);
      var tmp, count := runQueue.head, 0;
      while tmp != null
        invariant Valid() && InWalk(tmp, nodes, i) && Pristine(Values(nodes), q, i)
        invariant Walked(old(Abs()), q, scripts, done, i) && count == |done|
        decreases |nodes| - i
      {
        tmp, count, done := Advance(tmp, scripts, count, old(Abs()), nodes, q, done, i, old(|accepted|));
        i := i + 1;
      }
      WalkEnds(old(Abs()), q, scripts, done);
    }

    /** Frees the strings of one entry. */
    method FreeArgs(argv: seq<Option<int>>)
      modifies this`released
      ensures released == old(released) + Strings(argv)
    {
      var i := 0;
      assert argv[0..] == argv;
      while i < |argv|
        invariant 0 <= i <= |argv|
        invariant released + Strings(argv[i..]) == old(released) + Strings(argv)
      {
        assert argv[i..][1..] == argv[i + 1..];
        if argv[i].Some? {
          released := released + [argv[i].value];
        }
        i := i + 1;
      }
    }

    /** The entries of `es`, whose values are `q`, that are not bound to `pid`. */
    static ghost function Unbound(es: seq<RunQueueEntry>, q: seq<Entry>, pid: int): seq<RunQueueEntry>
      requires |es| == |q|
    {
      if es == [] then []
      else (if q[0].pid == pid then [] else [es[0]]) + Unbound(es[1..], q[1..], pid)
    }

    lemma {:induction false} UnboundValues(es: seq<RunQueueEntry>, q: seq<Entry>, pid: int)
      requires Snapshot(es) == q
      ensures Snapshot(Unbound(es, q, pid)) == ByPid(q, pid, false)
    {
      if es != [] {
        UnboundValues(es[1..], q[1..], pid);
        if q[0].pid != pid {
          SnapshotPush(es[0], Unbound(es[1..], q[1..], pid));
        }
      }
    }

    /** A walk that has reached position `i` has split what it passed into `kept`
        and `gone`. */
    static ghost predicate SplitSoFar(es: seq<RunQueueEntry>, q: seq<Entry>, pid: int, i: nat,
                                      kept: seq<RunQueueEntry>, gone: seq<Entry>)
      requires |es| == |q|
    {
      i <= |q| && Unbound(es, q, pid) == kept + Unbound(es[i..], q[i..], pid) &&
      ByPid(q, pid, true) == gone + ByPid(q[i..], pid, true)
    }

    lemma SplitNext(es: seq<RunQueueEntry>, q: seq<Entry>, pid: int, i: nat,
                    kept: seq<RunQueueEntry>, gone: seq<Entry>)
      requires |es| == |q| && i < |q| && SplitSoFar(es, q, pid, i, kept, gone)
      ensures if q[i].pid == pid then SplitSoFar(es, q, pid, i + 1, kept, gone + [q[i]])
              else SplitSoFar(es, q, pid, i + 1, kept + [es[i]], gone)
    {
    }

    lemma DistinctIdsDrop(es: seq<RunQueueEntry>, bound: nat, k: nat)
      requires k < |es| && DistinctIds(es, bound)
      ensures DistinctIds(es[..k] + es[k + 1..], bound)
      ensures forall i :: 0 <= i < k ==> es[i] != es[k]
    {
    }

    /** Unlinks the node at position `k`, which holds `entry`. */
    method RemoveEntry(entry: RunQueueEntry, ghost k: nat)
      requires Valid() && k < |entries| && entries[k] == entry
      modifies this`entries, runQueue`head, runQueue`nodes, runQueue.footprint
      ensures Valid() && entries == old(entries)[..k] + old(entries)[k + 1..]
      ensures runQueue.nodes == old(runQueue.nodes[..k] + runQueue.nodes[k + 1..])
      ensures Others() == old(Others()) && removed == old(removed) && released == old(released)
      ensures runQueue.footprint == old(runQueue.footprint)
    {
      DistinctIdsDrop(entries, |accepted|, k);
      assert forall i :: 0 <= i <= k ==> runQueue.nodes[i].data == entries[i];
      ValuesWithout(runQueue.nodes, k);
      runQueue.Remove(entry, k);
      entries := entries[..k] + entries[k + 1..];
    }

    /** Since the walk began in state `was` only the entries `gone` were deleted and
        their strings freed. */
    ghost predicate Deleted(was: Sys, gone: seq<Entry>)
      reads this
    {
      removed == was.removed + gone && released == was.released + Owned(gone) &&
      Others() == was.(queue := [], removed := [], released := [])
    }

    method FreeEntry(entry: RunQueueEntry, ghost was: Sys, ghost gone: seq<Entry>)
      requires Deleted(was, gone)
      modifies this`removed, this`released
      ensures Deleted(was, gone + [entry.Value()])
    {
      removed := removed + [entry.Value()];
      FreeArgs(entry.argv);
      OwnedConcat(gone, [entry.Value()]);
      assert Owned([entry.Value()]) == Strings(entry.argv) + Owned([]);
    }

    /** One turn of the deletion walk: the next node is read before this one goes. */
    method DeleteTurn(tmp: Node<RunQueueEntry>, pid: int, ghost es: seq<RunQueueEntry>, ghost i: nat,
                      ghost kept: seq<RunQueueEntry>, ghost was: Sys, ghost gone: seq<Entry>)
      returns (next: Node?<RunQueueEntry>, ghost kept': seq<RunQueueEntry>, ghost gone': seq<Entry>)
      requires Valid() && i < |es| && entries == kept + es[i..] && tmp == runQueue.At(|kept|)
      requires Deleted(was, gone)
      modifies this`entries, this`removed, this`released, runQueue`head, runQueue`nodes, runQueue.footprint
      ensures Valid() && entries == kept' + es[i + 1..] && next == runQueue.At(|kept'|)
      ensures if es[i].forkedPid == pid then kept' == kept && gone' == gone + [es[i].Value()]
              else kept' == kept + [es[i]] && gone' == gone
      ensures Deleted(was, gone') && runQueue.footprint == old(runQueue.footprint)
    {
      ghost var k := |kept|;
      next, kept', gone' := tmp.next, kept, gone;
      var entry := tmp.data;
      assert runQueue.nodes[k].next == runQueue.At(k + 1);
      PassOne(kept, es, i);
      if entry.forkedPid == pid {
        RemoveEntry(entry, k);
        FreeEntry(entry, was, gone);
        gone' := gone + [entry.Value()];
      } else {
        kept' := kept + [entry];
      }
    }

    /** The deletion walk has passed the first `i` entries of `es` (with values `q`),
        keeping `kept` and deleting `gone`, and stands at `tmp`. */
    ghost predicate InDeletion(tmp: Node?<RunQueueEntry>, pid: int, es: seq<RunQueueEntry>, q: seq<Entry>, i: nat,
                               kept: seq<RunQueueEntry>, gone: seq<Entry>)
      requires |es| == |q|
      reads this`entries, runQueue`nodes
    {
      i <= |es| && entries == kept + es[i..] && tmp == runQueue.At(|kept|) &&
      SplitSoFar(es, q, pid, i, kept, gone)
    }

    lemma DeletionStarts(pid: int, was: Sys)
      requires Valid() && was == Abs()
      ensures InDeletion(runQueue.head, pid, entries, was.queue, 0, [], []) && Deleted(was, [])
    {
    }

    lemma DeletionAt(tmp: Node?<RunQueueEntry>, pid: int, es: seq<RunQueueEntry>, q: seq<Entry>, i: nat,
                     kept: seq<RunQueueEntry>, gone: seq<Entry>)
      requires Valid() && |es| == |q| && InDeletion(tmp, pid, es, q, i, kept, gone)
      ensures i <= |es| && (tmp == null <==> i == |es|)
    {
    }

    lemma DeletionEnds(pid: int, es: seq<RunQueueEntry>, was: Sys, kept: seq<RunQueueEntry>, gone: seq<Entry>)
      requires Pristine(es, was.queue, 0) && InDeletion(null, pid, es, was.queue, |es|, kept, gone)
      requires Deleted(was, gone)
      ensures Abs() == Clear(was, pid)
    {
      var q := was.queue;
      assert entries == kept && q[|q|..] == [] && es[|q|..] == [];
      assert Snapshot(es) == q;
      UnboundValues(es, q, pid);
      assert Snapshot(entries) == ByPid(q, pid, false) && gone == ByPid(q, pid, true);
    }

    lemma DeletionNext(next: Node?<RunQueueEntry>, pid: int, es: seq<RunQueueEntry>, q: seq<Entry>, i: nat,
                       kept: seq<RunQueueEntry>, gone: seq<Entry>, kept': seq<RunQueueEntry>, gone': seq<Entry>)
      requires i < |es| == |q| && SplitSoFar(es, q, pid, i, kept, gone)
      requires entries == kept' + es[i + 1..] && next == runQueue.At(|kept'|)
      requires if q[i].pid == pid then kept' == kept && gone' == gone + [q[i]]
               else kept' == kept + [es[i]] && gone' == gone
      ensures InDeletion(next, pid, es, q, i + 1, kept', gone')
    {
      SplitNext(es, q, pid, i, kept, gone);
    }

    method DeletionStep(tmp: Node<RunQueueEntry>, pid: int, ghost es: seq<RunQueueEntry>, ghost was: Sys,
                        ghost i: nat, ghost kept: seq<RunQueueEntry>, ghost gone: seq<Entry>)
      returns (next: Node?<RunQueueEntry>, ghost kept': seq<RunQueueEntry>, ghost gone': seq<Entry>)
      requires Valid() && Pristine(es, was.queue, 0) && i < |es|
      requires InDeletion(tmp, pid, es, was.queue, i, kept, gone) && Deleted(was, gone)
      modifies this`entries, this`removed, this`released, runQueue`head, runQueue`nodes, runQueue.footprint
      ensures Valid() && InDeletion(next, pid, es, was.queue, i + 1, kept', gone') && Deleted(was, gone')
      ensures Pristine(es, was.queue, 0) && runQueue.footprint == old(runQueue.footprint)
    {
      next, kept', gone' := DeleteTurn(tmp, pid, es, i, kept, was, gone);
      DeletionNext(next, pid, es, was.queue, i, kept, gone, kept', gone');
    }

    /** Deletes every entry bound to `pid` in one walk. */
    method QueueDelByPid(pid: int)
      requires Valid()
      modifies this`entries, this`removed, this`released, runQueue`head, runQueue`nodes, runQueue.footprint
      ensures Valid() && Abs() == Clear(old(Abs()), pid)
    {
      ghost var es, was := entries, Abs();
      ghost var kept, gone, i := [], [], 0;
      DeletionStarts(pid, was);
      var tmp := runQueue.head;
      while tmp != null
        invariant Valid() && Pristine(es, was.queue, 0) && InDeletion(tmp, pid, es, was.queue, i, kept, gone)
        invariant Deleted(was, gone) && runQueue.footprint == old(runQueue.footprint)
        decreases |es| - i
      {
        DeletionAt(tmp, pid, es, was.queue, i, kept, gone);
        tmp, kept, gone := DeletionStep(tmp, pid, es, was, i, kept, gone);
        i := i + 1;
      }
      DeletionAt(tmp, pid, es, was.queue, i, kept, gone);
      DeletionEnds(pid, es, was, kept, gone);
    }

    /** Takes the first message off the pipe. */
    method ReadPipe(ghost marks: seq<nat>) returns (msg: Msg)
      requires Valid() && pipe != []
      modifies this`pipe, this`bounds
      ensures Valid() && msg == old(pipe)[0]
      ensures Abs() == old(Abs()).(pipe := old(pipe)[1..], bounds := marks)
    {
      ghost var queue := Snapshot(entries);
      msg := pipe[0];
      pipe, bounds := pipe[1..], marks;
      assert Snapshot(entries) == queue;
    }

    /** The pipe handler: one message, one dispatch. */
    method CorePipeCb(scripts: seq<Script>)
      requires Valid()
      modifies this, runQueue, runQueue.footprint, entries
      ensures Valid() && Abs() == Dispatch(old(Abs()), foreign, scripts)
    {
      if pipe == [] {
        return;
      }
      var msg := ReadPipe(if pipe[0].RunMsg? then bounds + [|accepted|] else bounds);
      match msg
      case RunMsg => QueueRun(scripts);
      case ClearMsg(pid) => QueueDelByPid(pid);
    }
  }
}
