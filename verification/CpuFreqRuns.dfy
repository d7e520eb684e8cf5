/** Whole histories of frequency requests: the list agrees with the simple map of
    live requests, and what is written is its bound. */
module CpuFreqRuns {
  import opened Wrappers
  import opened CpuFreq

  function Run(isMax: bool, limit: Int32, history: seq<Op>): Side
  {
    if history == [] then Side([], NoCap(isMax), [])
    else Step(isMax, limit, Run(isMax, limit, history[..|history| - 1]), history[|history| - 1])
  }

  /** The request of `p` in force: its last successful one, if `p` neither withdrew
      nor failed to be recorded since, and was alive at every later operation that
      looks. */
  function Holder(history: seq<Op>, p: int): Option<Int32>
  {
    if history == [] then None
    else
      var before := history[..|history| - 1];
      match history[|history| - 1]
      case Request(q, freq, alive, mallocOk) =>
        if p == q then (if mallocOk then Some(freq) else None)
        else if p in alive then Holder(before, p) else None
      case Withdraw(q, alive) => if p != q && p in alive then Holder(before, p) else None
      case SavingOff(q, alive) => if p != q && p in alive then Holder(before, p) else None
      case Rewrite => Holder(before, p)
  }

  // ---- The list is the map of requests in force ----

  lemma {:induction false} PurgeKeepsUnique(list: seq<FreqEntry>, pid: int, alive: set<int>)
    requires UniquePids(list)
    ensures UniquePids(Purge(list, pid, alive))
  {
    if list != [] {
      var n := |list| - 1;
      PurgeKeepsUnique(list[..n], pid, alive);
      var kept := Purge(list[..n], pid, alive);
      forall i | 0 <= i < |kept| ensures kept[i].pid != list[n].pid {
        assert kept[i] in list[..n];
      }
    }
  }

  lemma StepKeepsUnique(isMax: bool, limit: Int32, s: Side, op: Op)
    requires UniquePids(s.list)
    ensures UniquePids(Step(isMax, limit, s, op).list)
  {
    if !op.Rewrite? {
      PurgeKeepsUnique(s.list, op.pid, op.alive);
      if op.Request? && op.mallocOk {
        UniquePush(Purge(s.list, op.pid, op.alive), FreqEntry(op.pid, op.freq));
      }
    }
  }

  lemma {:induction false} ListIsHolders(isMax: bool, limit: Int32, history: seq<Op>)
    ensures UniquePids(Run(isMax, limit, history).list)
    ensures forall p, f: Int32 :: FreqEntry(p, f) in Run(isMax, limit, history).list <==> Holder(history, p) == Some(f)
  {
    if history != [] {
      var before, op := history[..|history| - 1], history[|history| - 1];
      ListIsHolders(isMax, limit, before);
      StepKeepsUnique(isMax, limit, Run(isMax, limit, before), op);
    }
  }

  // ---- What is written ----

  /** `v` is the tightest request in force after `history`, or the marker when there
      is none that binds. */
  ghost predicate IsBound(isMax: bool, history: seq<Op>, v: Int32)
  {
    && (forall p, f :: Holder(history, p) == Some(f) ==> !Tighter(isMax, f, v))
    && (v == NoCap(isMax) || exists p :: Holder(history, p) == Some(v))
  }

  lemma {:induction false} CapBounds(isMax: bool, list: seq<FreqEntry>)
    ensures forall e :: e in list ==> !Tighter(isMax, e.freq, CapOf(isMax, list))
    ensures CapOf(isMax, list) == NoCap(isMax) || exists e :: e in list && e.freq == CapOf(isMax, list)
  {
    if list != [] {
      CapBounds(isMax, list[..|list| - 1]);
      assert list == list[..|list| - 1] + [list[|list| - 1]];
    }
  }

  /** The bound of the list is the bound of the requests in force. */
  lemma CapIsBound(isMax: bool, limit: Int32, history: seq<Op>)
    ensures IsBound(isMax, history, CapOf(isMax, Run(isMax, limit, history).list))
  {
    var list := Run(isMax, limit, history).list;
    ListIsHolders(isMax, limit, history);
    CapBounds(isMax, list);
    var v := CapOf(isMax, list);
    forall p, f | Holder(history, p) == Some(f) ensures !Tighter(isMax, f, v) {
      assert FreqEntry(p, f) in list;
    }
    if v != NoCap(isMax) {
      var e :| e in list && e.freq == v;
      assert FreqEntry(e.pid, e.freq) in list;
    }
  }

  /** The value an operation writes, if any. */
  function Written(isMax: bool, limit: Int32, history: seq<Op>): Option<Int32>
    requires history != []
  {
    var writes := Run(isMax, limit, history).writes;
    if history[|history| - 1].Request? && !history[|history| - 1].mallocOk then None
    else Some(writes[|writes| - 1])
  }

  lemma {:induction false} CapOfPush(isMax: bool, e: FreqEntry, list: seq<FreqEntry>)
    ensures CapOf(isMax, [e] + list) == Tightest(isMax, e.freq, CapOf(isMax, list))
  {
    if list == [] {
      assert ([e] + list)[..0] == [];
    } else {
      CapOfPush(isMax, e, list[..|list| - 1]);
      assert ([e] + list)[..|list|] == [e] + list[..|list| - 1];
    }
  }

  lemma BoundIsUnique(isMax: bool, history: seq<Op>, v: Int32, w: Int32)
    requires IsBound(isMax, history, v) && IsBound(isMax, history, w)
    ensures v == w
  {
  }

  lemma RequestWritesCap(isMax: bool, limit: Int32, history: seq<Op>)
    requires history != [] && history[|history| - 1].Request? && history[|history| - 1].mallocOk
    ensures Written(isMax, limit, history) == Some(CapOf(isMax, Run(isMax, limit, history).list))
  {
    var before, op := history[..|history| - 1], history[|history| - 1];
    CapOfPush(isMax, FreqEntry(op.pid, op.freq), Purge(Run(isMax, limit, before).list, op.pid, op.alive));
  }

  /** A successful set or release writes the tightest request in force; a release
      that leaves no binding request writes the hardware limit; a set whose
      allocation fails writes nothing. */
  lemma WritesTheBound(isMax: bool, limit: Int32, history: seq<Op>, v: Int32)
    requires history != [] && IsBound(isMax, history, v)
    ensures var op := history[|history| - 1];
            && (op.Request? && op.mallocOk ==> Written(isMax, limit, history) == Some(v))
            && (op.Request? && !op.mallocOk ==>
                  Run(isMax, limit, history).writes == Run(isMax, limit, history[..|history| - 1]).writes)
            && (op.Withdraw? ==>
                  Written(isMax, limit, history) == Some(if v == NoCap(isMax) then limit else v))
  {
    var op := history[|history| - 1];
    CapIsBound(isMax, limit, history);
    BoundIsUnique(isMax, history, v, CapOf(isMax, Run(isMax, limit, history).list));
    if op.Request? && op.mallocOk {
      RequestWritesCap(isMax, limit, history);
    }
  }

  // ---- The same in plain order ----

  /** `v` is a request in force and none is higher. */
  ghost predicate Highest(history: seq<Op>, v: int)
  {
    (forall p, f :: Holder(history, p) == Some(f) ==> f <= v) && exists p, f :: Holder(history, p) == Some(f) && f == v
  }

  /** `v` is a request in force and none is lower. */
  ghost predicate Lowest(history: seq<Op>, v: int)
  {
    (forall p, f :: Holder(history, p) == Some(f) ==> v <= f) && exists p, f :: Holder(history, p) == Some(f) && f == v
  }

  /** Is a request in force? */
  ghost predicate SomeHolder(history: seq<Op>)
  {
    exists p :: Holder(history, p).Some?
  }

  lemma LowerBoundInOrder(history: seq<Op>, v: Int32)
    requires IsBound(false, history, v)
    ensures if SomeHolder(history) then Highest(history, v) else v == -0x8000_0000
  {
    if p :| Holder(history, p).Some? {
      assert Holder(history, p) == Some(Holder(history, p).value);
    }
  }

  lemma UpperBoundInOrder(history: seq<Op>, v: Int32)
    requires IsBound(true, history, v)
    ensures if SomeHolder(history) then Lowest(history, v) else v == 0x7FFF_FFFF
  {
    if p :| Holder(history, p).Some? {
      assert Holder(history, p) == Some(Holder(history, p).value);
    }
  }

  /** The bound of the list is the highest request for the lower side and the lowest for
      the upper, and with no request it is the marker. */
  lemma BoundInOrder(limit: Int32, history: seq<Op>)
    ensures var low := CapOf(false, Run(false, limit, history).list);
            if SomeHolder(history) then Highest(history, low) else low == -0x8000_0000
    ensures var high := CapOf(true, Run(true, limit, history).list);
            if SomeHolder(history) then Lowest(history, high) else high == 0x7FFF_FFFF
  {
    CapIsBound(false, limit, history);
    CapIsBound(true, limit, history);
    LowerBoundInOrder(history, CapOf(false, Run(false, limit, history).list));
    UpperBoundInOrder(history, CapOf(true, Run(true, limit, history).list));
  }

  /** A recorded request writes the highest request in force to the lower bound and the
      lowest to the upper. */
  lemma RequestWritesInOrder(limit: Int32, history: seq<Op>)
    requires history != [] && history[|history| - 1].Request? && history[|history| - 1].mallocOk
    ensures Written(false, limit, history).Some? && Highest(history, Written(false, limit, history).value)
    ensures Written(true, limit, history).Some? && Lowest(history, Written(true, limit, history).value)
  {
    var op := history[|history| - 1];
    assert Holder(history, op.pid) == Some(op.freq);
    BoundInOrder(limit, history);
    RequestWritesCap(false, limit, history);
    RequestWritesCap(true, limit, history);
  }

  /** A release writes the same when a request is left that is above the lower marker,
      or below the upper, and the hardware limit otherwise. */
  lemma ReleaseWritesInOrder(limit: Int32, history: seq<Op>)
    requires history != [] && history[|history| - 1].Withdraw?
    ensures Written(false, limit, history).Some? &&
            if exists p, f :: Holder(history, p) == Some(f) && f > -0x8000_0000
            then Highest(history, Written(false, limit, history).value)
            else Written(false, limit, history).value == limit
    ensures Written(true, limit, history).Some? &&
            if exists p, f :: Holder(history, p) == Some(f) && f < 0x7FFF_FFFF
            then Lowest(history, Written(true, limit, history).value)
            else Written(true, limit, history).value == limit
  {
    BoundInOrder(limit, history);
  }

  /** Switching power saving off writes the lowest request in force to the upper bound,
      but INT_MAX when there is none, and the hardware limit when it is INT_MIN. */
  lemma SavingOffWritesInOrder(limit: Int32, history: seq<Op>)
    requires history != [] && history[|history| - 1].SavingOff?
    ensures Written(true, limit, history).Some? &&
            var v := Written(true, limit, history).value;
            if exists p :: Holder(history, p) == Some(-0x8000_0000) then v == limit
            else if SomeHolder(history) then Lowest(history, v)
            else v == 0x7FFF_FFFF
  {
    BoundInOrder(limit, history);
  }

  /** Switching power saving off writes what an ordinary release would, exactly when
      the bound left is no extreme marker or is the hardware limit itself: the
      switch looks for the lower marker where the release looks for the upper. */
  lemma SavingOffAgrees(limit: Int32, before: seq<Op>, pid: int, alive: set<int>)
    ensures var off, release := before + [SavingOff(pid, alive)], before + [Withdraw(pid, alive)];
            var v := CapOf(true, Run(true, limit, release).list);
            Written(true, limit, off) == Written(true, limit, release) <==>
            (v != INT_MAX && v != INT_MIN) || v == limit
  {
  }

  /** With no other request, switching power saving off writes INT_MAX. */
  lemma SavingOffWritesMarker(limit: Int32, self: int)
    ensures Written(true, limit, [Request(self, 800000, {self}, true), SavingOff(self, {self})]) == Some(0x7FFF_FFFF)
  {
  }

  // ---- A failed allocation ----

  /** Every add and remove starts afresh from the list, so a wrong cached bound never
      outlives the next one. */
  lemma Heals(isMax: bool, limit: Int32, s: Side, wrong: Int32, op: Op)
    requires !op.Rewrite?
    ensures Step(isMax, limit, s.(cur := wrong), op) == Step(isMax, limit, s, op)
  {
  }

  /** A failed request drops the requester's old one, writes nothing, and leaves the
      cached bound wrong exactly when it asked for more than the rest bind. */
  lemma FailedRequest(isMax: bool, limit: Int32, history: seq<Op>, pid: int, freq: Int32, alive: set<int>)
    ensures var after := Run(isMax, limit, history + [Request(pid, freq, alive, false)]);
            && after.writes == Run(isMax, limit, history).writes
            && Holder(history + [Request(pid, freq, alive, false)], pid) == None
            && (after.cur != CapOf(isMax, after.list) <==> Tighter(isMax, freq, CapOf(isMax, after.list)))
  {
  }

  // ---- Rewriting the cached bound ----

  /** The last operation that sets the cached bound, if any. */
  function LastChange(history: seq<Op>): Option<Op>
  {
    if history == [] then None
    else if history[|history| - 1].Rewrite? then LastChange(history[..|history| - 1])
    else Some(history[|history| - 1])
  }

  /** What the cache holds after `last` when the requests in force have bound `cap`. */
  function Cached(isMax: bool, limit: Int32, last: Option<Op>, cap: Int32): Int32
  {
    match last
    case None => NoCap(isMax)
    case Some(Request(_, freq, _, mallocOk)) => if mallocOk then cap else Tightest(isMax, freq, cap)
    case Some(Withdraw(_, _)) => if cap == NoCap(isMax) then limit else cap
    case Some(SavingOff(_, _)) => if cap == INT_MIN then limit else cap
    case Some(Rewrite) => cap
  }

  lemma {:induction false} CacheFollowsLastChange(isMax: bool, limit: Int32, history: seq<Op>)
    ensures var s := Run(isMax, limit, history);
            s.cur == Cached(isMax, limit, LastChange(history), CapOf(isMax, s.list))
  {
    if history != [] {
      var before, op := history[..|history| - 1], history[|history| - 1];
      CacheFollowsLastChange(isMax, limit, before);
      if op.Request? && op.mallocOk {
        CapOfPush(isMax, FreqEntry(op.pid, op.freq), Purge(Run(isMax, limit, before).list, op.pid, op.alive));
      }
    }
  }

  /** Rewriting writes the cache, whose value the last change and the bound `v` of
      the requests in force determine. */
  lemma RewriteWritesCache(isMax: bool, limit: Int32, history: seq<Op>, v: Int32)
    requires IsBound(isMax, history, v)
    ensures Written(isMax, limit, history + [Rewrite]) == Some(Cached(isMax, limit, LastChange(history), v))
  {
    assert (history + [Rewrite])[..|history|] == history;
    CapIsBound(isMax, limit, history);
    BoundIsUnique(isMax, history, v, CapOf(isMax, Run(isMax, limit, history).list));
    CacheFollowsLastChange(isMax, limit, history);
  }

  lemma {:induction false} UnchangedHasNoHolder(history: seq<Op>)
    requires LastChange(history) == None
    ensures forall p :: Holder(history, p) == None
  {
    if history != [] {
      UnchangedHasNoHolder(history[..|history| - 1]);
    }
  }

  /** The rewrite writes the bound of the requests in force exactly when nothing has
      changed yet, or the last change was a recorded request, a failed one that did
      not ask for more than the rest, or a release whose fallback did not fire (or
      fell back to the same value). */
  lemma RewriteWritesTheBound(isMax: bool, limit: Int32, history: seq<Op>, v: Int32)
    requires IsBound(isMax, history, v)
    ensures Written(isMax, limit, history + [Rewrite]) == Some(v) <==>
            match LastChange(history)
            case None => true
            case Some(Request(_, freq, _, mallocOk)) => mallocOk || !Tighter(isMax, freq, v)
            case Some(Withdraw(_, _)) => v != NoCap(isMax) || v == limit
            case Some(SavingOff(_, _)) => v != INT_MIN || v == limit
            case Some(Rewrite) => true
  {
    RewriteWritesCache(isMax, limit, history, v);
    if LastChange(history) == None {
      UnchangedHasNoHolder(history);
    }
  }

  lemma {:induction false} LastChangeIsChange(history: seq<Op>)
    ensures LastChange(history) != Some(Rewrite)
  {
    if history != [] {
      LastChangeIsChange(history[..|history| - 1]);
    }
  }

  /** The rewrite writes what a release would, namely the tightest request in force,
      or the hardware limit when none binds, exactly in these cases. While a request
      binds, only a failed tighter request or a switch-off that met the lower marker
      spoils it; while none does, it is right after a release, and otherwise only by
      coincidence with the limit. */
  lemma RewriteWritesLikeRelease(limit: Int32, history: seq<Op>, v: Int32)
    requires IsBound(true, history, v)
    ensures v != INT_MAX ==>
              (exists p :: Holder(history, p) == Some(v)) &&
              (Written(true, limit, history + [Rewrite]) == Some(v) <==>
               match LastChange(history)
               case None => true
               case Some(Request(_, freq, _, mallocOk)) => mallocOk || freq >= v
               case Some(Withdraw(_, _)) => true
               case Some(SavingOff(_, _)) => v != INT_MIN || limit == INT_MIN
               case Some(Rewrite) => true)
    ensures v == INT_MAX ==>
              (forall p, f :: Holder(history, p) == Some(f) ==> f == INT_MAX) &&
              (Written(true, limit, history + [Rewrite]) == Some(limit) <==>
               match LastChange(history)
               case None => limit == INT_MAX
               case Some(Request(_, freq, _, mallocOk)) => limit == if mallocOk then INT_MAX else freq
               case Some(Withdraw(_, _)) => true
               case Some(SavingOff(_, _)) => limit == INT_MAX
               case Some(Rewrite) => true)
  {
    RewriteWritesCache(true, limit, history, v);
    if LastChange(history) == None {
      UnchangedHasNoHolder(history);
    }
    LastChangeIsChange(history);
  }

  /** Two histories that go wrong whatever the limit is, unless it is the value
      written: a failed request, and no request at all. */
  lemma RewriteExposes(limit: Int32)
    ensures var history := [Request(7, 100, {7}, false)];
            IsBound(true, history, INT_MAX) && Written(true, limit, history + [Rewrite]) == Some(100)
    ensures IsBound(true, [], INT_MAX) && Written(true, limit, [Rewrite]) == Some(INT_MAX)
  {
    var history := [Request(7, 100, {7}, false)];
    assert history[..0] == [];
    forall p ensures Holder(history, p) == None {
      assert Holder([], p) == None;
    }
    RewriteWritesCache(true, limit, history, INT_MAX);
    RewriteWritesCache(true, limit, [], INT_MAX);
    assert [] + [Rewrite] == [Rewrite];
  }

  // ---- Order of requests ----

  function Ops(reqs: seq<FreqEntry>, alive: set<int>): seq<Op>
  {
    seq(|reqs|, i requires 0 <= i < |reqs| => Request(reqs[i].pid, reqs[i].freq, alive, true))
  }

  /** After a set of requests by distinct live processes, each has its own and the
      others keep what they had. */
  lemma {:induction false} RequestsInForce(history: seq<Op>, reqs: seq<FreqEntry>, alive: set<int>, p: int)
    requires UniquePids(reqs) && forall e :: e in reqs ==> e.pid in alive
    ensures forall e :: e in reqs && e.pid == p ==> Holder(history + Ops(reqs, alive), p) == Some(e.freq)
    ensures reqs != [] && (forall e :: e in reqs ==> e.pid != p) ==>
              Holder(history + Ops(reqs, alive), p) == if p in alive then Holder(history, p) else None
  {
    if reqs != [] {
      var n := |reqs| - 1;
      var init := reqs[..n];
      forall e | e in init ensures e in reqs && e.pid != reqs[n].pid {
      }
      RequestsInForce(history, init, alive, p);
      var h := history + Ops(reqs, alive);
      assert h[..|h| - 1] == history + Ops(init, alive);
      assert reqs == init + [reqs[n]];
      if init == [] {
        assert history + Ops(init, alive) == history;
      }
    }
  }

  lemma SameHolders(history: seq<Op>, a: seq<FreqEntry>, b: seq<FreqEntry>, alive: set<int>, p: int)
    requires UniquePids(a) && UniquePids(b) && (forall e :: e in a <==> e in b)
    requires forall e :: e in a ==> e.pid in alive
    requires a != [] && b != []
    ensures Holder(history + Ops(a, alive), p) == Holder(history + Ops(b, alive), p)
  {
    RequestsInForce(history, a, alive, p);
    RequestsInForce(history, b, alive, p);
    if e :| e in a && e.pid == p {
      assert e in b;
    }
  }

  /** Permuting set requests of distinct live processes changes neither the final
      bound nor, when there is one, what it last wrote. */
  lemma OrderIrrelevant(isMax: bool, limit: Int32, history: seq<Op>, a: seq<FreqEntry>, b: seq<FreqEntry>,
                        alive: set<int>)
    requires UniquePids(a) && UniquePids(b) && (forall e :: e in a <==> e in b)
    requires forall e :: e in a ==> e.pid in alive
    requires a != [] && b != []
    ensures Written(isMax, limit, history + Ops(a, alive)) == Written(isMax, limit, history + Ops(b, alive))
  {
    var x, y := history + Ops(a, alive), history + Ops(b, alive);
    var v := CapOf(isMax, Run(isMax, limit, x).list);
    CapIsBound(isMax, limit, x);
    forall p ensures Holder(x, p) == Holder(y, p) {
      SameHolders(history, a, b, alive, p);
    }
    assert IsBound(isMax, y, v) by {
      if v != NoCap(isMax) {
        var p :| Holder(x, p) == Some(v);
        assert Holder(y, p) == Some(v);
      }
    }
    WritesTheBound(isMax, limit, x, v);
    WritesTheBound(isMax, limit, y, v);
  }
}
