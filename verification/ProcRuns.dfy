/** Whole runs of the process manager: spawns, exits and the four requests. */
module ProcRuns {
  import opened Wrappers
  import opened ProcTable

  datatype Event =
    | Spawn(pid: int, level: int)
    | Exit(pid: int)
    | Ask(req: Request, pid: int, env: Env)

  /** When a process entered slot 1: the event's number, and how many ageing
      passes had run by then. */
  datatype Mark = Mark(time: nat, passes: nat)

  /** `marks` holds exactly the processes that are background-unlocked, each
      with the moment its present stay began. */
  datatype World = World(table: Table, time: nat, passes: nat, marks: map<int, Mark>)

  const BOOT := World(map[], 0, 0, map[])

  predicate Enabled(t: Table, e: Event)
  {
    match e
    case Spawn(p, level) => p !in t && level <= 0
    case Exit(p) => p in t
    case Ask(_, _, _) => true
  }

  function Next(t: Table, e: Event): Table
  {
    match e
    case Spawn(p, level) => t[p := level]
    case Exit(p) => t - {p}
    case Ask(req, p, env) => Perform(t, req, p, env)
  }

  predicate RunsPass(t: Table, e: Event)
  {
    e.Ask? && Enters(t, e.req, e.pid) && Ages(t, e.env)
  }

  predicate Unlocked(t: Table, p: int)
  {
    p in t && t[p] >= OOMADJ_BACKGRD_UNLOCKED
  }

  function MarkAfter(w: World, t: Table, passes: nat, p: int): Mark
    requires Unlocked(t, p)
  {
    if p in w.marks then w.marks[p] else Mark(w.time, passes)
  }

  function Step(w: World, e: Event): World
  {
    var t := Next(w.table, e);
    var passes := w.passes + if RunsPass(w.table, e) then 1 else 0;
    World(t, w.time + 1, passes,
          map p | p in t && Unlocked(t, p) :: MarkAfter(w, t, passes, p))
  }

  function Run(events: seq<Event>): World
  {
    if events == [] then BOOT
    else Step(Run(events[..|events| - 1]), events[|events| - 1])
  }

  predicate Feasible(events: seq<Event>)
  {
    events == [] ||
    (Feasible(events[..|events| - 1]) &&
     Enabled(Run(events[..|events| - 1]).table, events[|events| - 1]))
  }

  // ---- The level of a background process counts ageing passes ----

  function Saturate(n: int): int
  {
    if n < LIMITED_PROCESS_OOMADJ then n else LIMITED_PROCESS_OOMADJ
  }

  predicate Aged(w: World, p: int)
    requires p in w.marks && p in w.table
  {
    w.marks[p].time < w.time && w.marks[p].passes <= w.passes &&
    w.table[p] == Saturate(1 + w.passes - w.marks[p].passes)
  }

  ghost predicate AgedInOrder(w: World)
  {
    && (forall p :: p in w.marks <==> p in w.table && w.table[p] >= OOMADJ_BACKGRD_UNLOCKED)
    && (forall p :: p in w.marks ==> Aged(w, p))
    && (forall p, q :: p in w.marks && q in w.marks && p != q ==> w.marks[p].time != w.marks[q].time)
    && (forall p, q :: p in w.marks && q in w.marks && w.marks[p].time <= w.marks[q].time ==>
          w.marks[p].passes <= w.marks[q].passes)
  }

  /** One event does one of two things to a process it leaves background-unlocked:
      ages it if a pass runs, or puts it into slot 1 as the caller. */
  lemma StayOrEnter(t: Table, e: Event, p: int)
    requires Enabled(t, e) && Unlocked(Next(t, e), p)
    ensures Unlocked(t, p) ==> Next(t, e)[p] == if RunsPass(t, e) then Older(t[p]) else t[p]
    ensures Unlocked(t, p) && RunsPass(t, e) && t[p] >= LIMITED_PROCESS_OOMADJ ==> p in e.env.lingers
    ensures !Unlocked(t, p) ==> e.Ask? && e.pid == p && Enters(t, e.req, p) && Next(t, e)[p] == 1
  {
  }

  lemma StepKeepsAge(w: World, e: Event, p: int)
    requires AgedInOrder(w) && Enabled(w.table, e) && p in Step(w, e).marks
    ensures Aged(Step(w, e), p)
  {
  }

  lemma StepKeepsOrder(w: World, e: Event)
    requires AgedInOrder(w) && Enabled(w.table, e)
    ensures AgedInOrder(Step(w, e))
  {
    var v := Step(w, e);
    forall p | p in v.marks ensures Aged(v, p) {
      StepKeepsAge(w, e, p);
    }
    forall p, q | p in v.marks && q in v.marks && p != q
      ensures v.marks[p].time != v.marks[q].time
      ensures v.marks[p].time < v.marks[q].time ==> v.marks[p].passes <= v.marks[q].passes
    {
      StayOrEnter(w.table, e, p);
      StayOrEnter(w.table, e, q);
      assert p in w.marks ==> Aged(w, p);
      assert q in w.marks ==> Aged(w, q);
    }
  }

  // Passes and stays, read off the tables alone

  /** An event that takes `t` to `u` moves its process into an occupied slot 1 while
      both scans open. */
  predicate PassHere(t: Table, e: Event, u: Table)
  {
    e.Ask? && e.pid in t && t[e.pid] < 1 && e.pid in u && u[e.pid] == 1 &&
    e.env.scan && e.env.sweep && SomeoneAtOne(t)
  }

  lemma PassIsHere(t: Table, e: Event)
    ensures RunsPass(t, e) <==> PassHere(t, e, Next(t, e))
  {
  }

  function Passes(events: seq<Event>): nat
  {
    if events == [] then 0
    else
      var init := events[..|events| - 1];
      Passes(init) + if PassHere(Run(init).table, events[|events| - 1], Run(events).table) then 1 else 0
  }

  /** The passes since `p` last was absent or below slot 1. */
  function PassesSince(events: seq<Event>, p: int): nat
  {
    if events == [] then 0
    else
      var init := events[..|events| - 1];
      var t, u := Run(init).table, Run(events).table;
      if p !in t || t[p] < 1 then 0
      else PassesSince(init, p) + if PassHere(t, events[|events| - 1], u) then 1 else 0
  }

  lemma {:induction false} PassesAreCounted(events: seq<Event>)
    ensures Run(events).passes == Passes(events)
  {
    if events != [] {
      var init := events[..|events| - 1];
      PassesAreCounted(init);
      PassIsHere(Run(init).table, events[|events| - 1]);
    }
  }

  /** In every run a process that is at 1 or above is at one more than the passes
      since it got there, or at 15 from the fourteenth on. */
  lemma {:induction false} LevelInNumbers(events: seq<Event>, p: int)
    requires Feasible(events) && p in Run(events).table && Run(events).table[p] >= 1
    ensures Run(events).table[p] == if PassesSince(events, p) < 14 then 1 + PassesSince(events, p) else 15
  {
    var init, e := events[..|events| - 1], events[|events| - 1];
    var t := Run(init).table;
    StayOrEnter(t, e, p);
    PassIsHere(t, e);
    if p in t && t[p] >= 1 {
      LevelInNumbers(init, p);
    }
  }

  /** A pass signals exactly the processes that have seen at least 14 passes since
      they got to slot 1, each once. */
  lemma SignalledAfterFourteen(events: seq<Event>, e: Event, p: int)
    requires Feasible(events) && PassHere(Run(events).table, e, Run(events + [e]).table)
    ensures var t := Run(events).table;
            Sent(t, e.env)[p] == if p in t && t[p] >= 1 && PassesSince(events, p) >= 14 then 1 else 0
  {
    var t := Run(events).table;
    PassInNumbers(t, e.env);
    if p in t && t[p] >= 1 {
      LevelInNumbers(events, p);
    }
  }

  /** In every run, the level of a background-unlocked process is one more than
      the number of ageing passes since it entered slot 1, capped at 15. */
  lemma {:induction false} LevelCountsPasses(events: seq<Event>)
    requires Feasible(events)
    ensures AgedInOrder(Run(events))
  {
    if events != [] {
      LevelCountsPasses(events[..|events| - 1]);
      StepKeepsOrder(Run(events[..|events| - 1]), events[|events| - 1]);
    }
  }

  /** The number of the event that last took `p` from absence or below 1 to where it is. */
  function EnteredAt(events: seq<Event>, p: int): nat
  {
    if events == [] then 0
    else
      var init := events[..|events| - 1];
      if p !in Run(init).table || Run(init).table[p] < 1 then |init| else EnteredAt(init, p)
  }

  lemma {:induction false} TimeIsLength(events: seq<Event>)
    ensures Run(events).time == |events|
  {
    if events != [] {
      TimeIsLength(events[..|events| - 1]);
    }
  }

  /** Marks remember these entries. */
  lemma {:induction false} MarksAreEntries(events: seq<Event>, p: int)
    requires Feasible(events) && p in Run(events).table && Run(events).table[p] >= 1
    ensures p in Run(events).marks && Run(events).marks[p].time == EnteredAt(events, p)
  {
    var init := events[..|events| - 1];
    TimeIsLength(init);
    LevelCountsPasses(init);
    if p in Run(init).table && Run(init).table[p] >= 1 {
      MarksAreEntries(init, p);
    }
  }

  /** The implicit queue is LRU: a strictly smaller level means a strictly later
      entry, whatever scans failed and whatever signalled processes linger. */
  lemma LruOrder(events: seq<Event>, p: int, q: int)
    requires Feasible(events)
    requires p in Run(events).table && q in Run(events).table
    requires 1 <= Run(events).table[p] < Run(events).table[q]
    ensures EnteredAt(events, q) < EnteredAt(events, p)
  {
    LevelCountsPasses(events);
    MarksAreEntries(events, p);
    MarksAreEntries(events, q);
    var w := Run(events);
    assert Aged(w, p) && Aged(w, q);
  }

  /** A pass evicts the oldest: each process it signals entered before every process
      it spares, and the fourteenth pass since then makes the difference. */
  lemma EvictsOldest(events: seq<Event>, e: Event, p: int, q: int)
    requires Feasible(events) && PassHere(Run(events).table, e, Run(events + [e]).table)
    requires Sent(Run(events).table, e.env)[p] > 0
    requires q in Run(events).table && Run(events).table[q] >= 1 && Sent(Run(events).table, e.env)[q] == 0
    ensures EnteredAt(events, p) < EnteredAt(events, q)
    ensures PassesSince(events, q) < 14 <= PassesSince(events, p)
  {
    SignalledAfterFourteen(events, e, p);
    SignalledAfterFourteen(events, e, q);
    LevelInNumbers(events, p);
    LevelInNumbers(events, q);
    LruOrder(events, q, p);
  }

  // ---- Slot uniqueness and capacity ----

  predicate ScansOpen(events: seq<Event>)
  {
    forall i :: 0 <= i < |events| && events[i].Ask? ==> events[i].env.scan && events[i].env.sweep
  }

  predicate NoneLingers(events: seq<Event>)
  {
    forall i :: 0 <= i < |events| && events[i].Ask? ==> events[i].env.lingers == {}
  }

  predicate SlotsUnique(t: Table)
  {
    forall p, q :: p in t && q in t && p != q && t[p] == t[q] && t[p] >= 1 ==> t[p] >= 15
  }

  predicate LastSlotUnique(t: Table)
  {
    forall p, q :: p in Signalled(t) && q in Signalled(t) ==> p == q
  }

  /** One request keeps slots 1..14 unshared exactly when it does not put a
      process into an occupied slot 1 without an ageing pass. */
  lemma SharesOnlyOnFailedScan(t: Table, req: Request, pid: int, env: Env)
    requires SlotsUnique(t)
    ensures var u := Perform(t, req, pid, env);
            SlotsUnique(u) <==>
            !(pid in t && t[pid] < 1 && pid in u && u[pid] == 1 && SomeoneAtOne(t) && !(env.scan && env.sweep))
  {
    var u := Perform(t, req, pid, env);
    if Enters(t, req, pid) && SlotOneTaken(t) && !(env.scan && env.sweep) {
      var p :| p in t && t[p] == OOMADJ_BACKGRD_UNLOCKED;
      assert u == t[pid := 1];
      assert u[p] == u[pid] && p != pid;
    }
  }

  lemma PromptStepKeepsLastSlot(t: Table, e: Event)
    requires Enabled(t, e) && SlotsUnique(t) && LastSlotUnique(t)
    requires e.Ask? ==> e.env.lingers == {}
    ensures LastSlotUnique(Next(t, e))
  {
    var u := Next(t, e);
    forall p, q | p in Signalled(u) && q in Signalled(u) ensures p == q {
      StayOrEnter(t, e, p);
      StayOrEnter(t, e, q);
      if RunsPass(t, e) {
        assert t[p] == t[q] == LIMITED_PROCESS_OOMADJ - 1;
      } else {
        assert p in Signalled(t) && q in Signalled(t);
      }
    }
  }

  lemma {:induction false} NoSharedSlot(events: seq<Event>)
    requires Feasible(events) && ScansOpen(events)
    ensures SlotsUnique(Run(events).table)
    ensures NoneLingers(events) ==> LastSlotUnique(Run(events).table)
  {
    if events != [] {
      var init, e := events[..|events| - 1], events[|events| - 1];
      assert forall i :: 0 <= i < |init| ==> init[i] == events[i];
      NoSharedSlot(init);
      var t := Run(init).table;
      if e.Ask? {
        SharesOnlyOnFailedScan(t, e.req, e.pid, e.env);
      }
      if NoneLingers(events) {
        PromptStepKeepsLastSlot(t, e);
      }
    }
  }

  /** A run that shares slot 1: the second entry's scan cannot be opened. */
  lemma SharedSlotReached()
    ensures var works, fails := Env(true, true, {}), Env(false, true, {});
            var events := [Spawn(1, OOMADJ_INIT), Spawn(2, OOMADJ_INIT),
                           Ask(Backgrd, 1, works), Ask(Backgrd, 2, fails)];
            Feasible(events) && Run(events).table == map[1 := OOMADJ_BACKGRD_UNLOCKED, 2 := OOMADJ_BACKGRD_UNLOCKED]
  {
    var works, fails := Env(true, true, {}), Env(false, true, {});
    var a, b, c, d := Spawn(1, OOMADJ_INIT), Spawn(2, OOMADJ_INIT), Ask(Backgrd, 1, works), Ask(Backgrd, 2, fails);
    assert [a][..0] == [] && [a, b][..1] == [a] && [a, b, c][..2] == [a, b] && [a, b, c, d][..3] == [a, b, c];
    assert Feasible([]) && Run([]) == BOOT;
    assert Feasible([a]) && Run([a]).table == map[1 := OOMADJ_INIT];
    assert Feasible([a, b]) && Run([a, b]).table == map[1 := OOMADJ_INIT, 2 := OOMADJ_INIT];
    assert Feasible([a, b, c]) && Run([a, b, c]).table == map[1 := OOMADJ_BACKGRD_UNLOCKED, 2 := OOMADJ_INIT];
  }

  /** With scans that open, level order and entry order are the same order, for any two
      processes that are not both at 15. */
  lemma LruBothWays(events: seq<Event>, p: int, q: int)
    requires Feasible(events) && ScansOpen(events) && p != q
    requires p in Run(events).table && q in Run(events).table
    requires Run(events).table[p] >= 1 && Run(events).table[q] >= 1
    requires Run(events).table[p] < 15 || Run(events).table[q] < 15
    ensures Run(events).table[p] < Run(events).table[q] <==> EnteredAt(events, q) < EnteredAt(events, p)
  {
    LevelCountsPasses(events);
    NoSharedSlot(events);
    var w := Run(events);
    if w.table[p] < w.table[q] {
      LruOrder(events, p, q);
    } else {
      assert w.table[p] != w.table[q];
      LruOrder(events, q, p);
    }
  }

  lemma Element(s: set<int>) returns (p: int)
    requires s != {}
    ensures p in s
  {
    if forall q :: q !in s {
      assert false;
    }
    p :| p in s;
  }

  lemma {:induction false} Pigeonhole(s: set<int>, t: Table, n: nat)
    requires forall p :: p in s ==> p in t && 1 <= t[p] <= n
    requires forall p, q :: p in s && q in s && p != q ==> t[p] != t[q]
    ensures |s| <= n
  {
    if s != {} {
      var p := Element(s);
      assert 1 <= t[p] <= n;
      var top := set q | q in s && t[q] == n;
      if top == {} {
        assert forall q :: q in s ==> q !in top;
        Pigeonhole(s, t, n - 1);
      } else {
        var q := Element(top);
        Pigeonhole(s - {q}, t, n - 1);
      }
    }
  }

  /** At most 15 processes are background-unlocked when SIGTERM works at once. */
  lemma Capacity(events: seq<Event>)
    requires Feasible(events) && ScansOpen(events) && NoneLingers(events)
    ensures |set p | p in Run(events).table && Run(events).table[p] >= 1| <= 15
  {
    LevelCountsPasses(events);
    NoSharedSlot(events);
    var w := Run(events);
    forall p | p in w.marks.Keys ensures 1 <= w.table[p] <= LIMITED_PROCESS_OOMADJ {
      assert Aged(w, p);
    }
    forall p, q | p in w.marks.Keys && q in w.marks.Keys && p != q ensures w.table[p] != w.table[q] {
      assert w.table[p] >= LIMITED_PROCESS_OOMADJ ==> p in Signalled(w.table);
      assert w.table[q] >= LIMITED_PROCESS_OOMADJ ==> q in Signalled(w.table);
    }
    Pigeonhole(w.marks.Keys, w.table, LIMITED_PROCESS_OOMADJ);
    assert w.marks.Keys == set p | p in w.table && w.table[p] >= 1;
  }

  // ---- The two bits ----

  /** The level a process was last spawned at. */
  function SpawnLevel(events: seq<Event>, p: int): Option<int>
  {
    if events == [] then None
    else
      var e := events[|events| - 1];
      if e.Spawn? && e.pid == p then Some(e.level) else SpawnLevel(events[..|events| - 1], p)
  }

  lemma {:induction false} SpawnsBelowOne(events: seq<Event>, p: int)
    requires Feasible(events)
    ensures SpawnLevel(events, p).Some? ==> SpawnLevel(events, p).value < 1
  {
    if events != [] {
      SpawnsBelowOne(events[..|events| - 1], p);
    }
  }

  /** The last foregrd/backgrd request to `p` since its spawn, or its spawn level's bit. */
  function LastShown(events: seq<Event>, p: int): bool
  {
    if events == [] then false
    else
      var e := events[|events| - 1];
      if e.pid != p then LastShown(events[..|events| - 1], p)
      else if e.Spawn? then e.level == -15 || e.level == -10
      else if e.Ask? && e.req == Foregrd then true
      else if e.Ask? && e.req == Backgrd then false
      else LastShown(events[..|events| - 1], p)
  }

  /** The last active/inactive request to `p` since its spawn, or its spawn level's bit. */
  function LastHeld(events: seq<Event>, p: int): bool
  {
    if events == [] then false
    else
      var e := events[|events| - 1];
      if e.pid != p then LastHeld(events[..|events| - 1], p)
      else if e.Spawn? then e.level == -15 || e.level == -5
      else if e.Ask? && e.req == Active then true
      else if e.Ask? && e.req == Inactive then false
      else LastHeld(events[..|events| - 1], p)
  }

  /** Requests to others never change a survivor's bits; its own do what they say. */
  lemma RequestMovesBits(t: Table, req: Request, pid: int, env: Env, p: int)
    requires p in t && p in Perform(t, req, pid, env)
    ensures Decode(Perform(t, req, pid, env)[p]) ==
            if p != pid || Decode(t[p]).None? then Decode(t[p])
            else Some(Apply(req, Decode(t[p]).value))
    ensures Decode(t[p]).None? ==> Perform(t, req, pid, env)[p] == t[p]
  {
  }

  /** In every run, a surviving process spawned at a managed level carries exactly
      its last visibility request and its last activity request; a process
      spawned at any other level (-17 among them) is never moved. */
  lemma {:induction false} BitsAreLastRequests(events: seq<Event>, p: int)
    requires Feasible(events) && p in Run(events).table
    ensures SpawnLevel(events, p).Some?
    ensures var v := SpawnLevel(events, p).value;
            if Decode(v).None? then Run(events).table[p] == v
            else Decode(Run(events).table[p]) == Some(Bits(LastShown(events, p), LastHeld(events, p)))
  {
    var init, e := events[..|events| - 1], events[|events| - 1];
    if !(e.Spawn? && e.pid == p) {
      assert p in Run(init).table;
      BitsAreLastRequests(init, p);
      if e.Ask? {
        RequestMovesBits(Run(init).table, e.req, e.pid, e.env, p);
      }
    }
  }

  /** The same in numbers. */
  lemma BitsInNumbers(events: seq<Event>, p: int)
    requires Feasible(events) && p in Run(events).table
    ensures SpawnLevel(events, p).Some?
    ensures var v, l := SpawnLevel(events, p).value, Run(events).table[p];
            var shown, held := LastShown(events, p), LastHeld(events, p);
            if v in {-16, -15, -10, -5}
            then (l == -15 <==> shown && held) && (l == -10 <==> shown && !held) &&
                 (l == -5 <==> !shown && held) && (l == -16 || l >= 1 <==> !shown && !held)
            else l == v
  {
    BitsAreLastRequests(events, p);
    SpawnsBelowOne(events, p);
  }

  // ---- A process survives every request unless it is at the limit ----

  /** Only processes at level 15 are ever removed by a request, and never the caller. */
  lemma OnlyLimitIsEvicted(events: seq<Event>, req: Request, pid: int, env: Env, p: int)
    requires Feasible(events)
    requires p in Run(events).table
    ensures p !in Perform(Run(events).table, req, pid, env) <==>
            p != pid && Run(events).table[p] == 15 && p !in env.lingers &&
            PassHere(Run(events).table, Ask(req, pid, env), Perform(Run(events).table, req, pid, env))
  {
    PassIsHere(Run(events).table, Ask(req, pid, env));
    LevelCountsPasses(events);
    var w := Run(events);
    if w.table[p] >= OOMADJ_BACKGRD_UNLOCKED {
      assert Aged(w, p);
    }
  }
}
