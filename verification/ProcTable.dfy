/** The oom_adj table that the process manager reads and rewrites through
    /proc/<pid>/oom_adj, and the four requests that move a process in it. */
module ProcTable {
  import opened Wrappers

  const OOMADJ_SU := -17
  const OOMADJ_INIT := -16
  const OOMADJ_FOREGRD_LOCKED := -15
  const OOMADJ_FOREGRD_UNLOCKED := -10
  const OOMADJ_BACKGRD_LOCKED := -5
  const OOMADJ_BACKGRD_UNLOCKED := 1
  const OOMADJ_APP_LIMIT := -16
  const LIMITED_PROCESS_OOMADJ := 15

  /** pid -> oom_adj, for every process that has a readable oom_adj file. */
  type Table = map<int, int>

  datatype Request = Foregrd | Backgrd | Active | Inactive

  /** What the system decides during one request: whether the two directory
      scans could be opened, and which signalled processes outlive SIGTERM. */
  datatype Env = Env(scan: bool, sweep: bool, lingers: set<int>)

  // ---- The two bits that an oom_adj value encodes ----

  datatype Bits = Bits(foreground: bool, locked: bool)

  /** None for the values no request ever changes. */
  function Decode(level: int): Option<Bits>
  {
    if level == OOMADJ_FOREGRD_LOCKED then Some(Bits(true, true))
    else if level == OOMADJ_FOREGRD_UNLOCKED then Some(Bits(true, false))
    else if level == OOMADJ_BACKGRD_LOCKED then Some(Bits(false, true))
    else if level == OOMADJ_INIT || level >= OOMADJ_BACKGRD_UNLOCKED then Some(Bits(false, false))
    else None
  }

  function Encode(bits: Bits): int
  {
    match bits
    case Bits(true, true) => OOMADJ_FOREGRD_LOCKED
    case Bits(true, false) => OOMADJ_FOREGRD_UNLOCKED
    case Bits(false, true) => OOMADJ_BACKGRD_LOCKED
    case Bits(false, false) => OOMADJ_BACKGRD_UNLOCKED
  }

  function Apply(req: Request, bits: Bits): Bits
  {
    match req
    case Foregrd => bits.(foreground := true)
    case Backgrd => bits.(foreground := false)
    case Active => bits.(locked := true)
    case Inactive => bits.(locked := false)
  }

  // ---- The ageing pass ----

  predicate SlotOneTaken(t: Table)
  {
    exists p :: p in t && t[p] == OOMADJ_BACKGRD_UNLOCKED
  }

  function Older(level: int): int
  {
    if OOMADJ_BACKGRD_UNLOCKED <= level < LIMITED_PROCESS_OOMADJ then level + 1 else level
  }

  function Signalled(t: Table): set<int>
  {
    set p | p in t && t[p] >= LIMITED_PROCESS_OOMADJ
  }

  /** Is `p` still there once the processes in `seen` have been swept? */
  predicate Survives(t: Table, lingers: set<int>, seen: set<int>, p: int)
  {
    p in t && !(p in seen && t[p] >= LIMITED_PROCESS_OOMADJ && p !in lingers)
  }

  function LevelAfter(t: Table, lingers: set<int>, seen: set<int>, p: int): int
    requires Survives(t, lingers, seen, p)
  {
    if p in seen then Older(t[p]) else t[p]
  }

  /** The table after the processes in `seen` have been swept. */
  function SweepOf(t: Table, lingers: set<int>, seen: set<int>): Table
  {
    map p | p in t && Survives(t, lingers, seen, p) :: LevelAfter(t, lingers, seen, p)
  }

  function Sweep(t: Table, lingers: set<int>): Table
  {
    SweepOf(t, lingers, t.Keys)
  }

  predicate Ages(t: Table, env: Env)
  {
    env.scan && SlotOneTaken(t) && env.sweep
  }

  /** The SIGTERMs one pass sends: exactly one to each process at the limit. */
  function Sent(t: Table, env: Env): multiset<int>
  {
    if Ages(t, env) then multiset(Signalled(t)) else multiset{}
  }

  function AgePass(t: Table, env: Env): Table
  {
    if Ages(t, env) then Sweep(t, env.lingers) else t
  }

  // ---- One request ----

  /** Does `req` move `pid` into slot 1? */
  predicate Enters(t: Table, req: Request, pid: int)
  {
    pid in t && Decode(t[pid]).Some? && t[pid] < OOMADJ_BACKGRD_UNLOCKED &&
    (t[pid] == OOMADJ_INIT || Apply(req, Decode(t[pid]).value) != Decode(t[pid]).value) &&
    Apply(req, Decode(t[pid]).value) == Bits(false, false)
  }

  function Perform(t: Table, req: Request, pid: int, env: Env): Table
  {
    if pid !in t || Decode(t[pid]).None? then t
    else
      var now := Decode(t[pid]).value;
      var next := Apply(req, now);
      if Enters(t, req, pid) then AgePass(t, env)[pid := OOMADJ_BACKGRD_UNLOCKED]
      else if next == now then t
      else t[pid := Encode(next)]
  }

  function Status(t: Table, pid: int): int
  {
    if pid in t && (Decode(t[pid]).Some? || t[pid] == OOMADJ_SU) then 0 else -1
  }

  // ---- The same in numbers ----

  /** Does `t` hold a process that a pass looks for? */
  predicate SomeoneAtOne(t: Table)
  {
    exists p :: p in t && t[p] == 1
  }

  /** `u` is `t` after one ageing pass. */
  ghost predicate OnePass(t: Table, u: Table, lingers: set<int>)
  {
    && u.Keys <= t.Keys
    && (forall q :: q in t && t[q] < 1 ==> q in u && u[q] == t[q])
    && (forall q :: q in t && 1 <= t[q] < 15 ==> q in u && u[q] == t[q] + 1)
    && (forall q :: q in t && t[q] >= 15 ==> (q in u <==> q in lingers))
    && (forall q :: q in u && t[q] >= 15 ==> u[q] == t[q])
  }

  /** A pass ages everybody in 1 to 14 by one and signals everybody from 15 on; it
      happens exactly when both scans open and slot 1 is occupied. */
  lemma PassInNumbers(t: Table, env: Env)
    ensures if env.scan && env.sweep && SomeoneAtOne(t)
            then OnePass(t, AgePass(t, env), env.lingers) && Sent(t, env) == multiset(set q | q in t && t[q] >= 15)
            else AgePass(t, env) == t && Sent(t, env) == multiset{}
  {
    assert (set q | q in t && t[q] >= 15) == Signalled(t);
  }

  /** The level each request leaves its own process at, from any level. */
  lemma LevelsOfRequests(t: Table, pid: int, env: Env)
    requires pid in t
    ensures forall req :: pid in Perform(t, req, pid, env)
    ensures var l := t[pid];
            && Perform(t, Foregrd, pid, env)[pid] ==
                 (if l == -15 || l == -5 then -15 else if l == -10 || l == -16 || l >= 1 then -10 else l)
            && Perform(t, Backgrd, pid, env)[pid] ==
                 (if l == -15 || l == -5 then -5 else if l == -10 || l == -16 then 1 else l)
            && Perform(t, Active, pid, env)[pid] ==
                 (if l == -15 || l == -10 then -15 else if l == -5 || l == -16 || l >= 1 then -5 else l)
            && Perform(t, Inactive, pid, env)[pid] ==
                 (if l == -15 || l == -10 then -10 else if l == -5 || l == -16 then 1 else l)
    ensures Status(t, pid) == if t[pid] in {-17, -16, -15, -10, -5} || t[pid] >= 1 then 0 else -1
  {
  }

  /** A request ages another process exactly when it moves its own from below 1 to
      slot 1 while somebody is there and both scans open. */
  lemma AgedByRequest(t: Table, req: Request, pid: int, env: Env, q: int)
    requires q in t && q != pid && 1 <= t[q] < 15
    ensures var u := Perform(t, req, pid, env);
            && q in u && (u[q] == t[q] || u[q] == t[q] + 1)
            && (u[q] == t[q] + 1 <==>
                pid in t && t[pid] < 1 && pid in u && u[pid] == 1 && env.scan && env.sweep && SomeoneAtOne(t))
  {
    PassInNumbers(t, env);
  }

  /** Without anybody in slot 1 nobody is signalled and nobody else moves. */
  lemma NoPassOverEmptySlot(t: Table, req: Request, pid: int, env: Env)
    requires forall p :: p in t ==> t[p] != 1
    ensures Sent(t, env) == multiset{}
    ensures forall q :: q in t && q != pid ==> q in Perform(t, req, pid, env) && Perform(t, req, pid, env)[q] == t[q]
  {
    PassInNumbers(t, env);
  }

  /** A directory listing shows every process once; it may also name processes
      that are gone by the time their file is opened. */
  predicate Lists(listing: seq<int>, t: Table)
  {
    (forall p :: p in t ==> p in listing) &&
    (forall i, j :: 0 <= i < j < |listing| ==> listing[i] != listing[j])
  }

  /** /proc as the process manager sees it, with the signals it has sent. */
  class ProcFs {
    var adj: map<int, int>
    var signals: multiset<int>

    ghost predicate Valid()
      reads this
    {
      forall p :: p in adj ==> p >= 0
    }

    method GetAppOomAdj(pid: int) returns (level: Option<int>)
      ensures level == if pid >= 0 && pid in adj then Some(adj[pid]) else None
    {
      if pid < 0 {
        return None;
      }
      if pid !in adj {
        return None;
      }
      level := Some(adj[pid]);
    }

    method SetAppOomAdj(pid: int, level: int) returns (ret: int)
      modifies this`adj
      ensures ret == if pid in old(adj) then 0 else -1
      ensures adj == if pid in old(adj) && old(adj)[pid] >= -16 then old(adj)[pid := level]
                     else old(adj)
    {
      if pid !in adj {
        return -1;
      }
      if adj[pid] < OOMADJ_APP_LIMIT {
        return 0;
      }
      adj := adj[pid := level];
      ret := 0;
    }

    method Kill(pid: int, lingers: set<int>)
      modifies this
      ensures signals == old(signals) + multiset{pid}
      ensures adj == if pid in lingers then old(adj) else old(adj) - {pid}
    {
      signals := signals + multiset{pid};
      if pid !in lingers {
        adj := adj - {pid};
      }
    }

    /** The first directory loop: is some process in slot 1? */
    method FindSlotOne(listing: seq<int>) returns (found: bool)
      requires Lists(listing, adj)
      ensures found == SlotOneTaken(adj)
    {
      found := false;
      var i := 0;
      while i < |listing|
        invariant 0 <= i <= |listing|
        invariant forall j :: 0 <= j < i ==> listing[j] !in adj || adj[listing[j]] != OOMADJ_BACKGRD_UNLOCKED
      {
        var pid := listing[i];
        i := i + 1;
        if pid !in adj {
          continue;
        }
        if adj[pid] == OOMADJ_BACKGRD_UNLOCKED {
          return true;
        }
      }
      assert forall p :: p in adj ==> p in listing;
    }

    /** How far the second directory loop has got, having visited `seen`. */
    ghost predicate Swept(t: Table, sent: multiset<int>, lingers: set<int>, seen: set<int>)
      reads this
    {
      adj == SweepOf(t, lingers, seen) && signals == sent + multiset(seen * Signalled(t))
    }

    /** The body of the second directory loop. */
    method SweepOne(pid: int, lingers: set<int>, ghost t: Table, ghost sent: multiset<int>, ghost seen: set<int>)
      requires pid !in seen && Swept(t, sent, lingers, seen)
      modifies this
      ensures Swept(t, sent, lingers, seen + {pid})
    {
      assert pid in adj <==> pid in t;
      assert (seen + {pid}) * Signalled(t) ==
        if pid in Signalled(t) then seen * Signalled(t) + {pid} else seen * Signalled(t);
      if pid in adj {
        var level := adj[pid];
        if level >= LIMITED_PROCESS_OOMADJ {
          Kill(pid, lingers);
        } else if level >= OOMADJ_BACKGRD_UNLOCKED {
          adj := adj[pid := level + 1];
        }
      }
    }

    lemma SweptAll(t: Table, sent: multiset<int>, lingers: set<int>, seen: set<int>)
      requires Swept(t, sent, lingers, seen) && t.Keys <= seen
      ensures adj == Sweep(t, lingers) && signals == sent + multiset(Signalled(t))
    {
    }

    lemma SweptNone(lingers: set<int>)
      ensures Swept(adj, signals, lingers, {})
    {
    }

    /** The second directory loop. */
    method SweepAll(listing: seq<int>, lingers: set<int>)
      requires Lists(listing, adj)
      modifies this
      ensures adj == Sweep(old(adj), lingers)
      ensures signals == old(signals) + multiset(Signalled(old(adj)))
    {
      ghost var t, sent := adj, signals;
      ghost var seen: set<int> := {};
      SweptNone(lingers);
      var i := 0;
      while i < |listing|
        invariant 0 <= i <= |listing|
        invariant forall j :: 0 <= j < |listing| ==> (listing[j] in seen <==> j < i)
        invariant Swept(t, sent, lingers, seen)
      {
        SweepOne(listing[i], lingers, t, sent, seen);
        seen := seen + {listing[i]};
        i := i + 1;
      }
      forall p | p in t ensures p in seen {
        assert p in listing;
      }
      SweptAll(t, sent, lingers, seen);
    }

    method CheckAndSetOldBackgrd(scan: Option<seq<int>>, sweep: Option<seq<int>>, lingers: set<int>)
      returns (ret: int)
      requires scan.Some? ==> Lists(scan.value, adj)
      requires sweep.Some? ==> Lists(sweep.value, adj)
      modifies this
      ensures adj == AgePass(old(adj), Env(scan.Some?, sweep.Some?, lingers))
      ensures signals == old(signals) + Sent(old(adj), Env(scan.Some?, sweep.Some?, lingers))
      ensures ret == if scan.None? || (SomeoneAtOne(old(adj)) && sweep.None?) then -1 else 0
      ensures if scan.Some? && sweep.Some? && SomeoneAtOne(old(adj))
              then OnePass(old(adj), adj, lingers) &&
                   signals == old(signals) + multiset(set q | q in old(adj) && old(adj)[q] >= 15)
              else adj == old(adj) && signals == old(signals)
    {
      PassInNumbers(adj, Env(scan.Some?, sweep.Some?, lingers));
      if scan.None? {
        return -1;
      }
      var found := FindSlotOne(scan.value);
      if found {
        if sweep.None? {
          return -1;
        }
        SweepAll(sweep.value, lingers);
      }
      ret := 0;
    }

    method SetActiveAction(arg: Option<int>) returns (ret: int)
      requires Valid()
      modifies this
      ensures Valid() && signals == old(signals)
      ensures ret == if arg.None? then -1 else Status(old(adj), arg.value)
      ensures forall env :: adj == if arg.None? then old(adj) else Perform(old(adj), Active, arg.value, env)
    {
      if arg.None? {
        return -1;
      }
      var pid := arg.value;
      if pid < 0 {
        return -1;
      }
      var got := GetAppOomAdj(pid);
      if got.None? {
        return -1;
      }
      var level := got.value;
      if level == OOMADJ_FOREGRD_LOCKED || level == OOMADJ_BACKGRD_LOCKED || level == OOMADJ_SU {
        ret := 0;
      } else if level == OOMADJ_FOREGRD_UNLOCKED {
        ret := SetAppOomAdj(pid, OOMADJ_FOREGRD_LOCKED);
      } else if level == OOMADJ_BACKGRD_UNLOCKED || level == OOMADJ_INIT {
        ret := SetAppOomAdj(pid, OOMADJ_BACKGRD_LOCKED);
      } else if level > OOMADJ_BACKGRD_UNLOCKED {
        ret := SetAppOomAdj(pid, OOMADJ_BACKGRD_LOCKED);
      } else {
        ret := -1;
      }
    }

    method SetForegrdAction(arg: Option<int>) returns (ret: int)
      requires Valid()
      modifies this
      ensures Valid() && signals == old(signals)
      ensures ret == if arg.None? then -1 else Status(old(adj), arg.value)
      ensures forall env :: adj == if arg.None? then old(adj) else Perform(old(adj), Foregrd, arg.value, env)
    {
      if arg.None? {
        return -1;
      }
      var pid := arg.value;
      if pid < 0 {
        return -1;
      }
      var got := GetAppOomAdj(pid);
      if got.None? {
        return -1;
      }
      var level := got.value;
      if level == OOMADJ_FOREGRD_LOCKED || level == OOMADJ_FOREGRD_UNLOCKED || level == OOMADJ_SU {
        ret := 0;
      } else if level == OOMADJ_BACKGRD_LOCKED {
        ret := SetAppOomAdj(pid, OOMADJ_FOREGRD_LOCKED);
      } else if level == OOMADJ_BACKGRD_UNLOCKED || level == OOMADJ_INIT {
        ret := SetAppOomAdj(pid, OOMADJ_FOREGRD_UNLOCKED);
      } else if level > OOMADJ_BACKGRD_UNLOCKED {
        ret := SetAppOomAdj(pid, OOMADJ_FOREGRD_UNLOCKED);
      } else {
        ret := -1;
      }
    }

    method SetInactiveAction(arg: Option<int>, scan: Option<seq<int>>, sweep: Option<seq<int>>,
                             lingers: set<int>)
      returns (ret: int)
      requires Valid()
      requires scan.Some? ==> Lists(scan.value, adj)
      requires sweep.Some? ==> Lists(sweep.value, adj)
      modifies this
      ensures Valid()
      ensures ret == if arg.None? then -1 else Status(old(adj), arg.value)
      ensures var env := Env(scan.Some?, sweep.Some?, lingers);
              adj == if arg.None? then old(adj) else Perform(old(adj), Inactive, arg.value, env)
      ensures var env := Env(scan.Some?, sweep.Some?, lingers);
              signals == old(signals) +
                if arg.Some? && Enters(old(adj), Inactive, arg.value) then Sent(old(adj), env) else multiset{}
    {
      if arg.None? {
        return -1;
      }
      var pid := arg.value;
      if pid < 0 {
        return -1;
      }
      var got := GetAppOomAdj(pid);
      if got.None? {
        return -1;
      }
      var level := got.value;
      if level == OOMADJ_FOREGRD_UNLOCKED || level == OOMADJ_BACKGRD_UNLOCKED || level == OOMADJ_SU {
        ret := 0;
      } else if level == OOMADJ_FOREGRD_LOCKED {
        ret := SetAppOomAdj(pid, OOMADJ_FOREGRD_UNLOCKED);
      } else if level == OOMADJ_BACKGRD_LOCKED || level == OOMADJ_INIT {
        var _ := CheckAndSetOldBackgrd(scan, sweep, lingers);
        ret := SetAppOomAdj(pid, OOMADJ_BACKGRD_UNLOCKED);
      } else if level > OOMADJ_BACKGRD_UNLOCKED {
        ret := 0;
      } else {
        ret := -1;
      }
    }

    method SetBackgrdAction(arg: Option<int>, scan: Option<seq<int>>, sweep: Option<seq<int>>,
                            lingers: set<int>)
      returns (ret: int)
      requires Valid()
      requires scan.Some? ==> Lists(scan.value, adj)
      requires sweep.Some? ==> Lists(sweep.value, adj)
      modifies this
      ensures Valid()
      ensures ret == if arg.None? then -1 else Status(old(adj), arg.value)
      ensures var env := Env(scan.Some?, sweep.Some?, lingers);
              adj == if arg.None? then old(adj) else Perform(old(adj), Backgrd, arg.value, env)
      ensures var env := Env(scan.Some?, sweep.Some?, lingers);
              signals == old(signals) +
                if arg.Some? && Enters(old(adj), Backgrd, arg.value) then Sent(old(adj), env) else multiset{}
    {
      if arg.None? {
        return -1;
      }
      var pid := arg.value;
      if pid < 0 {
        return -1;
      }
      var got := GetAppOomAdj(pid);
      if got.None? {
        return -1;
      }
      var level := got.value;
      if level == OOMADJ_BACKGRD_LOCKED || level == OOMADJ_BACKGRD_UNLOCKED || level == OOMADJ_SU {
        ret := 0;
      } else if level == OOMADJ_FOREGRD_LOCKED {
        ret := SetAppOomAdj(pid, OOMADJ_BACKGRD_LOCKED);
      } else if level == OOMADJ_FOREGRD_UNLOCKED || level == OOMADJ_INIT {
        var _ := CheckAndSetOldBackgrd(scan, sweep, lingers);
        ret := SetAppOomAdj(pid, OOMADJ_BACKGRD_UNLOCKED);
      } else if level > OOMADJ_BACKGRD_UNLOCKED {
        ret := 0;
      } else {
        ret := -1;
      }
    }
  }
}
