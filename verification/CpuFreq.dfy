/** Arbitration of CPU frequency requests: one side of the handler, either the upper
    bound (`isMax`) or the lower bound. */
module CpuFreq {
  import opened Wrappers
  import opened EinaList

  const INT_MAX := 0x7FFF_FFFF
  const INT_MIN := -0x8000_0000
  const POWER_SAVING_CPUFREQ := 800000

  type Int32 = x: int | -0x8000_0000 <= x <= 0x7FFF_FFFF

  datatype FreqEntry = FreqEntry(pid: int, freq: Int32)

  // ---- One side on values ----

  function NoCap(isMax: bool): Int32 { if isMax then INT_MAX else INT_MIN }

  predicate Tighter(isMax: bool, a: int, b: int) { if isMax then a < b else a > b }

  function Tightest(isMax: bool, a: Int32, b: Int32): Int32 { if Tighter(isMax, a, b) then a else b }

  /** The requests that stay when `pid` withdraws and the dead are dropped. */
  function Purge(list: seq<FreqEntry>, pid: int, alive: set<int>): (r: seq<FreqEntry>)
    ensures forall e :: e in r <==> e in list && e.pid in alive && e.pid != pid
  {
    if list == [] then []
    else
      var n := |list| - 1;
      Purge(list[..n], pid, alive) + if list[n].pid in alive && list[n].pid != pid then [list[n]] else []
  }

  function CapOf(isMax: bool, list: seq<FreqEntry>): Int32
  {
    if list == [] then NoCap(isMax)
    else Tightest(isMax, list[|list| - 1].freq, CapOf(isMax, list[..|list| - 1]))
  }

  predicate UniquePids(list: seq<FreqEntry>)
  {
    forall i, j :: 0 <= i < j < |list| ==> list[i].pid != list[j].pid
  }

  /** The request list, the cached bound and the values written to the hardware. */
  datatype Side = Side(list: seq<FreqEntry>, cur: Int32, writes: seq<Int32>)

  function Remove(isMax: bool, s: Side, pid: int, alive: set<int>): Side
  {
    var kept := Purge(s.list, pid, alive);
    s.(list := kept, cur := CapOf(isMax, kept))
  }

  function Add(isMax: bool, s: Side, pid: int, freq: Int32, alive: set<int>, mallocOk: bool): Side
  {
    var r := Remove(isMax, s, pid, alive);
    r.(list := if mallocOk then [FreqEntry(pid, freq)] + r.list else r.list, cur := Tightest(isMax, freq, r.cur))
  }

  function Write(s: Side): Side
  {
    s.(writes := s.writes + [s.cur])
  }

  /** The operations on one side: a set request, a release, the power-saving switch
      going off, and its going on while the CPU option is off. */
  datatype Op =
    | Request(pid: int, freq: Int32, alive: set<int>, mallocOk: bool)
    | Withdraw(pid: int, alive: set<int>)
    | SavingOff(pid: int, alive: set<int>)
    | Rewrite

  function Fallback(s: Side, mark: Int32, limit: Int32): Side
  {
    if s.cur == mark then s.(cur := limit) else s
  }

  function Step(isMax: bool, limit: Int32, s: Side, op: Op): Side
  {
    match op
    case Request(pid, freq, alive, mallocOk) =>
      var t := Add(isMax, s, pid, freq, alive, mallocOk);
      if mallocOk then Write(t) else t
    case Withdraw(pid, alive) => Write(Fallback(Remove(isMax, s, pid, alive), NoCap(isMax), limit))
    case SavingOff(pid, alive) => Write(Fallback(Remove(isMax, s, pid, alive), INT_MIN, limit))
    case Rewrite => Write(s)
  }

  // ---- The handler ----

  lemma PurgeNext(list: seq<FreqEntry>, i: nat, pid: int, alive: set<int>)
    requires i < |list|
    ensures Purge(list[..i + 1], pid, alive) ==
            Purge(list[..i], pid, alive) + if list[i].pid in alive && list[i].pid != pid then [list[i]] else []
  {
    assert list[..i + 1][..i] == list[..i];
  }

  lemma UniquePush(list: seq<FreqEntry>, entry: FreqEntry)
    requires UniquePids(list) && forall e :: e in list ==> e.pid != entry.pid
    ensures UniquePids([entry] + list)
  {
  }

  lemma UniqueWithout(list: seq<FreqEntry>, k: nat)
    requires k < |list| && UniquePids(list)
    ensures UniquePids(list[..k] + list[k + 1..])
    ensures forall i :: 0 <= i < k ==> list[i] != list[k]
  {
  }

  class FreqSide {
    const isMax: bool
    const limit: Int32
    const list: List<FreqEntry>
    var cur: Int32
    var writes: seq<Int32>
    ghost var entries: seq<FreqEntry>

    ghost predicate Valid()
      reads this`entries, list, list.footprint
    {
      list.Valid() && list.Contents() == entries && UniquePids(entries)
    }

    ghost function Abs(): Side
      reads this
    {
      Side(entries, cur, writes)
    }

    constructor (isMax: bool, limit: Int32)
      ensures Valid() && Abs() == Side([], NoCap(isMax), []) && fresh(list)
      ensures this.isMax == isMax && this.limit == limit
    {
      this.isMax, this.limit := isMax, limit;
      list := new List();
      cur, writes, entries := NoCap(isMax), [], [];
    }

    /** The walk has passed the first `i` requests of `all`, kept `kept` of them, and
        stands at `tmp`. */
    ghost predicate Walking(tmp: Node?<FreqEntry>, all: seq<FreqEntry>, i: nat, kept: seq<FreqEntry>)
      reads this`cur, this`entries, list`nodes
    {
      i <= |all| && entries == kept + all[i..] && tmp == list.At(|kept|) && cur == CapOf(isMax, kept)
    }

    /** Unlinks the request at position `k`. */
    method Drop(entry: FreqEntry, ghost k: nat)
      requires Valid() && k < |entries| && entries[k] == entry
      modifies this`entries, list`head, list`nodes, list.footprint
      ensures Valid() && entries == old(entries)[..k] + old(entries)[k + 1..]
      ensures cur == old(cur) && writes == old(writes) && list.footprint == old(list.footprint)
      ensures list.nodes == old(list.nodes[..k] + list.nodes[k + 1..])
    {
      ValuesWithout(list.nodes, k);
      UniqueWithout(entries, k);
      assert forall i :: 0 <= i <= k ==> list.nodes[i].data == entries[i];
      list.Remove(entry, k);
      entries := entries[..k] + entries[k + 1..];
    }

    method Push(entry: FreqEntry)
      requires Valid() && forall e :: e in entries ==> e.pid != entry.pid
      modifies this`entries, list
      ensures Valid() && entries == [entry] + old(entries)
      ensures fresh(list.footprint - old(list.footprint))
    {
      UniquePush(entries, entry);
      list.Prepend(entry);
      entries := [entry] + entries;
    }

    /** One turn of the walk: the next node is read before this one goes. */
    method Turn(tmp: Node<FreqEntry>, pid: int, alive: set<int>, ghost all: seq<FreqEntry>, ghost i: nat,
                ghost kept: seq<FreqEntry>)
      returns (next: Node?<FreqEntry>, ghost kept': seq<FreqEntry>)
      requires Valid() && i < |all| && Walking(tmp, all, i, kept)
      modifies this`cur, this`entries, list`head, list`nodes, list.footprint
      ensures Valid() && Walking(next, all, i + 1, kept')
      ensures writes == old(writes) && list.footprint == old(list.footprint)
      ensures kept' == kept + if all[i].pid in alive && all[i].pid != pid then [all[i]] else []
    {
      ghost var k := |kept|;
      PassOne(kept, all, i);
      assert list.nodes[k].next == list.At(k + 1);
      next, kept' := tmp.next, kept;
      var entry := tmp.data;
      if entry.pid !in alive || entry.pid == pid {
        Drop(entry, k);
      } else {
        kept' := kept + [entry];
        assert kept'[..k] == kept;
        if Tighter(isMax, entry.freq, cur) {
          cur := entry.freq;
        }
      }
    }

    /** `Walking`, with what was kept named. */
    ghost predicate Purging(tmp: Node?<FreqEntry>, all: seq<FreqEntry>, i: nat, kept: seq<FreqEntry>, pid: int,
                            alive: set<int>)
      reads this`cur, this`entries, list`nodes
    {
      Walking(tmp, all, i, kept) && kept == Purge(all[..i], pid, alive)
    }

    lemma PurgingStarts(pid: int, alive: set<int>)
      requires Valid() && cur == NoCap(isMax)
      ensures Purging(list.head, entries, 0, [], pid, alive)
    {
    }

    lemma PurgingAt(tmp: Node?<FreqEntry>, all: seq<FreqEntry>, i: nat, kept: seq<FreqEntry>, pid: int,
                    alive: set<int>)
      requires Valid() && Purging(tmp, all, i, kept, pid, alive)
      ensures i <= |all| && (tmp == null <==> i == |all|)
    {
    }

    lemma PurgingEnds(before: Side, kept: seq<FreqEntry>, pid: int, alive: set<int>)
      requires Purging(null, before.list, |before.list|, kept, pid, alive) && writes == before.writes
      ensures Abs() == Remove(isMax, before, pid, alive)
    {
      assert before.list[..|before.list|] == before.list;
    }

    method PurgeTurn(tmp: Node<FreqEntry>, pid: int, alive: set<int>, ghost all: seq<FreqEntry>, ghost i: nat,
                     ghost kept: seq<FreqEntry>)
      returns (next: Node?<FreqEntry>, ghost kept': seq<FreqEntry>)
      requires Valid() && i < |all| && Purging(tmp, all, i, kept, pid, alive)
      modifies this`cur, this`entries, list`head, list`nodes, list.footprint
      ensures Valid() && Purging(next, all, i + 1, kept', pid, alive)
      ensures writes == old(writes) && list.footprint == old(list.footprint)
    {
      PurgeNext(all, i, pid, alive);
      next, kept' := Turn(tmp, pid, alive, all, i, kept);
    }

    method Walk(pid: int, alive: set<int>) returns (ghost kept: seq<FreqEntry>)
      requires Valid() && cur == NoCap(isMax)
      modifies this`cur, this`entries, list`head, list`nodes, list.footprint
      ensures Valid() && Purging(null, old(entries), |old(entries)|, kept, pid, alive) && writes == old(writes)
    {
      ghost var all, i := entries, 0;
      kept := [];
      PurgingStarts(pid, alive);
      var tmp := list.head;
      while tmp != null
        invariant Valid() && Purging(tmp, all, i, kept, pid, alive)
        invariant writes == old(writes) && list.footprint == old(list.footprint)
        decreases |all| - i
      {
        PurgingAt(tmp, all, i, kept, pid, alive);
        tmp, kept := PurgeTurn(tmp, pid, alive, all, i, kept);
        i := i + 1;
      }
      PurgingAt(tmp, all, i, kept, pid, alive);
    }

    /** Withdraws `pid`, drops the dead and finds the bound of the rest. */
    method RemoveEntry(pid: int, alive: set<int>)
      requires Valid()
      modifies this`cur, this`entries, list`head, list`nodes, list.footprint
      ensures Valid() && Abs() == Remove(isMax, old(Abs()), pid, alive)
    {
      ghost var before := Abs();
      cur := NoCap(isMax);
      ghost var kept := Walk(pid, alive);
      PurgingEnds(before, kept, pid, alive);
    }

    method Tighten(freq: Int32)
      requires Valid()
      modifies this`cur
      ensures Valid() && Abs() == old(Abs()).(cur := Tightest(isMax, freq, old(cur)))
    {
      if Tighter(isMax, freq, cur) {
        cur := freq;
      }
    }

    /** Records a request; a failed allocation leaves the cached bound as if it had
        succeeded. */
    method AddEntry(pid: int, freq: Int32, alive: set<int>, mallocOk: bool) returns (r: int)
      requires Valid()
      modifies this`cur, this`entries, list, list.footprint
      ensures Valid() && Abs() == Add(isMax, old(Abs()), pid, freq, alive, mallocOk)
      ensures r == if mallocOk then 0 else -1
    {
      RemoveEntry(pid, alive);
      Tighten(freq);
      if !mallocOk {
        return -1;
      }
      Push(FreqEntry(pid, freq));
      r := 0;
    }

    /** The hardware limit replaces the bound when it is the marker `mark`. */
    method FallBack(mark: Int32)
      requires Valid()
      modifies this`cur
      ensures Valid() && Abs() == Fallback(old(Abs()), mark, limit)
    {
      if cur == mark {
        cur := limit;
      }
    }

    /** Withdraws `pid`, with `mark` as the bound that means no request. */
    method Release(pid: int, alive: set<int>, mark: Int32)
      requires Valid()
      modifies this`cur, this`entries, list`head, list`nodes, list.footprint
      ensures Valid() && Abs() == Fallback(Remove(isMax, old(Abs()), pid, alive), mark, limit)
    {
      RemoveEntry(pid, alive);
      FallBack(mark);
    }

    method WriteFreq(ok: bool) returns (r: int)
      requires Valid()
      modifies this`writes
      ensures Valid() && Abs() == Write(old(Abs())) && r == if ok then 0 else -1
    {
      writes := writes + [cur];
      r := if ok then 0 else -1;
    }

    /** Records a request and writes the bound, unless the allocation fails. */
    method AddAndWrite(pid: int, freq: Int32, alive: set<int>, mallocOk: bool, writeOk: bool) returns (r: int)
      requires Valid()
      modifies this`cur, this`writes, this`entries, list, list.footprint
      ensures Valid() && Abs() == Step(isMax, limit, old(Abs()), Request(pid, freq, alive, mallocOk))
      ensures r == if mallocOk && writeOk then 0 else -1
    {
      r := AddEntry(pid, freq, alive, mallocOk);
      if r < 0 {
        return -1;
      }
      r := WriteFreq(writeOk);
    }

    /** The set action; `args` are its two numbers, if it got two arguments. */
    method SetAction(args: Option<(int, Int32)>, alive: set<int>, mallocOk: bool, writeOk: bool) returns (r: int)
      requires Valid()
      modifies this`cur, this`writes, this`entries, list, list.footprint
      ensures Valid()
      ensures Abs() == if args.None? then old(Abs())
                       else Step(isMax, limit, old(Abs()), Request(args.value.0, args.value.1, alive, mallocOk))
      ensures r == if args.Some? && mallocOk && writeOk then 0 else -1
    {
      if args.None? {
        return -1;
      }
      r := AddAndWrite(args.value.0, args.value.1, alive, mallocOk, writeOk);
    }

    method ReleaseAction(arg: Option<int>, alive: set<int>, writeOk: bool) returns (r: int)
      requires Valid()
      modifies this`cur, this`writes, this`entries, list`head, list`nodes, list.footprint
      ensures Valid()
      ensures Abs() == if arg.None? then old(Abs())
                       else Step(isMax, limit, old(Abs()), Withdraw(arg.value, alive))
      ensures r == if arg.Some? && writeOk then 0 else -1
    {
      if arg.None? {
        return -1;
      }
      Release(arg.value, alive, NoCap(isMax));
      r := WriteFreq(writeOk);
    }

    /** The power-saving switch changed; `self` is the server's own pid. */
    method PowerSavingCb(saving: bool, cpuSaving: bool, self: int, alive: set<int>, mallocOk: bool, writeOk: bool)
      returns (r: int)
      requires Valid() && isMax
      modifies this`cur, this`writes, this`entries, list, list.footprint
      ensures Valid()
      ensures Abs() == Step(isMax, limit, old(Abs()),
                if !saving then SavingOff(self, alive)
                else if cpuSaving then Request(self, 800000, alive, mallocOk)
                else Rewrite)
      ensures r == if (saving && cpuSaving && !mallocOk) || !writeOk then -1 else 0
    {
      if saving && cpuSaving {
        r := AddAndWrite(self, POWER_SAVING_CPUFREQ, alive, mallocOk, writeOk);
        return;
      }
      if !saving {
        Release(self, alive, INT_MIN);
      }
      r := WriteFreq(writeOk);
    }

    /** The CPU option of power saving changed; it matters only while saving is on. */
    method PowerSavingCpuCb(saving: bool, cpuSaving: bool, self: int, alive: set<int>, mallocOk: bool, writeOk: bool)
      returns (r: int)
      requires Valid() && isMax
      modifies this`cur, this`writes, this`entries, list, list.footprint
      ensures Valid()
      ensures Abs() == if !saving then old(Abs())
                       else Step(isMax, limit, old(Abs()),
                              if cpuSaving then Request(self, 800000, alive, mallocOk)
                              else Withdraw(self, alive))
      ensures r == if saving && ((cpuSaving && !mallocOk) || !writeOk) then -1 else 0
    {
      r := 0;
      if saving && cpuSaving {
        r := AddAndWrite(self, POWER_SAVING_CPUFREQ, alive, mallocOk, writeOk);
      } else if saving {
        Release(self, alive, NoCap(isMax));
        r := WriteFreq(writeOk);
      }
    }
  }
}
