/** Every string handed in with a call is queued, freed or lost to a failed
    allocation. */
module RunQueueStrings {
  import opened Wrappers
  import opened RunQueue
  import opened RunQueueTheorems

  function ArgsOf(calls: seq<seq<Option<int>>>, id: nat): seq<Option<int>>
  {
    if id < |calls| then calls[id] else []
  }

  /** The strings of the calls `ids`, in order. */
  function StringsOf(calls: seq<seq<Option<int>>>, ids: seq<nat>): seq<int>
  {
    if ids == [] then [] else Strings(ArgsOf(calls, ids[0])) + StringsOf(calls, ids[1..])
  }

  /** The strings of all calls of a list. */
  function All(calls: seq<seq<Option<int>>>): seq<int>
  {
    if calls == [] then [] else All(calls[..|calls| - 1]) + Strings(calls[|calls| - 1])
  }

  lemma {:induction false} StringsOfConcat(calls: seq<seq<Option<int>>>, a: seq<nat>, b: seq<nat>)
    ensures StringsOf(calls, a + b) == StringsOf(calls, a) + StringsOf(calls, b)
  {
    if a == [] {
      assert a + b == b;
    } else {
      var whole, rest := a + b, a[1..];
      assert whole[0] == a[0] && whole[1..] == rest + b;
      StringsOfConcat(calls, rest, b);
      Regroup(Strings(ArgsOf(calls, a[0])), StringsOf(calls, rest), StringsOf(calls, b));
    }
  }

  lemma StringsOfCons(calls: seq<seq<Option<int>>>, id: nat, rest: seq<nat>)
    ensures StringsOf(calls, [id] + rest) == Strings(ArgsOf(calls, id)) + StringsOf(calls, rest)
  {
    assert ([id] + rest)[1..] == rest;
  }

  lemma Shuffle<T>(x: seq<T>, front: seq<T>, back: seq<T>)
    ensures multiset(front + (x + back)) == multiset(x) + multiset(front + back)
  {
  }

  /** Taking the head of `a` out of its permutation `b` leaves permutations. */
  lemma WithoutHead(a: seq<nat>, b: seq<nat>) returns (front: seq<nat>, back: seq<nat>)
    requires a != [] && multiset(a) == multiset(b)
    ensures b == front + ([a[0]] + back) && multiset(a[1..]) == multiset(front + back)
  {
    assert a[0] in multiset(b);
    var k :| 0 <= k < |b| && b[k] == a[0];
    front, back := b[..k], b[k + 1..];
    assert a == [a[0]] + a[1..];
    assert b == front + ([a[0]] + back);
    Shuffle([a[0]], front, back);
    assert multiset(a) == multiset{a[0]} + multiset(a[1..]);
    assert multiset(a) - multiset{a[0]} == multiset(a[1..]);
  }

  lemma StringsOfAround(calls: seq<seq<Option<int>>>, id: nat, front: seq<nat>, back: seq<nat>)
    ensures multiset(StringsOf(calls, front + ([id] + back))) ==
            multiset(Strings(ArgsOf(calls, id))) + multiset(StringsOf(calls, front + back))
  {
    StringsOfConcat(calls, front, back);
    StringsOfConcat(calls, front, [id] + back);
    StringsOfCons(calls, id, back);
    Shuffle(Strings(ArgsOf(calls, id)), StringsOf(calls, front), StringsOf(calls, back));
  }

  /** The strings do not depend on the order of the calls. */
  lemma {:induction false} StringsOfPermuted(calls: seq<seq<Option<int>>>, a: seq<nat>, b: seq<nat>)
    requires multiset(a) == multiset(b)
    ensures multiset(StringsOf(calls, a)) == multiset(StringsOf(calls, b))
  {
    if a == [] {
      assert |b| == |multiset(b)| == |multiset(a)| == 0;
    } else {
      var front, back := WithoutHead(a, b);
      StringsOfPermuted(calls, a[1..], front + back);
      StringsOfAround(calls, a[0], front, back);
    }
  }

  lemma {:induction false} OwnedByIds(calls: seq<seq<Option<int>>>, q: seq<Entry>)
    requires forall e :: e in q ==> e.id < |calls| && e.args == calls[e.id]
    ensures Owned(q) == StringsOf(calls, Ids(q))
  {
    if q != [] {
      OwnedByIds(calls, q[1..]);
      assert Ids(q) == [q[0].id] + Ids(q[1..]);
      StringsOfCons(calls, q[0].id, Ids(q[1..]));
      assert q[0] in q;
    }
  }

  lemma Swap<T>(x: seq<T>, y: seq<T>, z: seq<T>)
    requires multiset(y) == multiset(z)
    ensures multiset(x + y) == multiset(z + x)
  {
  }

  lemma AllLast(calls: seq<seq<Option<int>>>, n: nat)
    requires 0 < n <= |calls|
    ensures All(calls[..n]) == All(calls[..n - 1]) + Strings(calls[n - 1])
  {
    assert calls[..n][..n - 1] == calls[..n - 1];
  }

  lemma {:induction false} AllByIds(calls: seq<seq<Option<int>>>, n: nat)
    requires n <= |calls|
    ensures multiset(StringsOf(calls, Down(0, n))) == multiset(All(calls[..n]))
    decreases n
  {
    if n > 0 {
      AllByIds(calls, n - 1);
      StringsOfCons(calls, n - 1, Down(0, n - 1));
      AllLast(calls, n);
      Swap(Strings(calls[n - 1]), StringsOf(calls, Down(0, n - 1)), All(calls[..n - 1]));
    }
  }

  /** In every run the strings of the accepted calls are those still queued and those
      freed, each as often as it was handed in. */
  lemma StringsConserved(foreign: set<int>, events: seq<Event>)
    ensures var s := Run(START, foreign, events);
            multiset(Owned(s.queue)) + multiset(s.released) == multiset(All(s.accepted))
  {
    var s := Run(START, foreign, events);
    NothingLostOrFreedTwice(foreign, events);
    forall e | e in s.queue || e in s.removed ensures e.id < |s.accepted| && e.args == s.accepted[e.id] {
      assert e in s.queue + s.removed;
    }
    OwnedByIds(s.accepted, s.queue);
    OwnedByIds(s.accepted, s.removed);
    StringsOfConcat(s.accepted, Ids(s.queue), Ids(s.removed));
    StringsOfPermuted(s.accepted, Ids(s.queue) + Ids(s.removed), Down(0, s.next));
    AllByIds(s.accepted, s.next);
    assert s.accepted[..s.next] == s.accepted;
  }

  // ---- How often a string occurs ----

  /** The number of arguments that are the string `x`. */
  function Times(args: seq<Option<int>>, x: int): nat
  {
    |set i | 0 <= i < |args| && args[i] == Some(x)|
  }

  function Handed(calls: seq<seq<Option<int>>>, x: int): nat
  {
    if calls == [] then 0 else Handed(calls[..|calls| - 1], x) + Times(calls[|calls| - 1], x)
  }

  lemma {:induction false} ShiftKeepsSize(s: set<int>)
    ensures |set i | i in s :: i + 1| == |s|
  {
    if s != {} {
      if forall i :: i !in s {
        assert false;
      }
      var x :| x in s;
      ShiftKeepsSize(s - {x});
      var moved, fewer := set i | i in s :: i + 1, set i | i in s - {x} :: i + 1;
      forall y ensures y in moved <==> y in fewer + {x + 1} {
        assert y in moved <==> y - 1 in s;
        assert y in fewer <==> y - 1 in s - {x};
      }
      assert moved == fewer + {x + 1};
    }
  }

  lemma TimesCons(a: Option<int>, rest: seq<Option<int>>, x: int)
    ensures Times([a] + rest, x) == Times(rest, x) + if a == Some(x) then 1 else 0
  {
    var args := [a] + rest;
    var later := set i | 0 <= i < |rest| && rest[i] == Some(x);
    var moved := set i | i in later :: i + 1;
    ShiftKeepsSize(later);
    var here := if a == Some(x) then {0} else {};
    forall i ensures i in here + moved <==> 0 <= i < |args| && args[i] == Some(x) {
      if 0 < i < |args| {
        assert args[i] == rest[i - 1];
        assert args[i] == Some(x) ==> i - 1 in later;
      }
    }
    assert (set i | 0 <= i < |args| && args[i] == Some(x)) == here + moved;
  }

  /** `Strings` holds every non-null string as often as it is an argument. */
  lemma {:induction false} StringsCount(args: seq<Option<int>>, x: int)
    ensures multiset(Strings(args))[x] == Times(args, x)
  {
    if args != [] {
      StringsCount(args[1..], x);
      assert args == [args[0]] + args[1..];
      TimesCons(args[0], args[1..], x);
    }
  }

  lemma ConcatCount(a: seq<int>, b: seq<int>, x: int)
    ensures multiset(a + b)[x] == multiset(a)[x] + multiset(b)[x]
  {
  }

  lemma {:induction false} AllCount(calls: seq<seq<Option<int>>>, x: int)
    ensures multiset(All(calls))[x] == Handed(calls, x)
  {
    if calls != [] {
      AllCount(calls[..|calls| - 1], x);
      StringsCount(calls[|calls| - 1], x);
      ConcatCount(All(calls[..|calls| - 1]), Strings(calls[|calls| - 1]), x);
    }
  }

  /** The arguments that the entries of a queue hold. */
  function ArgsIn(q: seq<Entry>): seq<seq<Option<int>>>
  {
    seq(|q|, i requires 0 <= i < |q| => q[i].args)
  }

  lemma OwnedLast(q: seq<Entry>)
    requires q != []
    ensures var init, last := q[..|q| - 1], q[|q| - 1];
            Owned(q) == Owned(init) + Strings(last.args) &&
            ArgsIn(q)[..|q| - 1] == ArgsIn(init) && ArgsIn(q)[|q| - 1] == last.args
  {
    var init, last := q[..|q| - 1], q[|q| - 1];
    OwnedConcat(init, [last]);
    assert q == init + [last];
    assert Owned([last]) == Strings(last.args) + Owned([]);
  }

  lemma {:induction false} OwnedCount(q: seq<Entry>, x: int)
    ensures multiset(Owned(q))[x] == Handed(ArgsIn(q), x)
  {
    if q != [] {
      var init, last := q[..|q| - 1], q[|q| - 1];
      OwnedLast(q);
      OwnedCount(init, x);
      StringsCount(last.args, x);
      ConcatCount(Owned(init), Strings(last.args), x);
    }
  }

  /** In every run a string was handed in with accepted calls as often as the entries
      still queued hold it and it was freed. */
  lemma EveryStringAccounted(foreign: set<int>, events: seq<Event>, x: int)
    ensures var s := Run(START, foreign, events);
            Handed(ArgsIn(s.queue), x) + multiset(s.released)[x] == Handed(s.accepted, x)
  {
    var s := Run(START, foreign, events);
    StringsConserved(foreign, events);
    OwnedCount(s.queue, x);
    AllCount(s.accepted, x);
    assert (multiset(Owned(s.queue)) + multiset(s.released))[x] == multiset(All(s.accepted))[x];
  }

  lemma {:induction false} AllEmpty(calls: seq<seq<Option<int>>>)
    ensures All(calls) == [] <==> forall i :: 0 <= i < |calls| ==> Strings(calls[i]) == []
  {
    if calls != [] {
      var init, last := calls[..|calls| - 1], calls[|calls| - 1];
      AllEmpty(init);
      assert All(calls) == [] <==> All(init) == [] && Strings(last) == [];
      assert forall i :: 0 <= i < |init| ==> init[i] == calls[i];
    }
  }

  lemma {:induction false} NoStrings(args: seq<Option<int>>)
    ensures Strings(args) == [] <==> forall j :: 0 <= j < |args| ==> args[j] == None
  {
    if args != [] {
      NoStrings(args[1..]);
      assert args == [args[0]] + args[1..];
    }
  }

  lemma NothingAdded(m: multiset<int>, more: seq<int>)
    ensures m == m + multiset(more) <==> more == []
  {
    if more != [] {
      assert (m + multiset(more))[more[0]] > m[more[0]];
    }
  }

  /** No string handed in is lost exactly when no call whose allocation failed had
      any: such a call's strings are neither queued nor freed. */
  lemma LeaksOnlyRefused(foreign: set<int>, events: seq<Event>)
    ensures var s := Run(START, foreign, events);
            multiset(Owned(s.queue)) + multiset(s.released) == multiset(All(s.accepted)) + multiset(All(s.refused)) <==>
            forall i, j :: 0 <= i < |s.refused| && 0 <= j < |s.refused[i]| ==> s.refused[i][j] == None
  {
    var s := Run(START, foreign, events);
    StringsConserved(foreign, events);
    AllEmpty(s.refused);
    forall i | 0 <= i < |s.refused|
      ensures Strings(s.refused[i]) == [] <==> forall j :: 0 <= j < |s.refused[i]| ==> s.refused[i][j] == None
    {
      NoStrings(s.refused[i]);
    }
    NothingAdded(multiset(All(s.accepted)), All(s.refused));
  }
}
