/** The round trip of a permanent process's argument vector: stored with NUL
    terminators, turned into a command line, and split again. */
module Relaunch {
  import opened Wrappers
  import opened CommandLine

  /** The characters up to the first NUL. */
  function CString(s: string): (r: string)
    ensures |r| <= |s| && r == s[..|r|] && NUL !in r
    ensures |r| < |s| ==> s[|r|] == NUL
  {
    if s == "" || s[0] == NUL then "" else [s[0]] + CString(s[1..])
  }

  /** `s` with every NUL among its first `n` characters made a space. */
  function Spaced(s: string, n: int): (r: string)
    ensures |r| == |s|
    ensures forall i :: 0 <= i < |s| ==> r[i] == if i < n && s[i] == NUL then ' ' else s[i]
  {
    seq(|s|, i requires 0 <= i < |s| => if i < n && s[i] == NUL then ' ' else s[i])
  }

  /** The zero-filled buffer a stored file is read into, with all but its last
      character spaced. */
  function Permanent(file: string): string
  {
    Spaced(file + [NUL], |file| - 1)
  }

  function Command(path: string, arg: string): string
  {
    path + " " + arg
  }

  /** The argument vector a stored file is relaunched with. */
  function Relaunched(file: string): seq<string>
  {
    Tokens(Command(CString(Permanent(file)), ""))
  }

  function Stored(ts: seq<string>): string
  {
    Terminated(ts, NUL)
  }

  // ---- The command line is the vector with a space after every argument ----

  predicate NulFree(ts: seq<string>)
  {
    forall t :: t in ts ==> NUL !in t
  }

  lemma {:induction false} TerminatedSpaced(ts: seq<string>)
    requires NulFree(ts)
    ensures Spaced(Stored(ts), |Stored(ts)|) == Terminated(ts, ' ')
    ensures NUL !in Terminated(ts, ' ')
    ensures ts != [] ==> |Stored(ts)| > 0 && Stored(ts)[|Stored(ts)| - 1] == NUL
  {
    if ts != [] {
      var rest := ts[1..];
      forall t | t in rest ensures NUL !in t {
        assert t in ts;
      }
      TerminatedSpaced(rest);
      assert Stored(ts) == ts[0] + [NUL] + Stored(rest);
      assert ts[0] in ts;
      assert Spaced(Stored(ts), |Stored(ts)|) == ts[0] + [' '] + Spaced(Stored(rest), |Stored(rest)|);
    }
  }

  lemma {:induction false} CStringAt(s: string, n: nat)
    requires n < |s| && s[n] == NUL && NUL !in s[..n]
    ensures CString(s) == s[..n]
    decreases n
  {
  }

  lemma RelaunchLine(ts: seq<string>, arg: string)
    requires ts != [] && NulFree(ts)
    ensures Command(CString(Permanent(Stored(ts))), arg) == Terminated(ts, ' ') + arg
  {
    var file := Stored(ts);
    var n := |file| - 1;
    TerminatedSpaced(ts);
    var line, buf := Terminated(ts, ' '), Permanent(file);
    assert line == Spaced(file, |file|);
    assert buf[..n] == line[..n] && buf[n] == NUL && line[n] == ' ';
    CStringAt(buf, n);
    assert line == line[..n] + " ";
  }

  // ---- Which vectors survive ----

  predicate Special(c: char)
  {
    c == '\\' || c == '"' || c == '\''
  }

  /** No space, quote or backslash. */
  predicate Plain(t: string)
  {
    forall i :: 0 <= i < |t| ==> t[i] != ' ' && !Special(t[i])
  }

  lemma {:induction false} PlainBuilds(cur: string, t: string)
    requires Plain(t)
    ensures FeedAll(START.(cur := cur), t) == START.(cur := cur + t)
    decreases |t|
  {
    if t == "" {
      assert cur + t == cur;
    } else {
      PlainBuilds(cur + [t[0]], t[1..]);
      assert cur + [t[0]] + t[1..] == cur + t;
    }
  }

  lemma {:induction false} SpacedIsPrinted(ts: seq<string>)
    ensures Terminated(ts, ' ') == PrintAll((t: string) => t, ts)
  {
    if ts != [] {
      SpacedIsPrinted(ts[1..]);
    }
  }

  lemma PlainSurvives(ts: seq<string>)
    requires forall t :: t in ts ==> Plain(t)
    ensures Tokens(Terminated(ts, ' ')) == ts
  {
    var printer := (t: string) => t;
    forall t | t in ts ensures Readable(printer, t) {
      PlainBuilds("", t);
    }
    SpacedIsPrinted(ts);
    PrintedTokens(printer, ts);
  }

  /** What the automaton does not swallow of `s`. */
  function Kept(st: Scan, s: string): (r: string)
    ensures |r| <= |s| && (|r| == |s| ==> r == s)
    decreases |s|
  {
    if s == "" then ""
    else (if Swallows(st, s[0]) then "" else [s[0]]) + Kept(Feed(st, s[0]), s[1..])
  }

  /** The tokens finished, each with its space, and the one being built. */
  function Text(st: Scan): string
  {
    Terminated(st.out, ' ') + st.cur
  }

  lemma {:induction false} TerminatedAppend(ts: seq<string>, t: string)
    ensures Terminated(ts + [t], ' ') == Terminated(ts, ' ') + t + " "
  {
    if ts == [] {
      assert [t][1..] == [];
    } else {
      TerminatedAppend(ts[1..], t);
      assert (ts + [t])[1..] == ts[1..] + [t];
    }
  }

  lemma {:induction false} TextIsKept(st: Scan, s: string)
    ensures Text(FeedAll(st, s)) == Text(st) + Kept(st, s)
    decreases |s|
  {
    if s != "" {
      var next := Feed(st, s[0]);
      TextIsKept(next, s[1..]);
      TerminatedAppend(st.out, st.cur);
      assert Text(next) == Text(st) + if Swallows(st, s[0]) then "" else [s[0]];
    }
  }

  lemma {:induction false} KeptConcat(st: Scan, a: string, b: string)
    ensures Kept(st, a + b) == Kept(st, a) + Kept(FeedAll(st, a), b)
    decreases |a|
  {
    if a == "" {
      assert a + b == b;
    } else {
      var rest, next := a[1..], Feed(st, a[0]);
      KeptConcat(next, rest, b);
      assert (a + b)[1..] == rest + b;
      Regroup(if Swallows(st, a[0]) then "" else [a[0]], Kept(next, rest), Kept(FeedAll(next, rest), b));
    }
  }

  lemma {:induction false} BareUntilSpecial(s: string)
    requires forall i :: 0 <= i < |s| ==> !Special(s[i])
    ensures var st := FeedAll(START, s);
            st.quote == Bare && !st.escape && Kept(START, s) == s && ' ' !in st.cur &&
            forall t :: t in st.out ==> Plain(t)
    ensures Plain(FeedAll(START, s).cur)
  {
    if s != "" {
      var n := |s| - 1;
      BareUntilSpecial(s[..n]);
      FeedLast(START, s, n);
      assert s[..n + 1] == s;
      KeptConcat(START, s[..n], [s[n]]);
      assert s == s[..n] + [s[n]];
    }
  }

  lemma PrintedBack(s: string)
    ensures var st := FeedAll(START, s);
            Terminated(Tokens(s), ' ') == if st.cur == "" then Text(st) else Text(st) + " "
  {
    var st := FeedAll(START, s);
    TerminatedAppend(st.out, st.cur);
  }

  lemma {:induction false} AllAlike(s: string, i: nat, j: nat)
    requires i <= j < |s| && s == s[..i] + s[i + 1..] + " "
    ensures s[i] == s[j]
    decreases j
  {
    if i < j {
      AllAlike(s, i, j - 1);
      assert (s[..i] + s[i + 1..] + " ")[j - 1] == s[j];
    }
  }

  lemma ShiftsOntoSpace(s: string, i: nat, k: string)
    requires i < |s| && s[|s| - 1] == ' ' && s[i] != ' '
    requires |k| <= |s| - i - 1 && (|k| == |s| - i - 1 ==> k == s[i + 1..])
    ensures s != s[..i] + k && s != s[..i] + k + " "
  {
    if s == s[..i] + k + " " {
      AllAlike(s, i, |s| - 1);
    }
  }

  /** Of a line whose first special character is at `i` that character is not kept. */
  lemma FirstIsDropped(s: string, i: nat) returns (k: string)
    requires i < |s| && Special(s[i])
    requires forall j :: 0 <= j < i ==> !Special(s[j])
    ensures Kept(START, s) == s[..i] + k
    ensures |k| <= |s| - i - 1 && (|k| == |s| - i - 1 ==> k == s[i + 1..])
  {
    var front, rest, st := s[..i], s[i + 1..], FeedAll(START, s[..i]);
    BareUntilSpecial(front);
    k := Kept(Feed(st, s[i]), rest);
    assert s == front + ([s[i]] + rest);
    KeptConcat(START, front, [s[i]] + rest);
    assert ([s[i]] + rest)[1..] == rest;
    assert Kept(st, [s[i]] + rest) == "" + k;
  }

  /** A line that ends in a space and holds a special character does not print back
      from its tokens: the first special character is swallowed, so everything
      after it would have to shift onto the final space. */
  lemma SpecialIsLost(s: string, i: nat)
    requires i < |s| && Special(s[i]) && s[|s| - 1] == ' '
    requires forall j :: 0 <= j < i ==> !Special(s[j])
    ensures Terminated(Tokens(s), ' ') != s
  {
    var k := FirstIsDropped(s, i);
    TextIsKept(START, s);
    assert Text(START) + Kept(START, s) == Kept(START, s);
    PrintedBack(s);
    ShiftsOntoSpace(s, i, k);
  }

  lemma {:induction false} FirstSpecial(s: string) returns (i: nat)
    ensures i <= |s| && (i < |s| ==> Special(s[i]))
    ensures forall j :: 0 <= j < i ==> !Special(s[j])
  {
    i := 0;
    while i < |s| && !Special(s[i])
      invariant i <= |s| && forall j :: 0 <= j < i ==> !Special(s[j])
    {
      i := i + 1;
    }
  }

  /** A NUL-free, non-empty argument vector is relaunched unchanged exactly when no
      argument holds a space, a quote or a backslash. */
  lemma RelaunchRoundTrip(ts: seq<string>)
    requires ts != [] && NulFree(ts)
    ensures Relaunched(Stored(ts)) == ts <==> forall t :: t in ts ==> Plain(t)
  {
    var s := Terminated(ts, ' ');
    RelaunchLine(ts, "");
    assert s + "" == s;
    if forall t :: t in ts ==> Plain(t) {
      PlainSurvives(ts);
    } else if Tokens(s) == ts {
      TerminatedAppend(ts[..|ts| - 1], ts[|ts| - 1]);
      assert ts == ts[..|ts| - 1] + [ts[|ts| - 1]];
      var i := FirstSpecial(s);
      if i < |s| {
        SpecialIsLost(s, i);
      } else {
        BareUntilSpecial(s);
        assert false;
      }
    }
  }

  /** An empty vector does not survive: the appended space becomes an argument. */
  lemma EmptyVectorGainsOne()
    ensures Relaunched(Stored([])) == [""]
  {
  }
}
