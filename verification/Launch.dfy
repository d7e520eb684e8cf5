/** The tokenizer and the relaunch path as the code runs them: pointers moving over
    character buffers. */
module Launch {
  import opened Wrappers
  import opened CommandLine
  import opened Relaunch

  const MAX_ARGS := 255

  function Min(a: nat, b: nat): nat { if a < b then a else b }

  function SomeAll(ts: seq<string>): (r: seq<Option<string>>)
    ensures |r| == |ts| && forall i :: 0 <= i < |r| ==> r[i] == Some(ts[i])
  {
    seq(|ts|, i requires 0 <= i < |ts| => Some(ts[i]))
  }

  /** The parser's argument array when it stops: as many tokens as fit under
      `maxArgs`, then a null slot, and the rest as before. When the tokens take every
      slot there is none for the null. */
  function Filled(before: seq<Option<string>>, ts: seq<string>, maxArgs: nat): seq<Option<string>>
    requires maxArgs <= |before|
  {
    var n := Min(|ts|, maxArgs);
    SomeAll(ts[..n]) + if n < |before| then [None] + before[n + 1..] else []
  }

  /** The parser's flags and scratch buffer stand for the automaton state `st`;
      the two quote flags are never both set. */
  ghost predicate Holds(st: Scan, buf: array<char>, bufp: nat, escape: bool, squote: bool, dquote: bool)
    reads buf
  {
    && bufp <= buf.Length && st.cur == buf[..bufp]
    && st.escape == escape
    && !(squote && dquote)
    && st.quote == if squote then Single else if dquote then Double else Bare
  }

  /** The tokens finished so far are in the array, as far as they fit. */
  ghost predicate InArray(argv: array<Option<string>>, before: seq<Option<string>>, out: seq<string>,
                         nargs: nat, maxArgs: nat)
    reads argv
  {
    && nargs == Min(|out|, maxArgs) <= argv.Length == |before|
    && argv[..nargs] == SomeAll(out[..nargs])
    && argv[nargs..] == before[nargs..]
  }

  lemma {:induction false} OutNeverShrinks(st: Scan, s: string)
    ensures |st.out| <= |FeedAll(st, s).out|
    decreases |s|
  {
    if s != "" {
      OutNeverShrinks(Feed(st, s[0]), s[1..]);
    }
  }

  /** There is room for every token finished on the way. */
  lemma OutFits(s: string, p: nat)
    requires p <= |s|
    ensures |FeedAll(START, s[..p]).out| <= |Tokens(s)|
  {
    OutNeverShrinks(FeedAll(START, s[..p]), s[p..]);
    FeedAllConcat(START, s[..p], s[p..]);
    assert s == s[..p] + s[p..];
  }

  /** Terminates the scratch buffer and copies it into the array if there is room. */
  method StoreArg(argv: array<Option<string>>, nargs: nat, maxArgs: nat, buf: array<char>, bufp: nat,
                  ghost before: seq<Option<string>>, ghost out: seq<string>)
    returns (nargs': nat)
    requires bufp < buf.Length && NUL !in buf[..bufp]
    requires InArray(argv, before, out, nargs, maxArgs) && Min(|out| + 1, maxArgs) <= argv.Length
    modifies argv, buf
    ensures buf[..bufp] == old(buf[..bufp])
    ensures InArray(argv, before, out + [old(buf[..bufp])], nargs', maxArgs)
  {
    buf[bufp] := NUL;
    nargs' := nargs;
    CStringAt(buf[..], bufp);
    if nargs < maxArgs {
      argv[nargs] := Some(CString(buf[..]));
      nargs' := nargs + 1;
      assert argv[..nargs'] == argv[..nargs] + [argv[nargs]];
    }
  }

  method Put(buf: array<char>, bufp: nat, c: char) returns (bufp': nat)
    requires bufp < buf.Length
    modifies buf
    ensures bufp' == bufp + 1 && buf[..bufp'] == old(buf[..bufp]) + [c]
  {
    buf[bufp] := c;
    bufp' := bufp + 1;
  }

  /** One character of the command line: the parser's switch. */
  method Consume(c: char, argv: array<Option<string>>, nargs: nat, maxArgs: nat, buf: array<char>, bufp: nat,
                 escape: bool, squote: bool, dquote: bool, ghost before: seq<Option<string>>, ghost st: Scan)
    returns (nargs': nat, bufp': nat, escape': bool, squote': bool, dquote': bool)
    requires c != NUL && bufp < buf.Length && NUL !in st.cur
    requires Holds(st, buf, bufp, escape, squote, dquote)
    requires InArray(argv, before, st.out, nargs, maxArgs) && Min(|Feed(st, c).out|, maxArgs) <= argv.Length
    modifies argv, buf
    ensures bufp' <= bufp + 1 && NUL !in Feed(st, c).cur
    ensures Holds(Feed(st, c), buf, bufp', escape', squote', dquote')
    ensures InArray(argv, before, Feed(st, c).out, nargs', maxArgs)
  {
    nargs', bufp', escape', squote', dquote' := nargs, bufp, escape, squote, dquote;
    if escape {
      bufp' := Put(buf, bufp, c);
      escape' := false;
    } else if c == '\\' {
      escape' := true;
    } else if c == '"' {
      if squote {
        bufp' := Put(buf, bufp, c);
      } else {
        dquote' := !dquote;
      }
    } else if c == '\'' {
      if dquote {
        bufp' := Put(buf, bufp, c);
      } else {
        squote' := !squote;
      }
    } else if c == ' ' && !squote && !dquote {
      nargs' := StoreArg(argv, nargs, maxArgs, buf, bufp, before, st.out);
      bufp' := 0;
    } else {
      bufp' := Put(buf, bufp, c);
    }
  }

  /** Writes the null after the tokens, if there is a slot. */
  method CloseArgs(argv: array<Option<string>>, nargs: nat, maxArgs: nat,
                   ghost before: seq<Option<string>>, ghost out: seq<string>)
    returns (overrun: bool)
    requires maxArgs <= argv.Length && InArray(argv, before, out, nargs, maxArgs)
    modifies argv
    ensures overrun <==> nargs == argv.Length
    ensures argv[..] == Filled(before, out, maxArgs)
  {
    overrun := nargs == argv.Length;
    if overrun {
      assert argv[..] == argv[..nargs];
    } else {
      argv[nargs] := None;
      assert argv[..] == argv[..nargs] + [argv[nargs]] + argv[nargs + 1..];
    }
  }

  /** Splits a command line in place of the C parser. The C code writes the null after
      the tokens even when they fill `argv`; `overrun` says that this happened. */
  method ParseCmd(cmdline: Option<string>, argv: array<Option<string>>, maxArgs: nat, mallocOk: bool)
    returns (nargs: int, overrun: bool)
    requires cmdline.Some? ==> NUL !in cmdline.value
    requires maxArgs <= argv.Length
    modifies argv
    ensures nargs == -1 <==> cmdline.None? || cmdline.value == "" || !mallocOk
    ensures nargs == -1 ==> argv[..] == old(argv[..])
    ensures nargs != -1 ==> nargs == Min(|Tokens(cmdline.value)|, maxArgs) + 1
    ensures overrun <==> nargs != -1 && Min(|Tokens(cmdline.value)|, maxArgs) == argv.Length
    ensures nargs != -1 ==> argv[..] == Filled(old(argv[..]), Tokens(cmdline.value), maxArgs)
  {
    if cmdline.None? || cmdline.value == "" {
      return -1, false;
    }
    if !mallocOk {
      return -1, false;
    }
    var s := cmdline.value;
    var buf := new char[|s| + 1];
    var p: nat, bufp: nat, count: nat := 0, 0, 0;
    var escape, squote, dquote := false, false, false;
    ghost var st, before := START, argv[..];
    while p < |s|
      invariant 0 <= p <= |s| && bufp <= p && st == FeedAll(START, s[..p])
      invariant Holds(st, buf, bufp, escape, squote, dquote) && NUL !in st.cur
      invariant InArray(argv, before, st.out, count, maxArgs)
    {
      FeedLast(START, s, p);
      OutFits(s, p + 1);
      count, bufp, escape, squote, dquote :=
        Consume(s[p], argv, count, maxArgs, buf, bufp, escape, squote, dquote, before, st);
      st := Feed(st, s[p]);
      p := p + 1;
    }
    assert s[..p] == s;
    if bufp != 0 {
      count := StoreArg(argv, count, maxArgs, buf, bufp, before, st.out);
    }
    overrun := CloseArgs(argv, count, maxArgs, before, Tokens(s));
    nargs := count + 1;
  }

  /** Overwrites every NUL among the first `size` characters with a space. */
  method ReplaceChar(size: int, t: array<char>)
    requires size <= t.Length
    modifies t
    ensures t[..] == Spaced(old(t[..]), size)
  {
    var left, at := size, 0;
    while left > 0
      invariant 0 <= at && (left > 0 ==> at + left == size) && (left <= 0 ==> at >= size)
      invariant forall i :: 0 <= i < t.Length ==>
        t[i] == if i < at && i < size && old(t[i]) == NUL then ' ' else old(t[i])
    {
      if t[at] == NUL {
        t[at] := ' ';
      }
      left := left - 1;
      at := at + 1;
    }
  }

  /** Reads a stored argument vector into a zero-filled buffer, as a command line.
      `file` is None when it cannot be opened or its size not be found. */
  method GetPermanentPname(file: Option<string>, mallocOk: bool) returns (cmdline: array?<char>)
    ensures cmdline == null <==> file.None? || !mallocOk
    ensures cmdline != null ==> fresh(cmdline) && cmdline[..] == Permanent(file.value)
  {
    if file.None? || !mallocOk {
      return null;
    }
    var bytes := file.value;
    var buf := new char[|bytes| + 1](_ => NUL);
    for i := 0 to |bytes|
      invariant forall j :: 0 <= j < buf.Length ==> buf[j] == if j < i then bytes[j] else NUL
    {
      buf[i] := bytes[i];
    }
    assert buf[..] == bytes + [NUL];
    ReplaceChar(|bytes| - 1, buf);
    cmdline := buf;
  }

  /** The launcher's argument array has MAX_ARGS + 1 slots and offers all of them to
      the parser, so a line of more than MAX_ARGS tokens, and no other, leaves no slot
      for the null. */
  method LaunchArgv(cmdline: string, mallocOk: bool)
    returns (argv: array<Option<string>>, nargs: int, overrun: bool)
    requires NUL !in cmdline
    ensures fresh(argv) && argv.Length == 256
    ensures nargs == -1 <==> cmdline == "" || !mallocOk
    ensures overrun <==> nargs != -1 && |Tokens(cmdline)| > 255
    ensures nargs != -1 && !overrun ==>
              nargs == |Tokens(cmdline)| + 1 <= argv.Length && argv[..nargs] == SomeAll(Tokens(cmdline)) + [None]
    ensures overrun ==> nargs == argv.Length + 1 && argv[..] == SomeAll(Tokens(cmdline)[..argv.Length])
  {
    argv := new Option<string>[MAX_ARGS + 1](_ => None);
    nargs, overrun := ParseCmd(Some(cmdline), argv, MAX_ARGS + 1, mallocOk);
    if nargs != -1 && !overrun {
      assert Tokens(cmdline)[..nargs - 1] == Tokens(cmdline);
    }
  }

  /** A line with `n` tokens. */
  function LineOf(n: nat): string
  {
    Terminated(seq(n, _ => "x"), ' ')
  }

  /** There are lines of every number of tokens, those that overrun among them. */
  lemma LinesOfAllLengths(n: nat)
    ensures NUL !in LineOf(n) && |Tokens(LineOf(n))| == n
  {
    var ts := seq(n, _ => "x");
    TerminatedSpaced(ts);
    PlainSurvives(ts);
  }

  lemma SomeAllInjective(a: seq<string>, b: seq<string>)
    ensures SomeAll(a) + [None] == SomeAll(b) + [None] <==> a == b
  {
    var x, y := SomeAll(a) + [None], SomeAll(b) + [None];
    if x == y {
      assert |a| == |b|;
      forall i | 0 <= i < |a| ensures a[i] == b[i] {
        assert x[i] == y[i];
      }
    }
  }

  /** Relaunches a dead permanent process: the argument vector its successor gets, or
      -1 when it gets none. */
  method RelaunchArgv(file: Option<string>, readOk: bool, buildOk: bool, parseOk: bool)
    returns (argv: array<Option<string>>, nargs: int, overrun: bool)
    ensures fresh(argv)
    ensures nargs == -1 <==> file.None? || !readOk || !buildOk || !parseOk
    ensures overrun <==> nargs != -1 && |Relaunched(file.value)| > 255
    ensures nargs != -1 && !overrun ==>
              nargs == |Relaunched(file.value)| + 1 <= argv.Length &&
              argv[..nargs] == SomeAll(Relaunched(file.value)) + [None] &&
              forall ts :: ts != [] && NulFree(ts) && Stored(ts) == file.value ==>
                (argv[..nargs] == SomeAll(ts) + [None] <==> forall t :: t in ts ==> Plain(t))
  {
    argv, nargs, overrun := new Option<string>[0], -1, false;
    var permanent := GetPermanentPname(file, readOk);
    if permanent == null {
      return;
    }
    var cmdline := CString(permanent[..]);
    if !buildOk {
      return;
    }
    argv, nargs, overrun := LaunchArgv(Command(cmdline, ""), parseOk);
    if nargs != -1 && !overrun {
      forall ts | ts != [] && NulFree(ts) && Stored(ts) == file.value
        ensures argv[..nargs] == SomeAll(ts) + [None] <==> forall t :: t in ts ==> Plain(t)
      {
        RelaunchRoundTrip(ts);
        SomeAllInjective(Relaunched(file.value), ts);
      }
    }
  }

  /** Launching a program unless it runs: `running` is the pid found for it, and the
      pid kept is the truth value of its comparison with 0. */
  function LaunchIfNoexist(execpath: Option<string>, running: int, mallocOk: bool, launched: int): int
  {
    if execpath.None? then -1
    else
      var pid := if running > 0 then 1 else 0;
      if pid != 0 then pid
      else if !mallocOk then -1
      else launched
  }

  /** What the cable action makes of the launcher's pid. */
  function UsbconAnswer(pid: int): int
  {
    if pid < 0 then -1 else pid
  }
}
