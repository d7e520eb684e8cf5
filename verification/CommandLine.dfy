/** What the command-line tokenizer computes: a fold of a quoting automaton, and the
    printers it inverts. */
module CommandLine {
  const NUL := '\0'

  datatype Quote = Bare | Single | Double

  /** The automaton's mode, the token being built and the tokens finished. */
  datatype Scan = Scan(quote: Quote, escape: bool, cur: string, out: seq<string>)

  const START := Scan(Bare, false, "", [])

  /** Does the automaton swallow `c`? */
  predicate Swallows(st: Scan, c: char)
  {
    !st.escape && (c == '\\' || (c == '"' && st.quote != Single) || (c == '\'' && st.quote != Double))
  }

  function Feed(st: Scan, c: char): Scan
  {
    if !Swallows(st, c) then
      if c == ' ' && !st.escape && st.quote == Bare then st.(cur := "", out := st.out + [st.cur])
      else st.(escape := false, cur := st.cur + [c])
    else if c == '\\' then st.(escape := true)
    else if c == '"' then st.(quote := if st.quote == Double then Bare else Double)
    else st.(quote := if st.quote == Single then Bare else Single)
  }

  function FeedAll(st: Scan, s: string): Scan
    decreases |s|
  {
    if s == "" then st else FeedAll(Feed(st, s[0]), s[1..])
  }

  function Flush(st: Scan): seq<string>
  {
    if st.cur == "" then st.out else st.out + [st.cur]
  }

  function Tokens(s: string): seq<string>
  {
    Flush(FeedAll(START, s))
  }

  // ---- Compositionality ----

  lemma {:induction false} FeedAllConcat(st: Scan, a: string, b: string)
    ensures FeedAll(st, a + b) == FeedAll(FeedAll(st, a), b)
    decreases |a|
  {
    if a == "" {
      assert a + b == b;
    } else {
      FeedAllConcat(Feed(st, a[0]), a[1..], b);
      assert (a + b)[1..] == a[1..] + b;
    }
  }

  lemma FeedLast(st: Scan, s: string, i: nat)
    requires i < |s|
    ensures FeedAll(st, s[..i + 1]) == Feed(FeedAll(st, s[..i]), s[i])
  {
    FeedAllConcat(st, s[..i], [s[i]]);
    assert s[..i + 1] == s[..i] + [s[i]];
    assert FeedAll(Feed(FeedAll(st, s[..i]), s[i]), "") == Feed(FeedAll(st, s[..i]), s[i]);
  }

  /** Tokens already finished are never looked at again. */
  lemma {:induction false} OutIsPrefix(st: Scan, done: seq<string>, s: string)
    ensures FeedAll(st.(out := done + st.out), s) == FeedAll(st, s).(out := done + FeedAll(st, s).out)
    decreases |s|
  {
    if s != "" {
      var next := Feed(st, s[0]);
      assert Feed(st.(out := done + st.out), s[0]) == next.(out := done + next.out) by {
        assert (done + st.out) + [st.cur] == done + (st.out + [st.cur]);
      }
      OutIsPrefix(next, done, s[1..]);
    }
  }

  /** A space outside quotes and escapes cuts the line into two independent parts. */
  lemma CutAtSpace(a: string, b: string)
    requires FeedAll(START, a).quote == Bare && !FeedAll(START, a).escape
    ensures Tokens(a + " " + b) == FeedAll(START, a).out + [FeedAll(START, a).cur] + Tokens(b)
  {
    var st := FeedAll(START, a);
    var cut := Feed(st, ' ');
    FeedAllConcat(START, a + " ", b);
    FeedAllConcat(START, a, " ");
    assert FeedAll(st, " ") == cut;
    assert cut.out == (st.out + [st.cur]) + START.out;
    OutIsPrefix(START, st.out + [st.cur], b);
    assert cut == START.(out := (st.out + [st.cur]) + START.out);
  }

  // ---- Printers and their inverse ----

  /** Every string followed by `end`. */
  function Terminated(ts: seq<string>, end: char): string
  {
    if ts == [] then "" else ts[0] + [end] + Terminated(ts[1..], end)
  }

  function PrintAll(printer: string -> string, ts: seq<string>): string
  {
    if ts == [] then "" else printer(ts[0]) + " " + PrintAll(printer, ts[1..])
  }

  /** Reading what `printer` makes of `t` builds exactly the token `t`. */
  predicate Readable(printer: string -> string, t: string)
  {
    FeedAll(START, printer(t)) == START.(cur := t)
  }

  /** Whatever prints readable tokens is inverted by the tokenizer. */
  lemma {:induction false} PrintedTokens(printer: string -> string, ts: seq<string>)
    requires forall t :: t in ts ==> Readable(printer, t)
    ensures Tokens(PrintAll(printer, ts)) == ts
  {
    if ts != [] {
      assert Readable(printer, ts[0]);
      PrintedTokens(printer, ts[1..]);
      CutAtSpace(printer(ts[0]), PrintAll(printer, ts[1..]));
      assert ts == [] + [ts[0]] + ts[1..];
    }
  }

  /** A backslash before every character. */
  function Escaped(t: string): string
  {
    if t == "" then "" else ['\\', t[0]] + Escaped(t[1..])
  }

  function Inner(mark: char, t: string): string
  {
    if t == "" then ""
    else (if t[0] == mark || t[0] == '\\' then ['\\', t[0]] else [t[0]]) + Inner(mark, t[1..])
  }

  /** Double quotes, with a backslash before inner double quotes and backslashes. */
  function Quoted(t: string): string
  {
    ['"'] + Inner('"', t) + ['"']
  }

  /** Single quotes, with a backslash before inner single quotes and backslashes. */
  function SingleQuoted(t: string): string
  {
    ['\''] + Inner('\'', t) + ['\'']
  }

  lemma FeedTwo(st: Scan, c: char, d: char, rest: string)
    ensures FeedAll(st, [c] + rest) == FeedAll(Feed(st, c), rest)
    ensures FeedAll(st, [c, d] + rest) == FeedAll(Feed(Feed(st, c), d), rest)
  {
  }

  lemma FeedEscaped(cur: string, c: char, rest: string)
    ensures FeedAll(START.(cur := cur), ['\\', c] + rest) == FeedAll(START.(cur := cur + [c]), rest)
  {
    FeedTwo(START.(cur := cur), '\\', c, rest);
  }

  lemma {:induction false} EscapedBuilds(cur: string, t: string)
    ensures FeedAll(START.(cur := cur), Escaped(t)) == START.(cur := cur + t)
    decreases |t|
  {
    if t == "" {
      assert cur + t == cur;
    } else {
      FeedEscaped(cur, t[0], Escaped(t[1..]));
      EscapedBuilds(cur + [t[0]], t[1..]);
      assert cur + [t[0]] + t[1..] == cur + t;
    }
  }

  function Mode(mark: char): Quote
  {
    if mark == '"' then Double else Single
  }

  lemma FeedInner(mark: char, cur: string, c: char, rest: string)
    requires mark == '"' || mark == '\''
    ensures FeedAll(Scan(Mode(mark), false, cur, []), (if c == mark || c == '\\' then ['\\', c] else [c]) + rest)
            == FeedAll(Scan(Mode(mark), false, cur + [c], []), rest)
  {
    FeedTwo(Scan(Mode(mark), false, cur, []), if c == mark || c == '\\' then '\\' else c, c, rest);
  }

  lemma {:induction false} InnerBuilds(mark: char, cur: string, t: string)
    requires mark == '"' || mark == '\''
    ensures FeedAll(Scan(Mode(mark), false, cur, []), Inner(mark, t)) == Scan(Mode(mark), false, cur + t, [])
    decreases |t|
  {
    if t == "" {
      assert cur + t == cur;
    } else {
      FeedInner(mark, cur, t[0], Inner(mark, t[1..]));
      InnerBuilds(mark, cur + [t[0]], t[1..]);
      assert cur + [t[0]] + t[1..] == cur + t;
    }
  }

  lemma MarkedReadable(mark: char, t: string)
    requires mark == '"' || mark == '\''
    ensures FeedAll(START, [mark] + Inner(mark, t) + [mark]) == START.(cur := t)
  {
    FeedTwo(START, mark, mark, Inner(mark, t) + [mark]);
    assert [mark] + Inner(mark, t) + [mark] == [mark] + (Inner(mark, t) + [mark]);
    FeedAllConcat(Scan(Mode(mark), false, "", []), Inner(mark, t), [mark]);
    InnerBuilds(mark, "", t);
    FeedTwo(Scan(Mode(mark), false, t, []), mark, mark, "");
    assert [mark] + "" == [mark];
  }

  lemma EscapedReadable(t: string)
    ensures Readable(Escaped, t)
  {
    EscapedBuilds("", t);
  }

  /** All three printers are inverted by the tokenizer, on every token vector. */
  lemma PrintersInverted(ts: seq<string>)
    ensures Tokens(PrintAll(Escaped, ts)) == ts
    ensures Tokens(PrintAll(Quoted, ts)) == ts
    ensures Tokens(PrintAll(SingleQuoted, ts)) == ts
  {
    forall t | t in ts ensures Readable(Escaped, t) && Readable(Quoted, t) && Readable(SingleQuoted, t) {
      EscapedReadable(t);
      MarkedReadable('"', t);
      MarkedReadable('\'', t);
    }
    PrintedTokens(Escaped, ts);
    PrintedTokens(Quoted, ts);
    PrintedTokens(SingleQuoted, ts);
  }
}
