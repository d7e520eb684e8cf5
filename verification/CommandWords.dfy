/** The language of command lines as a grammar of words, and what each line means. The
    grammar knows no automaton; the tokenizer yields its meaning on every line. */
module CommandWords {
  import opened Wrappers
  import opened CommandLine

  /** A character that stands for itself, or one behind a backslash. */
  datatype Unit = Raw(c: char) | Esc(c: char)

  /** A unit outside quotes, or units between two equal quotes. */
  datatype Piece = One(u: Unit) | Group(mark: char, inside: seq<Unit>)

  /** How a line ends: properly, in a backslash, or inside a group, in a backslash or not. */
  datatype Tail = Closed | Dangling | Open(mark: char, inside: seq<Unit>, dangling: bool)

  /** Words that are followed by a space, the last word and the end. */
  datatype Line = Line(words: seq<seq<Piece>>, last: seq<Piece>, tail: Tail)

  // ---- Which lines are well formed ----

  predicate IsMark(c: char) { c == '"' || c == '\'' }

  predicate UnitOk(mark: char, u: Unit)
  {
    u.Esc? || (u.c != mark && u.c != '\\')
  }

  predicate UnitsOk(mark: char, us: seq<Unit>)
  {
    IsMark(mark) && forall i :: 0 <= i < |us| ==> UnitOk(mark, us[i])
  }

  predicate PieceOk(p: Piece)
  {
    match p
    case One(Raw(c)) => c != ' ' && c != '\\' && !IsMark(c)
    case One(Esc(_)) => true
    case Group(mark, inside) => UnitsOk(mark, inside)
  }

  predicate WordOk(w: seq<Piece>)
  {
    forall i :: 0 <= i < |w| ==> PieceOk(w[i])
  }

  predicate LineOk(l: Line)
  {
    (forall i :: 0 <= i < |l.words| ==> WordOk(l.words[i])) && WordOk(l.last) &&
    (l.tail.Open? ==> UnitsOk(l.tail.mark, l.tail.inside))
  }

  // ---- How they are written ----

  function UnitText(u: Unit): string
  {
    if u.Raw? then [u.c] else ['\\', u.c]
  }

  function UnitsText(us: seq<Unit>): string
  {
    if us == [] then "" else UnitsText(us[..|us| - 1]) + UnitText(us[|us| - 1])
  }

  function PieceText(p: Piece): string
  {
    match p
    case One(u) => UnitText(u)
    case Group(mark, inside) => [mark] + UnitsText(inside) + [mark]
  }

  function WordText(w: seq<Piece>): string
  {
    if w == [] then "" else WordText(w[..|w| - 1]) + PieceText(w[|w| - 1])
  }

  function WordsText(ws: seq<seq<Piece>>): string
  {
    if ws == [] then "" else WordsText(ws[..|ws| - 1]) + (WordText(ws[|ws| - 1]) + " ")
  }

  function TailText(tail: Tail): string
  {
    match tail
    case Closed => ""
    case Dangling => ['\\']
    case Open(mark, inside, false) => [mark] + UnitsText(inside)
    case Open(mark, inside, true) => [mark] + UnitsText(inside) + ['\\']
  }

  function LineText(l: Line): string
  {
    WordsText(l.words) + WordText(l.last) + TailText(l.tail)
  }

  // ---- What they mean ----

  /** The characters of the units, without their backslashes. */
  function UnitsMeaning(us: seq<Unit>): (r: string)
    ensures |r| == |us| && forall i :: 0 <= i < |us| ==> r[i] == us[i].c
  {
    seq(|us|, i requires 0 <= i < |us| => us[i].c)
  }

  function PieceMeaning(p: Piece): string
  {
    match p
    case One(u) => [u.c]
    case Group(_, inside) => UnitsMeaning(inside)
  }

  /** The pieces of a word, run together. */
  function WordMeaning(w: seq<Piece>): string
  {
    if w == [] then "" else WordMeaning(w[..|w| - 1]) + PieceMeaning(w[|w| - 1])
  }

  function WordsMeaning(ws: seq<seq<Piece>>): (r: seq<string>)
    ensures |r| == |ws| && forall i :: 0 <= i < |ws| ==> r[i] == WordMeaning(ws[i])
  {
    seq(|ws|, i requires 0 <= i < |ws| => WordMeaning(ws[i]))
  }

  /** A group left open still counts, a dangling backslash does not. */
  function TailMeaning(tail: Tail): string
  {
    if tail.Open? then UnitsMeaning(tail.inside) else ""
  }

  /** One token for every word with its space, empty or not, and one for the rest unless
      that is empty. */
  function LineMeaning(l: Line): seq<string>
  {
    var rest := WordMeaning(l.last) + TailMeaning(l.tail);
    WordsMeaning(l.words) + if rest == "" then [] else [rest]
  }

  // ---- The tokenizer yields the meaning ----

  lemma FeedOne(st: Scan, c: char)
    ensures FeedAll(st, [c]) == Feed(st, c)
  {
    FeedTwo(st, c, c, "");
    assert [c] + "" == [c];
  }

  lemma UnitBuilds(st: Scan, mark: char, u: Unit)
    requires IsMark(mark) && !st.escape && st.quote == Mode(mark) && UnitOk(mark, u)
    ensures FeedAll(st, UnitText(u)) == st.(cur := st.cur + [u.c])
  {
    if u.Raw? {
      FeedOne(st, u.c);
    } else {
      FeedTwo(st, '\\', u.c, "");
      assert ['\\', u.c] + "" == ['\\', u.c];
    }
  }

  lemma {:induction false} UnitsBuild(st: Scan, mark: char, us: seq<Unit>)
    requires UnitsOk(mark, us) && !st.escape && st.quote == Mode(mark)
    ensures FeedAll(st, UnitsText(us)) == st.(cur := st.cur + UnitsMeaning(us))
  {
    if us == [] {
      assert st.cur + UnitsMeaning(us) == st.cur;
    } else {
      var init, u := us[..|us| - 1], us[|us| - 1];
      UnitsBuild(st, mark, init);
      FeedAllConcat(st, UnitsText(init), UnitText(u));
      UnitBuilds(st.(cur := st.cur + UnitsMeaning(init)), mark, u);
      assert st.cur + UnitsMeaning(us) == st.cur + UnitsMeaning(init) + [u.c];
    }
  }

  /** An open group has been read up to here. */
  lemma OpenBuilds(cur: string, out: seq<string>, mark: char, us: seq<Unit>)
    requires UnitsOk(mark, us)
    ensures FeedAll(Scan(Bare, false, cur, out), [mark] + UnitsText(us))
            == Scan(Mode(mark), false, cur + UnitsMeaning(us), out)
  {
    FeedTwo(Scan(Bare, false, cur, out), mark, mark, UnitsText(us));
    UnitsBuild(Scan(Mode(mark), false, cur, out), mark, us);
  }

  lemma PieceBuilds(cur: string, p: Piece)
    requires PieceOk(p)
    ensures FeedAll(START.(cur := cur), PieceText(p)) == START.(cur := cur + PieceMeaning(p))
  {
    match p
    case One(Raw(c)) => FeedOne(START.(cur := cur), c);
    case One(Esc(c)) =>
      FeedEscaped(cur, c, "");
      assert ['\\', c] + "" == ['\\', c];
    case Group(mark, inside) =>
      OpenBuilds(cur, [], mark, inside);
      FeedAllConcat(START.(cur := cur), [mark] + UnitsText(inside), [mark]);
      FeedOne(Scan(Mode(mark), false, cur + UnitsMeaning(inside), []), mark);
  }

  lemma {:induction false} WordBuilds(w: seq<Piece>)
    requires WordOk(w)
    ensures FeedAll(START, WordText(w)) == START.(cur := WordMeaning(w))
  {
    if w != [] {
      var init, p := w[..|w| - 1], w[|w| - 1];
      WordBuilds(init);
      FeedAllConcat(START, WordText(init), PieceText(p));
      PieceBuilds(WordMeaning(init), p);
    }
  }

  lemma OneWord(w: seq<Piece>, rest: string)
    requires WordOk(w)
    ensures Tokens(WordText(w) + " " + rest) == [WordMeaning(w)] + Tokens(rest)
  {
    WordBuilds(w);
    CutAtSpace(WordText(w), rest);
  }

  lemma WordsLast(ws: seq<seq<Piece>>, rest: string)
    requires ws != []
    ensures var init, w := ws[..|ws| - 1], ws[|ws| - 1];
            WordsText(ws) + rest == WordsText(init) + (WordText(w) + " " + rest)
  {
    Regroup(WordsText(ws[..|ws| - 1]), WordText(ws[|ws| - 1]) + " ", rest);
  }

  lemma MeaningLast(ws: seq<seq<Piece>>)
    requires ws != []
    ensures WordsMeaning(ws) == WordsMeaning(ws[..|ws| - 1]) + [WordMeaning(ws[|ws| - 1])]
  {
  }

  lemma {:induction false} WordsCut(ws: seq<seq<Piece>>, rest: string)
    requires forall i :: 0 <= i < |ws| ==> WordOk(ws[i])
    ensures Tokens(WordsText(ws) + rest) == WordsMeaning(ws) + Tokens(rest)
  {
    if ws == [] {
      assert WordsText(ws) + rest == rest;
    } else {
      var init, w := ws[..|ws| - 1], ws[|ws| - 1];
      WordsLast(ws, rest);
      MeaningLast(ws);
      WordsCut(init, WordText(w) + " " + rest);
      OneWord(w, rest);
      Regroup(WordsMeaning(init), [WordMeaning(w)], Tokens(rest));
    }
  }

  lemma LastToken(last: seq<Piece>, tail: Tail)
    requires WordOk(last) && (tail.Open? ==> UnitsOk(tail.mark, tail.inside))
    ensures FeedAll(START, WordText(last) + TailText(tail)).cur == WordMeaning(last) + TailMeaning(tail)
    ensures FeedAll(START, WordText(last) + TailText(tail)).out == []
  {
    var st := START.(cur := WordMeaning(last));
    WordBuilds(last);
    FeedAllConcat(START, WordText(last), TailText(tail));
    match tail
    case Closed =>
    case Dangling => FeedOne(st, '\\');
    case Open(mark, inside, dangling) =>
      OpenBuilds(WordMeaning(last), [], mark, inside);
      if dangling {
        FeedAllConcat(st, [mark] + UnitsText(inside), ['\\']);
        FeedOne(Scan(Mode(mark), false, WordMeaning(last) + UnitsMeaning(inside), []), '\\');
      }
  }

  /** The tokens of a well-formed line are its meaning. */
  lemma TokensAreMeaning(l: Line)
    requires LineOk(l)
    ensures Tokens(LineText(l)) == LineMeaning(l)
  {
    var rest := WordText(l.last) + TailText(l.tail);
    Regroup(WordsText(l.words), WordText(l.last), TailText(l.tail));
    WordsCut(l.words, rest);
    LastToken(l.last, l.tail);
  }

  // ---- Every string is a well-formed line ----

  /** The line `l` with one more character. */
  function Extend(l: Line, c: char): Line
  {
    match l.tail
    case Closed =>
      if c == ' ' then Line(l.words + [l.last], [], Closed)
      else if c == '\\' then l.(tail := Dangling)
      else if IsMark(c) then l.(tail := Open(c, [], false))
      else l.(last := l.last + [One(Raw(c))])
    case Dangling => l.(last := l.last + [One(Esc(c))], tail := Closed)
    case Open(mark, inside, true) => l.(tail := Open(mark, inside + [Esc(c)], false))
    case Open(mark, inside, false) =>
      if c == '\\' then l.(tail := Open(mark, inside, true))
      else if c == mark then l.(last := l.last + [Group(mark, inside)], tail := Closed)
      else l.(tail := Open(mark, inside + [Raw(c)], false))
  }

  lemma TailGrows(l: Line, tail: Tail, c: char)
    requires TailText(tail) == TailText(l.tail) + [c]
    ensures LineText(l.(tail := tail)) == LineText(l) + [c]
  {
    Regroup(WordsText(l.words) + WordText(l.last), TailText(l.tail), [c]);
  }

  lemma LastGrows(l: Line, p: Piece, c: char)
    requires PieceText(p) == TailText(l.tail) + [c]
    ensures LineText(l.(last := l.last + [p], tail := Closed)) == LineText(l) + [c]
  {
    var words, last, tail := WordsText(l.words), WordText(l.last), TailText(l.tail);
    assert (l.last + [p])[..|l.last|] == l.last;
    assert WordText(l.last + [p]) == last + (tail + [c]);
    Regroup(words, last, tail + [c]);
    Regroup(words + last, tail, [c]);
    assert words + (last + (tail + [c])) + "" == words + (last + (tail + [c]));
  }

  lemma WordEnds(l: Line)
    requires l.tail.Closed?
    ensures LineText(Line(l.words + [l.last], [], Closed)) == LineText(l) + " "
  {
    var words, last := WordsText(l.words), WordText(l.last);
    assert (l.words + [l.last])[..|l.words|] == l.words;
    assert WordsText(l.words + [l.last]) == words + (last + " ");
    Regroup(words, last, " ");
    assert words + last + "" == words + last;
    assert words + (last + " ") + "" + "" == words + (last + " ");
  }

  lemma UnitsGrow(mark: char, us: seq<Unit>, u: Unit)
    ensures [mark] + UnitsText(us + [u]) == ([mark] + UnitsText(us)) + UnitText(u)
  {
    assert (us + [u])[..|us|] == us;
    Regroup([mark], UnitsText(us), UnitText(u));
  }

  lemma OpenReads(l: Line, c: char)
    requires l.tail.Open?
    ensures LineText(Extend(l, c)) == LineText(l) + [c]
  {
    var mark, inside := l.tail.mark, l.tail.inside;
    if l.tail.dangling {
      UnitsGrow(mark, inside, Esc(c));
      Regroup([mark] + UnitsText(inside), ['\\'], [c]);
      assert ['\\'] + [c] == UnitText(Esc(c));
      TailGrows(l, Open(mark, inside + [Esc(c)], false), c);
    } else if c == '\\' {
      TailGrows(l, Open(mark, inside, true), c);
    } else if c == mark {
      LastGrows(l, Group(mark, inside), c);
    } else {
      UnitsGrow(mark, inside, Raw(c));
      TailGrows(l, Open(mark, inside + [Raw(c)], false), c);
    }
  }

  lemma ExtendOk(l: Line, c: char)
    requires LineOk(l)
    ensures LineOk(Extend(l, c))
  {
  }

  lemma ExtendReads(l: Line, c: char)
    ensures LineText(Extend(l, c)) == LineText(l) + [c]
  {
    match l.tail
    case Closed =>
      if c == ' ' {
        WordEnds(l);
      } else if c == '\\' {
        TailGrows(l, Dangling, c);
      } else if IsMark(c) {
        TailGrows(l, Open(c, [], false), c);
      } else {
        LastGrows(l, One(Raw(c)), c);
      }
    case Dangling => LastGrows(l, One(Esc(c)), c);
    case Open(_, _, _) => OpenReads(l, c);
  }

  lemma NothingReads()
    ensures LineText(Line([], [], Closed)) == ""
  {
    assert WordsText([]) == "" && WordText([]) == "" && TailText(Closed) == "";
  }

  lemma Longer(l: Line, c: char) returns (m: Line)
    requires LineOk(l)
    ensures LineOk(m) && LineText(m) == LineText(l) + [c]
  {
    m := Extend(l, c);
    ExtendOk(l, c);
    ExtendReads(l, c);
  }

  lemma {:induction false} Parse(s: string) returns (l: Line)
    ensures LineOk(l) && LineText(l) == s
  {
    if s == "" {
      l := Line([], [], Closed);
      NothingReads();
    } else {
      var init := Parse(s[..|s| - 1]);
      l := Longer(init, s[|s| - 1]);
      assert s == s[..|s| - 1] + [s[|s| - 1]];
    }
  }

  /** Every string is the text of a well-formed line, and its tokens are the meaning of
      every such line. */
  lemma EveryLineHasItsMeaning(s: string)
    ensures exists l :: LineOk(l) && LineText(l) == s
    ensures forall l :: LineOk(l) && LineText(l) == s ==> Tokens(s) == LineMeaning(l)
  {
    var _ := Parse(s);
    forall l | LineOk(l) && LineText(l) == s ensures Tokens(s) == LineMeaning(l) {
      TokensAreMeaning(l);
    }
  }
}
