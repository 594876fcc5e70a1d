/** What ScriptReadStatement promises: statements come out in a normal form that does not
    depend on how they were laid out on lines, and every list of statements can be written
    down and read back. */
module ScriptLayout {
  import opened Text
  import opened ScriptReader

  // ---------- Reading a text whose lines fit a chunk ----------

  /** Every line has at most 199 characters, its newline included. */
  predicate ShortLines(text: string)
    decreases |text|
  {
    text == "" || (LineEnd(text) <= 199 && ShortLines(AfterLine(text)))
  }

  /** One pass over the characters; comments and what follows a semicolon run to the newline. */
  function Scan(text: string, acc: string, wasSpace: bool): Reading
    decreases |text|
  {
    if text == "" then Reading(acc, "")
    else if text[0] == '\0' then Scan(AfterLine(text), acc, wasSpace)
    else if text[0] == '!' then Scan(AfterLine(text), Separate(acc, wasSpace), true)
    else if text[0] == ';' && acc != "" then Reading(acc, AfterLine(text))
    else if text[0] == ';' then Scan(text[1..], acc, wasSpace)
    else if text[0] == ' ' || IsControl(text[0]) then Scan(text[1..], Separate(acc, wasSpace), true)
    else Scan(text[1..], acc + [text[0]], false)
  }

  /** A limit no smaller than the line does not cut it. */
  lemma {:induction false} LineLenSplit(text: string, m: nat)
    ensures LineLen(text, m) == if LineEnd(text) <= m then LineEnd(text) else m
  {
    if text != "" && m > 0 && text[0] != '\n' {
      LineLenSplit(text[1..], m - 1);
    }
  }

  /** One fgets takes a line, or the first 199 characters of a longer one. */
  lemma ChunkIs(text: string)
    ensures ChunkLen(text) == if LineEnd(text) <= 199 then LineEnd(text) else 199
  {
    LineLenSplit(text, 199);
  }

  lemma {:induction false} NoNewline(a: string, v: string)
    requires '\n' !in a
    ensures LineEnd(a + v) >= |a|
  {
    if a != "" {
      assert (a + v)[1..] == a[1..] + v;
      NoNewline(a[1..], v);
    }
  }

  /** What stands behind the first 199 characters of a comment is read as text. */
  lemma LongCommentResumes(c: string, rest: string, acc: string, wasSpace: bool)
    requires |c| == 198 && '\n' !in c
    ensures ReadFrom("!" + c + rest, acc, wasSpace) == ReadFrom(rest, Separate(acc, wasSpace), true)
  {
    var text := "!" + c + rest;
    NoNewline("!" + c, rest);
    ChunkIs(text);
    assert text[..199] == "!" + c && text[199..] == rest;
    assert ("!" + c)[0] == '!';
  }

  lemma ChunkIsLine(text: string)
    requires LineEnd(text) <= 199
    ensures ChunkLen(text) == LineEnd(text)
  {
    LineLenSplit(text, MAX_SCRIPT_LINE_LEN - 1);
  }

  /** The inner loop over a whole line does what Scan does on that line. */
  lemma {:induction false} ScanOneLine(text: string, acc: string, wasSpace: bool)
    requires text != ""
    ensures match ScanLine(text[..LineEnd(text)], acc, wasSpace)
            case Complete(stmt) => Scan(text, acc, wasSpace) == Reading(stmt, AfterLine(text))
            case Partial(stmt, w) => Scan(text, acc, wasSpace) == Scan(AfterLine(text), stmt, w)
    decreases |text|
  {
    var line := text[..LineEnd(text)];
    assert line[0] == text[0];
    if text[0] == '\n' || |text| == 1 {
      assert line[1..] == "";
      assert text[0] != '\n' ==> text[1..] == "" == AfterLine(text);
    } else {
      var more := text[1..];
      assert LineEnd(text) == 1 + LineEnd(more);
      assert line[1..] == more[..LineEnd(more)];
      assert AfterLine(text) == AfterLine(more);
      var c := text[0];
      if c != '\0' && c != '!' && !(c == ';' && acc != "") {
        ScanOneLine(more,
          if c == ';' then acc else if c == ' ' || IsControl(c) then Separate(acc, wasSpace) else acc + [c],
          if c == ';' then wasSpace else c == ' ' || IsControl(c));
      }
    }
  }

  /** The chunked loop of the program is Scan when every line fits a chunk. */
  lemma {:induction false} ReadIsScan(text: string, acc: string, wasSpace: bool)
    requires ShortLines(text)
    ensures ReadFrom(text, acc, wasSpace) == Scan(text, acc, wasSpace)
    decreases |text|
  {
    if text != "" {
      ChunkIsLine(text);
      ScanOneLine(text, acc, wasSpace);
      match ScanLine(text[..LineEnd(text)], acc, wasSpace)
      case Complete(_) =>
      case Partial(stmt, w) => ReadIsScan(AfterLine(text), stmt, w);
    }
  }

  // ---------- Layouts ----------

  predicate IsBlank(c: char) {
    c != '\0' && (c == ' ' || IsControl(c))
  }

  /** Blanks, control characters, newlines, and comments closed by a newline. */
  predicate IsGap(g: string)
    decreases |g|
  {
    g == "" ||
    (if g[0] == '!' then '\n' in g && IsGap(AfterLine(g)) else IsBlank(g[0]) && IsGap(g[1..]))
  }

  predicate IsPlain(c: char) {
    ' ' < c <= '~' && c != '!' && c != ';'
  }

  predicate IsPlainWord(w: string) {
    w != "" && forall i :: 0 <= i < |w| ==> IsPlain(w[i])
  }

  datatype Piece = Piece(gap: string, word: string)

  /** A statement as somebody typed it: words with gaps before them, a gap before the
      semicolon, and the rest of the line after the semicolon, which is dropped. */
  datatype Layout = Layout(pieces: seq<Piece>, trail: string, tail: string) {
    predicate Valid() {
      && pieces != []
      && (forall i :: 0 <= i < |pieces| ==> IsGap(pieces[i].gap) && IsPlainWord(pieces[i].word))
      && (forall i :: 0 < i < |pieces| ==> pieces[i].gap != "")
      && IsGap(trail)
      && '\n' !in tail
    }

    /** The statement as typed, in front of `more`. */
    function Before(more: string): string {
      RenderPieces(pieces, trail + Close(tail, more))
    }

    /** The statement meant: the words with one space between them, and one more space when
        anything separates the last word from the semicolon. */
    function Meaning(): string {
      Join(Words(pieces)) + (if trail == "" then "" else " ")
    }
  }

  function Close(tail: string, more: string): string {
    ";" + (tail + ("\n" + more))
  }

  function RenderPieces(pieces: seq<Piece>, more: string): string {
    if pieces == [] then more else pieces[0].gap + (pieces[0].word + RenderPieces(pieces[1..], more))
  }

  function Words(pieces: seq<Piece>): (ws: seq<string>)
    ensures |ws| == |pieces|
  {
    if pieces == [] then [] else [pieces[0].word] + Words(pieces[1..])
  }

  /** Statements, and what stands behind the last of them. */
  function RenderAll(doc: seq<Layout>, end: string): string {
    if doc == [] then end else doc[0].Before(RenderAll(doc[1..], end))
  }

  /** Blanks, comments, semicolons, and NULs, which end their line: no statement. */
  predicate IsEnd(g: string)
    decreases |g|
  {
    g == "" ||
    (if g[0] == '!' || g[0] == '\0' then IsEnd(AfterLine(g)) else (IsBlank(g[0]) || g[0] == ';') && IsEnd(g[1..]))
  }

  lemma {:induction false} ScanEnd(g: string)
    requires IsEnd(g)
    ensures Scan(g, "", true) == Reading("", "")
    decreases |g|
  {
    if g != "" {
      if g[0] == '!' || g[0] == '\0' {
        ScanEnd(AfterLine(g));
      } else {
        ScanEnd(g[1..]);
      }
    }
  }

  function Meanings(doc: seq<Layout>): seq<string> {
    if doc == [] then [] else [doc[0].Meaning()] + Meanings(doc[1..])
  }

  lemma {:induction false} LineEndOfLine(a: string, v: string)
    requires '\n' in a
    ensures LineEnd(a + v) == LineEnd(a)
    ensures AfterLine(a + v) == AfterLine(a) + v
  {
    if a[0] != '\n' {
      assert (a + v)[1..] == a[1..] + v;
      LineEndOfLine(a[1..], v);
    }
  }

  lemma {:induction false} ScanGap(g: string, v: string, acc: string, wasSpace: bool)
    requires IsGap(g)
    ensures Scan(g + v, acc, wasSpace) ==
            if g == "" then Scan(v, acc, wasSpace) else Scan(v, Separate(acc, wasSpace), true)
    decreases |g|
  {
    if g == "" {
      assert g + v == v;
    } else if g[0] == '!' {
      LineEndOfLine(g, v);
      ScanGap(AfterLine(g), v, Separate(acc, wasSpace), true);
    } else {
      assert (g + v)[1..] == g[1..] + v;
      ScanGap(g[1..], v, Separate(acc, wasSpace), true);
    }
  }

  lemma {:induction false} ScanWord(w: string, v: string, acc: string, wasSpace: bool)
    requires IsPlainWord(w)
    ensures Scan(w + v, acc, wasSpace) == Scan(v, acc + w, false)
    decreases |w|
  {
    assert (w + v)[1..] == w[1..] + v;
    assert IsPlain(w[0]);
    if |w| == 1 {
      assert w[1..] + v == v && [w[0]] == w;
    } else {
      assert IsPlainWord(w[1..]);
      ScanWord(w[1..], v, acc + [w[0]], false);
      assert acc + [w[0]] + w[1..] == acc + w;
    }
  }

  lemma {:induction false} ScanPieces(pieces: seq<Piece>, v: string, acc: string, wasSpace: bool)
    requires pieces != []
    requires forall i :: 0 <= i < |pieces| ==> IsGap(pieces[i].gap) && IsPlainWord(pieces[i].word)
    requires forall i :: 0 <= i < |pieces| ==> pieces[i].gap != "" || (i == 0 && wasSpace)
    ensures Scan(RenderPieces(pieces, v), acc, wasSpace) ==
            Scan(v, Separate(acc, wasSpace) + Join(Words(pieces)), false)
  {
    var p, rest := pieces[0], RenderPieces(pieces[1..], v);
    ScanGap(p.gap, p.word + rest, acc, wasSpace);
    ScanWord(p.word, rest, Separate(acc, wasSpace), true);
    ScanWord(p.word, rest, acc, wasSpace);
    var acc' := Separate(acc, wasSpace) + p.word;
    if |pieces| > 1 {
      ScanPieces(pieces[1..], v, acc', false);
      assert acc' + " " + Join(Words(pieces[1..])) == Separate(acc, wasSpace) + Join(Words(pieces));
    }
  }

  lemma {:induction false} LineEndOfTail(tail: string, more: string)
    requires '\n' !in tail
    ensures LineEnd(tail + ("\n" + more)) == |tail| + 1
    ensures AfterLine(tail + ("\n" + more)) == more
  {
    if tail == "" {
      assert tail + ("\n" + more) == "\n" + more;
    } else {
      assert (tail + ("\n" + more))[1..] == tail[1..] + ("\n" + more);
      LineEndOfTail(tail[1..], more);
    }
  }

  lemma ScanClose(tail: string, more: string, acc: string, wasSpace: bool)
    requires '\n' !in tail && acc != ""
    ensures Scan(Close(tail, more), acc, wasSpace) == Reading(acc, more)
  {
    LineEndOfTail(";" + tail, more);
    assert ";" + tail + ("\n" + more) == Close(tail, more);
  }

  lemma JoinNotEmpty(pieces: seq<Piece>)
    requires pieces != [] && pieces[0].word != ""
    ensures Join(Words(pieces)) != ""
  {
  }

  lemma ScanLayout(l: Layout, more: string)
    requires l.Valid()
    ensures Scan(l.Before(more), "", true) == Reading(l.Meaning(), more)
    ensures l.Meaning() != ""
  {
    ScanPieces(l.pieces, l.trail + Close(l.tail, more), "", true);
    JoinNotEmpty(l.pieces);
    ScanTrail(l.trail, l.tail, more, "" + Join(Words(l.pieces)));
    assert "" + Join(Words(l.pieces)) == Join(Words(l.pieces));
    assert l.trail == "" ==> Join(Words(l.pieces)) + "" == Join(Words(l.pieces));
  }

  lemma ScanTrail(trail: string, tail: string, more: string, words: string)
    requires IsGap(trail) && '\n' !in tail && words != ""
    ensures Scan(trail + Close(tail, more), words, false) == Reading(if trail == "" then words else words + " ", more)
  {
    ScanGap(trail, Close(tail, more), words, false);
    ScanClose(tail, more, words, false);
    ScanClose(tail, more, words + " ", true);
  }

  /** Dropping whole lines from the front leaves short lines short. */
  lemma {:induction false} ShortRest(a: string, v: string)
    requires a == "" || a[|a| - 1] == '\n'
    requires ShortLines(a + v)
    ensures ShortLines(v)
    decreases |a|
  {
    if a == "" {
      assert a + v == v;
    } else {
      assert '\n' in a;
      LineEndOfLine(a, v);
      var rest := AfterLine(a);
      assert rest != "" ==> rest[|rest| - 1] == a[|a| - 1];
      ShortRest(rest, v);
    }
  }

  lemma {:induction false} RenderSplit(pieces: seq<Piece>, v: string)
    ensures RenderPieces(pieces, v) == RenderPieces(pieces, "") + v
  {
    if pieces != [] {
      RenderSplit(pieces[1..], v);
      Append3(pieces[0].gap, pieces[0].word, RenderPieces(pieces[1..], ""), v);
    } else {
      assert "" + v == v;
    }
  }

  lemma Append3(a: string, b: string, c: string, d: string)
    ensures a + (b + (c + d)) == a + (b + c) + d
  {
  }

  lemma CloseSplit(front: string, trail: string, tail: string, more: string)
    ensures front + (trail + Close(tail, more)) == (front + (trail + (";" + (tail + "\n")))) + more
  {
  }

  lemma ShortAfter(l: Layout, more: string)
    requires ShortLines(l.Before(more))
    ensures ShortLines(more)
  {
    var front := RenderPieces(l.pieces, "");
    RenderSplit(l.pieces, l.trail + Close(l.tail, more));
    CloseSplit(front, l.trail, l.tail, more);
    ShortRest(front + (l.trail + (";" + (l.tail + "\n"))), more);
  }

  /** One statement as typed is read as the statement it means, and then comes the rest. */
  lemma OneMore(l: Layout, more: string)
    requires l.Valid() && ShortLines(l.Before(more))
    ensures ShortLines(more) && Statements(l.Before(more)) == [l.Meaning()] + Statements(more)
  {
    hide ShortLines, ReadFrom, Scan;
    ReadIsScan(l.Before(more), "", true);
    ScanLayout(l, more);
    ShortAfter(l, more);
  }

  /** The end of a file without a newline: with a semicolon, or without. */
  function Ending(tail: string, closed: bool): string {
    if closed then ";" + tail else ""
  }

  lemma ScanEnding(tail: string, closed: bool, acc: string, wasSpace: bool)
    requires '\n' !in tail && acc != ""
    ensures Scan(Ending(tail, closed), acc, wasSpace) == Reading(acc, "")
  {
    NoNewlineEnds(Ending(tail, closed));
  }

  lemma ScanLast(l: Layout, closed: bool)
    requires l.Valid()
    ensures Scan(RenderPieces(l.pieces, l.trail + Ending(l.tail, closed)), "", true) == Reading(l.Meaning(), "")
    ensures l.Meaning() != ""
  {
    var words := "" + Join(Words(l.pieces));
    ScanPieces(l.pieces, l.trail + Ending(l.tail, closed), "", true);
    JoinNotEmpty(l.pieces);
    hide Scan, Ending;
    ScanGap(l.trail, Ending(l.tail, closed), words, false);
    ScanEnding(l.tail, closed, words, false);
    ScanEnding(l.tail, closed, words + " ", true);
    assert words == Join(Words(l.pieces)) && words + "" == words;
  }

  /** The last statement of a file needs no newline behind its semicolon, and no semicolon. */
  lemma LastStatement(l: Layout, closed: bool)
    requires l.Valid()
    requires ShortLines(RenderPieces(l.pieces, l.trail + Ending(l.tail, closed)))
    ensures Statements(RenderPieces(l.pieces, l.trail + Ending(l.tail, closed))) == [l.Meaning()]
  {
    var text := RenderPieces(l.pieces, l.trail + Ending(l.tail, closed));
    hide ShortLines, Scan, RenderPieces, Ending;
    ReadIsScan(text, "", true);
    ScanLast(l, closed);
    assert Statements("") == [];
  }

  lemma NoNewlineEnds(s: string)
    requires '\n' !in s
    ensures AfterLine(s) == ""
  {
    NoNewline(s, "");
    assert s + "" == s;
  }

  lemma NothingMore(end: string)
    requires IsEnd(end) && ShortLines(end)
    ensures Statements(end) == []
  {
    ReadIsScan(end, "", true);
    ScanEnd(end);
  }

  lemma {:induction false} ShortEnd(doc: seq<Layout>, end: string)
    requires ShortLines(RenderAll(doc, end))
    ensures ShortLines(end)
    decreases doc
  {
    if doc != [] {
      ShortAfter(doc[0], RenderAll(doc[1..], end));
      ShortEnd(doc[1..], end);
    }
  }

  /** Layout does not matter: whatever gaps, comments and line breaks are used, and whatever
      follows a semicolon on its line, a text is read as the statements it means, and then as
      what stands behind them, which may be nothing but blank lines and comments. */
  lemma {:induction false} LayoutInvariance(doc: seq<Layout>, end: string)
    requires forall l :: l in doc ==> l.Valid()
    requires ShortLines(RenderAll(doc, end))
    ensures Statements(RenderAll(doc, end)) == Meanings(doc) + Statements(end)
    ensures IsEnd(end) ==> Statements(RenderAll(doc, end)) == Meanings(doc)
    decreases doc
  {
    hide ShortLines, Statements, IsEnd;
    if doc == [] {
      assert [] + Statements(end) == Statements(end);
    } else {
      OneMore(doc[0], RenderAll(doc[1..], end));
      LayoutInvariance(doc[1..], end);
      Assoc([doc[0].Meaning()], Meanings(doc[1..]), Statements(end));
    }
    if IsEnd(end) {
      ShortEnd(doc, end);
      NothingMore(end);
    }
  }

  // ---------- Normal form ----------

  predicate NormalChar(c: char) {
    ' ' <= c <= '~' && c != '!' && c != ';'
  }

  /** No control character, comment or semicolon, no leading and no double space. */
  predicate NormalForm(s: string) {
    && (forall i :: 0 <= i < |s| ==> NormalChar(s[i]))
    && (s != "" ==> s[0] != ' ')
    && (forall i :: 0 < i < |s| ==> !DoubleSpace(s, i))
  }

  predicate DoubleSpace(s: string, i: nat)
    requires 0 < i < |s|
  {
    s[i - 1] == ' ' && s[i] == ' '
  }

  predicate EndsSpaced(acc: string) {
    acc == "" || acc[|acc| - 1] == ' '
  }

  lemma NormalSnoc(acc: string, c: char)
    requires NormalForm(acc) && NormalChar(c) && !(EndsSpaced(acc) && c == ' ')
    ensures NormalForm(acc + [c])
  {
    var s := acc + [c];
    forall i | 0 < i < |s| ensures !DoubleSpace(s, i) {
      if i < |acc| {
        assert !DoubleSpace(acc, i);
      }
    }
  }

  lemma {:induction false} ScanLineNormal(line: string, acc: string, wasSpace: bool)
    requires NormalForm(acc) && wasSpace == EndsSpaced(acc)
    ensures match ScanLine(line, acc, wasSpace)
            case Complete(stmt) => NormalForm(stmt) && stmt != ""
            case Partial(stmt, w) => NormalForm(stmt) && w == EndsSpaced(stmt)
    decreases |line|
  {
    if line != "" && line[0] != '\0' {
      var c := if IsControl(line[0]) then ' ' else line[0];
      if !EndsSpaced(acc) {
        NormalSnoc(acc, ' ');
      }
      if c != ' ' && NormalChar(c) {
        NormalSnoc(acc, c);
      }
      if c == ';' && acc == "" {
        ScanLineNormal(line[1..], acc, wasSpace);
      } else if c == ' ' {
        ScanLineNormal(line[1..], Separate(acc, wasSpace), true);
      } else if c != '!' && c != ';' {
        ScanLineNormal(line[1..], acc + [c], false);
      }
    }
  }

  lemma {:induction false} ReadNormal(text: string, acc: string, wasSpace: bool)
    requires NormalForm(acc) && wasSpace == EndsSpaced(acc)
    ensures NormalForm(ReadFrom(text, acc, wasSpace).stmt)
    decreases |text|
  {
    if text != "" {
      var n := ChunkLen(text);
      ScanLineNormal(text[..n], acc, wasSpace);
      match ScanLine(text[..n], acc, wasSpace)
      case Complete(_) =>
      case Partial(stmt, w) => ReadNormal(text[n..], stmt, w);
    }
  }

  /** Every statement read from any file, short lines or not, is in normal form. */
  lemma {:induction false} StatementsNormal(text: string)
    ensures forall s :: s in Statements(text) ==> NormalForm(s) && s != ""
    decreases |text|
  {
    ReadNormal(text, "", true);
    var r := FirstStatement(text);
    if r.stmt != "" {
      StatementsNormal(r.rest);
    }
  }

  // ---------- Writing statements down and reading them back ----------

  lemma NormalSuffix(s: string, n: nat)
    requires NormalForm(s) && n < |s| && s[n] == ' '
    ensures NormalForm(s[n + 1..])
  {
    var next := s[n + 1..];
    assert n + 1 < |s| ==> !DoubleSpace(s, n + 1);
    forall i | 0 < i < |next| ensures !DoubleSpace(next, i) {
      assert !DoubleSpace(s, n + 1 + i);
    }
  }

  /** A statement in normal form is its words, with at most one space at the end. */
  lemma {:induction false} NormalIsJoin(s: string)
    requires NormalForm(s) && s != ""
    ensures Tokens(s) != []
    ensures forall w :: w in Tokens(s) ==> IsPlainWord(w)
    ensures s == Join(Tokens(s)) + (if EndsSpaced(s) then " " else "")
    decreases |s|
  {
    PlainPrefix(s);
    var n := WordLen(s);
    if n == |s| {
      OneWord(s);
      assert s[..n] == s;
    } else {
      WordThenMore(s);
      SplitAt(s, n);
      var next := s[n + 1..];
      if next != "" {
        NormalSuffix(s, n);
        NormalIsJoin(next);
        JoinCons(s[..n], Tokens(next), if EndsSpaced(next) then " " else "");
      }
    }
  }

  lemma PlainPrefix(s: string)
    requires NormalForm(s) && s != ""
    ensures IsPlainWord(s[..WordLen(s)])
  {
    assert WordLen(s) > 0;
    forall i | 0 <= i < WordLen(s) ensures IsPlain(s[..WordLen(s)][i]) {
      assert NormalChar(s[i]) && s[i] != ' ' by { WordLenMax(s, i); }
    }
  }

  lemma WordLenMax(s: string, i: nat)
    requires i < WordLen(s)
    ensures s[i] != ' '
  {
  }

  lemma OneWord(s: string)
    requires s != "" && WordLen(s) == |s|
    ensures Tokens(s) == [s]
  {
    assert s[..|s|] == s && s[|s|..] == "";
  }

  lemma WordThenMore(s: string)
    requires 0 < WordLen(s) < |s|
    ensures Tokens(s) == [s[..WordLen(s)]] + Tokens(s[WordLen(s) + 1..])
  {
    assert s[WordLen(s)..][1..] == s[WordLen(s) + 1..];
  }

  lemma SplitAt(s: string, n: nat)
    requires n < |s| && s[n] == ' '
    ensures s == s[..n] + (" " + s[n + 1..])
  {
  }

  function PerLine(gap: string, ws: seq<string>): seq<Piece>
    decreases ws
  {
    if ws == [] then [] else [Piece(gap, ws[0])] + PerLine("\n", ws[1..])
  }

  /** A statement written with one word on each line. */
  function Written(s: string): Layout {
    Layout(PerLine("", Tokens(s)), if EndsSpaced(s) then "\n" else "", "")
  }

  function WriteAll(ss: seq<string>): seq<Layout> {
    if ss == [] then [] else [Written(ss[0])] + WriteAll(ss[1..])
  }

  lemma {:induction false} PerLineWords(gap: string, ws: seq<string>)
    requires IsGap(gap)
    requires forall w :: w in ws ==> IsPlainWord(w)
    ensures |PerLine(gap, ws)| == |ws| && Words(PerLine(gap, ws)) == ws
    ensures forall p :: p in PerLine(gap, ws) ==> IsGap(p.gap) && IsPlainWord(p.word)
    ensures forall i :: 0 < i < |ws| ==> PerLine(gap, ws)[i].gap == "\n"
    decreases ws
  {
    if ws != [] {
      assert AfterLine("\n") == "";
      PerLineWords("\n", ws[1..]);
      assert forall i :: 1 < i < |ws| ==> PerLine(gap, ws)[i] == PerLine("\n", ws[1..])[i - 1];
    }
  }

  lemma WrittenMeans(s: string)
    requires NormalForm(s) && s != ""
    ensures Written(s).Valid() && Written(s).Meaning() == s
  {
    NormalIsJoin(s);
    PerLineWords("", Tokens(s));
    assert AfterLine("\n") == "";
  }

  /** A statement in normal form whose words fit a line together with the semicolon and newline. */
  predicate Writable(s: string) {
    NormalForm(s) && s != "" && forall w :: w in Tokens(s) ==> |w| <= 197
  }

  predicate AllWritable(ss: seq<string>) {
    forall i :: 0 <= i < |ss| ==> Writable(ss[i])
  }

  lemma ShortPrefix(w: string, v: string)
    requires '\n' !in w && |w| <= 198
    requires ShortLines(v)
    ensures ShortLines(w + ("\n" + v))
  {
    LineEndOfTail(w, v);
  }

  predicate IsShortWord(w: string) {
    IsPlainWord(w) && |w| <= 197
  }

  lemma ShortClose(w: string, trail: string, v: string)
    requires IsShortWord(w)
    requires trail == "" || trail == "\n"
    requires ShortLines(v)
    ensures ShortLines(w + (trail + Close("", v)))
  {
    assert "" + ("\n" + v) == "\n" + v;
    if trail == "" {
      assert w + (trail + (";" + ("\n" + v))) == (w + ";") + ("\n" + v);
      ShortPrefix(w + ";", v);
    } else {
      ShortPrefix(";", v);
      ShortPrefix(w, ";" + ("\n" + v));
    }
  }

  lemma {:induction false} ShortPieces(w: string, ws: seq<string>, close: string)
    requires IsShortWord(w)
    requires forall x :: x in ws ==> IsShortWord(x)
    requires ShortLines((if ws == [] then w else ws[|ws| - 1]) + close)
    ensures ShortLines(w + RenderPieces(PerLine("\n", ws), close))
    decreases ws
  {
    if ws != [] {
      ShortPieces(ws[0], ws[1..], close);
      ShortPrefix(w, ws[0] + RenderPieces(PerLine("\n", ws[1..]), close));
    }
  }

  lemma ShortWordList(ws: seq<string>, close: string)
    requires ws != []
    requires forall x :: x in ws ==> IsShortWord(x)
    requires ShortLines(ws[|ws| - 1] + close)
    ensures ShortLines(RenderPieces(PerLine("", ws), close))
  {
    ShortPieces(ws[0], ws[1..], close);
    var more := RenderPieces(PerLine("\n", ws[1..]), close);
    assert "" + (ws[0] + more) == ws[0] + more;
  }

  lemma WrittenShort(s: string, more: string)
    requires Writable(s)
    requires ShortLines(more)
    ensures ShortLines(Written(s).Before(more))
  {
    var ws, l := Tokens(s), Written(s);
    NormalIsJoin(s);
    assert forall x :: x in ws ==> IsShortWord(x);
    ShortClose(ws[|ws| - 1], l.trail, more);
    ShortWordList(ws, l.trail + Close("", more));
  }

  lemma {:induction false} WriteAllProperties(ss: seq<string>)
    requires AllWritable(ss)
    ensures ShortLines(RenderAll(WriteAll(ss), ""))
    ensures Meanings(WriteAll(ss)) == ss
    ensures forall l :: l in WriteAll(ss) ==> l.Valid()
  {
    if ss != [] {
      assert AllWritable(ss[1..]);
      WriteAllProperties(ss[1..]);
      WrittenShort(ss[0], RenderAll(WriteAll(ss[1..]), ""));
      WrittenMeans(ss[0]);
    }
  }

  /** Any statements in normal form, written down one word a line, are read back as they were. */
  lemma RoundTrip(ss: seq<string>)
    requires AllWritable(ss)
    ensures Statements(RenderAll(WriteAll(ss), "")) == ss
  {
    WriteAllProperties(ss);
    LayoutInvariance(WriteAll(ss), "");
  }
}
