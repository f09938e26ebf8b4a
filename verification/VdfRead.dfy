/** KeyValues text that nobody here wrote: escapes, bare words, braces on any line, comments, and texts over several lines. */
module VdfRead {
  import opened Text
  import opened TextLines
  import opened Vdf
  import opened VdfText

  // ---- Escapes ----

  /** How a character is written between quotes. */
  function EscapedChar(c: char): string
  {
    if c == '"' then ['\\', '"'] else if c == '\\' then ['\\', '\\'] else if c == '\n' then ['\\', 'n'] else if c == '\t' then ['\\', 't'] else [c]
  }

  function Escaped(s: string): string
  {
    if s == "" then "" else EscapedChar(s[0]) + Escaped(s[1..])
  }

  lemma {:induction false} EscapedIsOneLine(s: string)
    ensures OneLine(Escaped(s))
  {
    if s != "" {
      EscapedIsOneLine(s[1..]);
      assert OneLine(EscapedChar(s[0]));
    }
  }

  // ---- Scanning what is left of a line ----

  predicate StartsComment(s: Scan, x: string)
  {
    !s.inQuote && |x| > 1 && x[0] == '/' && x[1] == '/'
  }

  predicate StartsEscape(s: Scan, x: string)
  {
    s.inQuote && |x| > 1 && x[0] == '\\' && Escape(x[1]).Some?
  }

  function ScanText(s: Scan, x: string): Scan
    decreases |x|
  {
    if x == "" || StartsComment(s, x) then s
    else if StartsEscape(s, x) then ScanText(s.(cur := s.cur + [Escape(x[1]).value]), x[2..])
    else ScanText(Take(s, x[0]), x[1..])
  }

  /** Only what is left of a line matters. */
  lemma {:induction false} ScanIsText(s: Scan, line: string, i: nat)
    requires i <= |line|
    ensures ScanFrom(s, line, i) == ScanText(s, line[i..])
    decreases |line| - i
  {
    if i < |line| {
      var x := line[i..];
      assert x[0] == line[i] && (|x| > 1 ==> x[1] == line[i + 1]);
      if StartsEscape(s, x) {
        assert x[2..] == line[i + 2..];
        ScanIsText(s.(cur := s.cur + [Escape(x[1]).value]), line, i + 2);
      } else {
        assert x[1..] == line[i + 1..];
        ScanIsText(Take(s, x[0]), line, i + 1);
      }
    }
  }

  /** One written character, inside quotes. */
  lemma {:induction false} OneEscape(tokens: seq<string>, cur: string, c: char, rest: string)
    ensures ScanText(Scan(tokens, true, cur), EscapedChar(c) + rest) == ScanText(Scan(tokens, true, cur + [c]), rest)
  {
    var e := EscapedChar(c);
    assert (e + rest)[|e|..] == rest;
  }

  /** Inside quotes, a written text is collected as it was before it was written. */
  lemma {:induction false} EscapedCollects(tokens: seq<string>, cur: string, s: string, rest: string)
    ensures ScanText(Scan(tokens, true, cur), Escaped(s) + rest) == ScanText(Scan(tokens, true, cur + s), rest)
    decreases |s|
  {
    if s == "" {
      assert cur + s == cur && Escaped(s) + rest == rest;
    } else {
      Regrouped(EscapedChar(s[0]), Escaped(s[1..]), rest);
      OneEscape(tokens, cur, s[0], Escaped(s[1..]) + rest);
      EscapedCollects(tokens, cur + [s[0]], s[1..], rest);
      assert cur + [s[0]] + s[1..] == cur + s;
    }
  }

  // ---- The pieces of a line ----

  datatype Piece = Gap(c: char) | Word(w: string) | Quote(s: string) | Brace(open: bool)

  function PieceText(p: Piece): string
  {
    match p
    case Gap(c) => [c]
    case Word(w) => w
    case Quote(s) => Quoted(Escaped(s))
    case Brace(open) => if open then "{" else "}"
  }

  /** What a piece stands for: white space for nothing, words and braces for themselves, quotes for any text at all. */
  function PieceTokens(p: Piece): seq<string>
  {
    match p
    case Gap(_) => []
    case Word(w) => [w]
    case Quote(s) => [s]
    case Brace(open) => [if open then "{" else "}"]
  }

  function PiecesText(ps: seq<Piece>): string
  {
    if ps == [] then "" else PieceText(ps[0]) + PiecesText(ps[1..])
  }

  function PiecesTokens(ps: seq<Piece>): seq<string>
  {
    if ps == [] then [] else PieceTokens(ps[0]) + PiecesTokens(ps[1..])
  }

  predicate WordChar(c: char)
  {
    !IsSpace(c) && c != '"' && c != '{' && c != '}'
  }

  /** Text that needs no quotes. */
  predicate Bare(w: string)
  {
    w != "" && (forall i :: 0 <= i < |w| ==> WordChar(w[i])) && forall i :: 0 <= i < |w| - 1 && w[i] == '/' ==> w[i + 1] != '/'
  }

  predicate Ends(c: char)
  {
    IsSpace(c) || c == '{' || c == '}'
  }

  predicate Fine(p: Piece)
  {
    (p.Gap? ==> IsSpace(p.c)) && (p.Word? ==> Bare(p.w))
  }

  /** Nothing that would run into a word before it. */
  predicate Apart(ps: seq<Piece>, comment: string)
  {
    if ps == [] then comment == "" else ps[0].Gap? || ps[0].Brace?
  }

  predicate Legal(ps: seq<Piece>, comment: string)
  {
    if ps == [] then comment == "" || HasPrefix(comment, "//")
    else Fine(ps[0]) && (ps[0].Word? ==> Apart(ps[1..], comment)) && Legal(ps[1..], comment)
  }

  lemma {:induction false} BareTail(w: string)
    requires Bare(w) && |w| > 1
    ensures Bare(w[1..])
  {
  }

  lemma {:induction false} WordCollects(tokens: seq<string>, cur: string, w: string, rest: string)
    requires (w == "" || Bare(w)) && (rest == "" || Ends(rest[0]))
    ensures ScanText(Scan(tokens, false, cur), w + rest) == ScanText(Scan(tokens, false, cur + w), rest)
    decreases |w|
  {
    if w == "" {
      assert cur + w == cur && w + rest == rest;
    } else {
      if |w| > 1 {
        BareTail(w);
      }
      assert (w + rest)[1..] == w[1..] + rest;
      WordCollects(tokens, cur + [w[0]], w[1..], rest);
      assert cur + [w[0]] + w[1..] == cur + w;
    }
  }

  /** What a line has collected when it ends. */
  function Collected(s: Scan, x: string): Scan
  {
    EndLine(ScanText(s, x))
  }

  /** White space, a brace or the end of the line finishes a word. */
  lemma {:induction false} WordEnds(tokens: seq<string>, w: string, rest: string)
    requires w != "" && (rest == "" || Ends(rest[0]))
    ensures Collected(Scan(tokens, false, w), rest) == Collected(Scan(tokens + [w], false, ""), rest)
  {
  }

  lemma {:induction false} GapReads(tokens: seq<string>, c: char, rest: string)
    requires IsSpace(c)
    ensures ScanText(Scan(tokens, false, ""), [c] + rest) == ScanText(Scan(tokens, false, ""), rest)
  {
    assert ([c] + rest)[1..] == rest;
  }

  lemma {:induction false} BraceReads(tokens: seq<string>, c: char, rest: string)
    requires c == '{' || c == '}'
    ensures ScanText(Scan(tokens, false, ""), [c] + rest) == ScanText(Scan(tokens + [[c]], false, ""), rest)
  {
    assert ([c] + rest)[1..] == rest;
  }

  lemma {:induction false} OpenReads(tokens: seq<string>, rest: string)
    ensures ScanText(Scan(tokens, false, ""), "\"" + rest) == ScanText(Scan(tokens, true, ""), rest)
  {
    assert ("\"" + rest)[1..] == rest;
  }

  lemma {:induction false} CloseReads(tokens: seq<string>, s: string, rest: string)
    ensures ScanText(Scan(tokens, true, s), "\"" + rest) == ScanText(Scan(tokens + [s], false, ""), rest)
  {
    assert ("\"" + rest)[1..] == rest;
  }

  lemma QuotedParts(e: string, rest: string)
    ensures Quoted(e) + rest == "\"" + (e + ("\"" + rest))
  {
  }

  /** The quotes of a written text. */
  lemma {:induction false} QuoteReads(tokens: seq<string>, s: string, rest: string)
    ensures ScanText(Scan(tokens, false, ""), Quoted(Escaped(s)) + rest) == ScanText(Scan(tokens + [s], false, ""), rest)
  {
    QuotedParts(Escaped(s), rest);
    OpenReads(tokens, Escaped(s) + ("\"" + rest));
    EscapedCollects(tokens, "", s, "\"" + rest);
    assert "" + s == s;
    CloseReads(tokens, s, rest);
  }

  /** One piece. */
  lemma {:induction false} PieceReads(tokens: seq<string>, p: Piece, rest: string)
    requires Fine(p) && (p.Word? ==> rest == "" || Ends(rest[0]))
    ensures Collected(Scan(tokens, false, ""), PieceText(p) + rest) == Collected(Scan(tokens + PieceTokens(p), false, ""), rest)
  {
    match p
    case Gap(c) =>
      GapReads(tokens, c, rest);
      assert tokens + [] == tokens;
    case Word(w) =>
      WordCollects(tokens, "", w, rest);
      assert "" + w == w;
      WordEnds(tokens, w, rest);
    case Quote(s) =>
      QuoteReads(tokens, s, rest);
    case Brace(open) =>
      BraceReads(tokens, if open then '{' else '}', rest);
  }

  lemma {:induction false} AfterWord(ps: seq<Piece>, comment: string)
    requires Apart(ps, comment) && Legal(ps, comment)
    ensures var rest := PiecesText(ps) + comment; rest == "" || Ends(rest[0])
  {
    if ps != [] {
      assert (PieceText(ps[0]) + PiecesText(ps[1..]))[0] == PieceText(ps[0])[0];
    }
  }

  lemma {:induction false} CommentEnds(s: Scan, t: string)
    requires !s.inQuote && s.cur == "" && (t == "" || HasPrefix(t, "//"))
    ensures Collected(s, t) == s
  {
    assert t != "" ==> t[0] == t[..2][0] && t[1] == t[..2][1];
  }

  /** The pieces of a line up to its comment. */
  lemma {:induction false} PiecesRead(tokens: seq<string>, ps: seq<Piece>, comment: string)
    requires Legal(ps, comment)
    ensures Collected(Scan(tokens, false, ""), PiecesText(ps) + comment) == Scan(tokens + PiecesTokens(ps), false, "")
    decreases |ps|
  {
    if ps == [] {
      assert PiecesText(ps) + comment == comment && tokens + [] == tokens;
      CommentEnds(Scan(tokens, false, ""), comment);
    } else {
      var rest := PiecesText(ps[1..]) + comment;
      if ps[0].Word? {
        AfterWord(ps[1..], comment);
      }
      Regrouped(PieceText(ps[0]), PiecesText(ps[1..]), comment);
      PieceReads(tokens, ps[0], rest);
      PiecesRead(tokens + PieceTokens(ps[0]), ps[1..], comment);
      Regrouped(tokens, PieceTokens(ps[0]), PiecesTokens(ps[1..]));
    }
  }

  // ---- Trimming ----

  lemma {:induction false} LeadingSpace(tokens: seq<string>, a: string, x: string)
    requires AllSpace(a)
    ensures ScanText(Scan(tokens, false, ""), a + x) == ScanText(Scan(tokens, false, ""), x)
  {
    if a == "" {
      assert a + x == x;
    } else {
      assert a + x == [a[0]] + (a[1..] + x);
      GapReads(tokens, a[0], a[1..] + x);
      LeadingSpace(tokens, a[1..], x);
    }
  }

  /** White space at the end of a line adds nothing unless a quote is open, and opens or closes none. */
  lemma {:induction false} TrailingSpace(s: Scan, m: string, b: string)
    requires AllSpace(b)
    ensures ScanText(s, m + b).inQuote == ScanText(s, m).inQuote
    ensures !ScanText(s, m).inQuote ==> Collected(s, m + b) == Collected(s, m)
    decreases |m|
  {
    if m == "" {
      assert m + b == b;
      OnlySpace(s, b);
    } else {
      SameStart(s, m, b);
      if StartsEscape(s, m) {
        assert (m + b)[2..] == m[2..] + b;
        TrailingSpace(s.(cur := s.cur + [Escape(m[1]).value]), m[2..], b);
      } else if !StartsComment(s, m) {
        assert (m + b)[1..] == m[1..] + b;
        TrailingSpace(Take(s, m[0]), m[1..], b);
      }
    }
  }

  lemma SameStart(s: Scan, m: string, b: string)
    requires m != "" && AllSpace(b)
    ensures StartsEscape(s, m + b) <==> StartsEscape(s, m)
    ensures StartsComment(s, m + b) <==> StartsComment(s, m)
  {
    assert |m| > 1 ==> (m + b)[1] == m[1];
    assert |m| == 1 && b != "" ==> (m + b)[1] == b[0] && IsSpace(b[0]);
  }

  lemma {:induction false} OnlySpace(s: Scan, b: string)
    requires AllSpace(b)
    ensures ScanText(s, b).inQuote == s.inQuote
    ensures !s.inQuote ==> Collected(s, b) == EndLine(s)
    decreases |b|
  {
    if b != "" {
      SpaceTaken(s, b);
      OnlySpace(Take(s, b[0]), b[1..]);
    }
  }

  lemma SpaceTaken(s: Scan, x: string)
    requires x != "" && IsSpace(x[0])
    ensures !StartsComment(s, x) && !StartsEscape(s, x)
    ensures Take(s, x[0]).inQuote == s.inQuote && (!s.inQuote ==> EndLine(Take(s, x[0])) == EndLine(s))
  {
  }

  /** A line that leaves no quote open reads as it stands: trimming it first changes nothing. */
  lemma {:induction false} TrimmedAlike(tokens: seq<string>, line: string)
    requires !ScanText(Scan(tokens, false, ""), line).inQuote
    ensures ScanLine(Scan(tokens, false, ""), line) == Collected(Scan(tokens, false, ""), line)
  {
    var s := Scan(tokens, false, "");
    var a, b := TrimSplit(line);
    Regrouped(a, Trim(line), b);
    LeadingSpace(tokens, a, Trim(line) + b);
    TrailingSpace(s, Trim(line), b);
    WholeLine(s, Trim(line));
    if Trim(line) == "" || HasPrefix(Trim(line), "//") {
      CommentEnds(s, Trim(line));
    }
  }

  lemma {:induction false} WholeLine(s: Scan, line: string)
    ensures ScanFrom(s, line, 0) == ScanText(s, line)
  {
    ScanIsText(s, line, 0);
    assert line[0..] == line;
  }

  // ---- Whole texts ----

  /** Pieces and a comment, and whether a carriage return stands before the line feed. */
  datatype Row = Row(pieces: seq<Piece>, comment: string, cr: bool)

  function RowText(r: Row): string
  {
    PiecesText(r.pieces) + r.comment
  }

  function RowLine(r: Row): string
  {
    RowText(r) + if r.cr then "\r" else ""
  }

  predicate LegalRow(r: Row)
  {
    Legal(r.pieces, r.comment) && Settled(RowText(r))
  }

  function RowLines(rows: seq<Row>): seq<string>
  {
    if rows == [] then [] else [RowLine(rows[0])] + RowLines(rows[1..])
  }

  function RowsTokens(rows: seq<Row>): seq<string>
  {
    if rows == [] then [] else PiecesTokens(rows[0].pieces) + RowsTokens(rows[1..])
  }

  lemma {:induction false} RowScans(tokens: seq<string>, r: Row)
    requires LegalRow(r)
    ensures ScanLine(Scan(tokens, false, ""), RowText(r)) == Scan(tokens + PiecesTokens(r.pieces), false, "")
  {
    PiecesRead(tokens, r.pieces, r.comment);
    TrimmedAlike(tokens, RowText(r));
  }

  lemma {:induction false} RowsScan(tokens: seq<string>, rows: seq<Row>)
    requires forall r :: r in rows ==> LegalRow(r)
    ensures ScanLines(Scan(tokens, false, ""), DropCRs(RowLines(rows))) == Scan(tokens + RowsTokens(rows), false, "")
    ensures forall l :: l in RowLines(rows) ==> OneLine(l)
    decreases |rows|
  {
    if rows == [] {
      assert tokens + [] == tokens;
    } else {
      var r, own := rows[0], PiecesTokens(rows[0].pieces);
      RowScans(tokens, r);
      RowsScan(tokens + own, rows[1..]);
      OneDropped(r);
      DropCRsSum([RowLine(r)], RowLines(rows[1..]));
      ScanLinesSum(Scan(tokens, false, ""), [RowText(r)], DropCRs(RowLines(rows[1..])));
      ScanOne(Scan(tokens, false, ""), RowText(r));
      Regrouped(tokens, own, RowsTokens(rows[1..]));
    }
  }

  lemma {:induction false} OneDropped(r: Row)
    requires LegalRow(r)
    ensures DropCRs([RowLine(r)]) == [RowText(r)] && OneLine(RowLine(r))
  {
    CarriageReturn(RowText(r), r.cr);
    OneLeft(RowLine(r));
  }

  lemma CarriageReturn(text: string, cr: bool)
    requires Settled(text)
    ensures DropCR(text + if cr then "\r" else "") == text && OneLine(text + if cr then "\r" else "")
  {
    if cr {
      assert (text + "\r")[..|text|] == text;
    } else {
      assert text + "" == text;
    }
  }

  lemma {:induction false} OneLeft(line: string)
    ensures DropCRs([line]) == [DropCR(line)]
  {
    assert [line][..0] == [];
  }

  /** A text of legal lines gives the tokens of its pieces: comments, white space and either line ending count for nothing,
      and between quotes every text can be written. */
  lemma {:induction false} RowsRead(rows: seq<Row>)
    requires forall r :: r in rows ==> LegalRow(r)
    ensures TokensOf(Joined(RowLines(rows))) == RowsTokens(rows)
  {
    RowsScan([], rows);
    LinesOfJoined(RowLines(rows));
    assert [] + RowsTokens(rows) == RowsTokens(rows);
  }

  /** However the tokens of some trees are spread over lines, the text parses to these trees. */
  lemma {:induction false} RowsParse(rows: seq<Row>, ts: seq<Tree>)
    requires (forall r :: r in rows ==> LegalRow(r)) && RowsTokens(rows) == TreesTokens(ts)
    requires forall t :: t in ts ==> Parsable(t)
    ensures RootOf(ParseTop(TokensOf(Joined(RowLines(rows))), 0, [])) ==
              if |ts| == 1 then MeaningOf(ts[0]) else Node("root", "", MeaningsOf(ts))
  {
    RowsRead(rows);
    DocumentParses(ts);
  }

  // ---- Texts over several lines ----

  function EscapedAll(lines: seq<string>): seq<string>
  {
    if lines == [] then [] else [Escaped(lines[0])] + EscapedAll(lines[1..])
  }

  /** Lines behind an open quote: each one but the first follows a line feed, where empty ones at the very start leave none. */
  function Over(cur: string, lines: seq<string>): string
    decreases |lines|
  {
    if lines == [] then cur else Over((if cur == "" then "" else cur + "\n") + lines[0], lines[1..])
  }

  lemma {:induction false} OpeningLine(tokens: seq<string>, first: string)
    requires first == "" || !IsSpace(first[|first| - 1])
    ensures ScanLine(Scan(tokens, false, ""), "\"" + Escaped(first)) == Scan(tokens, true, first)
  {
    EscapedEnd(first);
    OpeningTrimmed(tokens, Escaped(first));
    OpeningScans(tokens, first);
  }

  lemma {:induction false} OpeningTrimmed(tokens: seq<string>, e: string)
    requires e == "" || !IsSpace(e[|e| - 1])
    ensures ScanLine(Scan(tokens, false, ""), "\"" + e) == EndLine(ScanFrom(Scan(tokens, false, ""), "\"" + e, 0))
  {
    var line := "\"" + e;
    assert line[0] == '"';
    TrimOfTrimmed(line);
  }

  lemma {:induction false} OpeningScans(tokens: seq<string>, first: string)
    ensures ScanFrom(Scan(tokens, false, ""), "\"" + Escaped(first), 0) == Scan(tokens, true, first)
  {
    OpenReads(tokens, Escaped(first));
    assert Escaped(first) + "" == Escaped(first) && "" + first == first;
    EscapedCollects(tokens, "", first, "");
    WholeLine(Scan(tokens, false, ""), "\"" + Escaped(first));
  }

  lemma {:induction false} EscapedEnd(s: string)
    requires s == "" || !IsSpace(s[|s| - 1])
    ensures Escaped(s) == "" || !IsSpace(Escaped(s)[|Escaped(s)| - 1])
  {
    if |s| > 1 {
      EscapedEnd(s[1..]);
      assert Escaped(s[1..]) != "" by {
        assert Escaped(s[1..]) == EscapedChar(s[1..][0]) + Escaped(s[1..][1..]);
      }
      assert Escaped(s)[|Escaped(s)| - 1] == Escaped(s[1..])[|Escaped(s[1..])| - 1];
    } else if |s| == 1 {
      assert Escaped(s) == EscapedChar(s[0]) + "";
    }
  }

  lemma {:induction false} InnerLine(tokens: seq<string>, cur: string, line: string)
    ensures ScanLine(Scan(tokens, true, cur), Escaped(line)) == Scan(tokens, true, (if cur == "" then "" else cur + "\n") + line)
  {
    var cur' := if cur == "" then "" else cur + "\n";
    assert Escaped(line) + "" == Escaped(line);
    EscapedCollects(tokens, cur', line, "");
    WholeLine(Scan(tokens, true, cur'), Escaped(line));
  }

  lemma {:induction false} ClosingLine(tokens: seq<string>, cur: string, line: string)
    ensures ScanLine(Scan(tokens, true, cur), Escaped(line) + "\"") == Scan(tokens + [(if cur == "" then "" else cur + "\n") + line], false, "")
  {
    var cur', text := if cur == "" then "" else cur + "\n", Escaped(line) + "\"";
    EscapedCollects(tokens, cur', line, "\"");
    CloseReads(tokens, cur' + line, "");
    assert "\"" + "" == "\"";
    WholeLine(Scan(tokens, true, cur'), text);
  }

  lemma {:induction false} InnerLines(tokens: seq<string>, cur: string, lines: seq<string>, last: string)
    ensures ScanLines(Scan(tokens, true, cur), EscapedAll(lines) + [Escaped(last) + "\""]) == Scan(tokens + [Over(cur, lines + [last])], false, "")
    decreases |lines|
  {
    var s := Scan(tokens, true, cur);
    var closing := [Escaped(last) + "\""];
    if lines == [] {
      assert EscapedAll(lines) + closing == closing && lines + [last] == [last];
      ScanOne(s, closing[0]);
      ClosingLine(tokens, cur, last);
    } else {
      var l := lines[0];
      assert (lines + [last])[1..] == lines[1..] + [last];
      Regrouped([Escaped(l)], EscapedAll(lines[1..]), closing);
      ScanLinesSum(s, [Escaped(l)], EscapedAll(lines[1..]) + closing);
      ScanOne(s, Escaped(l));
      InnerLine(tokens, cur, l);
      InnerLines(tokens, (if cur == "" then "" else cur + "\n") + l, lines[1..], last);
    }
  }

  /** A quote may stay open over any number of lines; the text is the lines with line feeds between them. */
  lemma {:induction false} TextOverLines(tokens: seq<string>, first: string, lines: seq<string>, last: string)
    requires first == "" || !IsSpace(first[|first| - 1])
    ensures ScanLines(Scan(tokens, false, ""), ["\"" + Escaped(first)] + (EscapedAll(lines) + [Escaped(last) + "\""])) ==
              Scan(tokens + [Over(first, lines + [last])], false, "")
  {
    ScanLinesSum(Scan(tokens, false, ""), ["\"" + Escaped(first)], EscapedAll(lines) + [Escaped(last) + "\""]);
    ScanOne(Scan(tokens, false, ""), "\"" + Escaped(first));
    OpeningLine(tokens, first);
    InnerLines(tokens, first, lines, last);
  }

  // ---- Texts that break off ----

  lemma {:induction false} OneLineScans(text: string)
    requires Settled(text)
    ensures ScanLines(NO_TOKENS, Lines(text + "\n")) == ScanLine(NO_TOKENS, text)
  {
    assert Joined([text]) == text + "\n" by {
      assert [text][1..] == [];
    }
    LinesOfJoined([text]);
    OneLeft(text);
    ScanOne(NO_TOKENS, text);
  }

  /** A quote still open at the end counts as closed there, unless nothing was in it. */
  lemma {:induction false} OpenQuoteEnds(s: string)
    requires s == "" || !IsSpace(s[|s| - 1])
    ensures TokensOf("\"" + Escaped(s) + "\n") == if s == "" then [] else [s]
  {
    var text := "\"" + Escaped(s);
    EscapedIsOneLine(s);
    EscapedEnd(s);
    assert text[|text| - 1] != '\r';
    OneLineScans(text);
    OpeningLine([], s);
  }

  /** So does a section without its closing brace. */
  lemma {:induction false} OpenSectionEnds(key: string, ts: seq<Tree>)
    requires key != "}" && forall t :: t in ts ==> Parsable(t)
    ensures RootOf(ParseTop([key, "{"] + TreesTokens(ts), 0, [])) == MeaningOf(Section(key, ts))
  {
    var tokens := [key, "{"] + TreesTokens(ts);
    assert tokens[2..] == TreesTokens(ts);
    OpenTreesParse(tokens, 2, ts, []);
    assert [] + MeaningsOf(ts) == MeaningsOf(ts);
    OneNode(tokens, MeaningOf(Section(key, ts)));
  }

  lemma {:induction false} OneNode(tokens: seq<string>, node: Node)
    requires tokens != [] && ParseNode(tokens, 0) == Parsed(Some(node), |tokens|)
    ensures ParseTop(tokens, 0, []) == [node]
  {
    assert [] + [node] == [node];
    assert ParseTop(tokens, |tokens|, [node]) == [node];
  }

  predicate AllParsable(ts: seq<Tree>)
  {
    forall t :: t in ts ==> Parsable(t)
  }

  lemma {:induction false} OpenTreesParse(tokens: seq<string>, i: nat, ts: seq<Tree>, children: seq<Node>)
    requires AllParsable(ts) && i <= |tokens| && tokens[i..] == TreesTokens(ts)
    ensures ParseChildren(tokens, i, children) == (children + MeaningsOf(ts), |tokens|)
    decreases |ts|
  {
    if ts == [] {
      NothingLeft(tokens, i, children);
    } else {
      assert ts[0] in ts;
      var next := i + |TreeTokens(ts[0])|;
      TreeTaken(tokens, i, ts[0], TreesTokens(ts[1..]), children);
      OpenTreesParse(tokens, next, ts[1..], children + [MeaningOf(ts[0])]);
      MeaningsNext(children, ts);
    }
  }

  lemma {:induction false} NothingLeft(tokens: seq<string>, i: nat, children: seq<Node>)
    requires i <= |tokens| && tokens[i..] == []
    ensures ParseChildren(tokens, i, children) == (children + MeaningsOf([]), |tokens|)
  {
    assert children + MeaningsOf([]) == children;
  }

  lemma {:induction false} MeaningsNext(children: seq<Node>, ts: seq<Tree>)
    requires ts != []
    ensures children + [MeaningOf(ts[0])] + MeaningsOf(ts[1..]) == children + MeaningsOf(ts)
  {
    Regrouped(children, [MeaningOf(ts[0])], MeaningsOf(ts[1..]));
  }

  lemma {:induction false} TreeTaken(tokens: seq<string>, i: nat, t: Tree, rest: seq<string>, children: seq<Node>)
    requires Parsable(t) && i <= |tokens| && tokens[i..] == TreeTokens(t) + rest
    ensures i + |TreeTokens(t)| <= |tokens| && tokens[i + |TreeTokens(t)|..] == rest
    ensures ParseChildren(tokens, i, children) == ParseChildren(tokens, i + |TreeTokens(t)|, children + [MeaningOf(t)])
  {
    TreeParses(tokens, i, t, rest);
    ChildTaken(tokens, i, TreeTokens(t), rest, children, MeaningOf(t));
  }
}
