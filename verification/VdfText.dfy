/** Printing trees as KeyValues text, and that the tokenizer and parser read them back. */
module VdfText {
  import opened Text
  import opened TextLines
  import opened Vdf

  /** Text that stands for itself between quotes: no quote, no line feed, no backslash before the closing quote,
      a backslash, an n or a t. */
  predicate Safe(s: string)
  {
    OneLine(s) && '"' !in s && forall i :: 0 <= i < |s| && s[i] == '\\' ==> i + 1 < |s| && Escape(s[i + 1]).None?
  }

  function Quoted(s: string): string
  {
    "\"" + s + "\""
  }

  function Tabs(n: nat): (t: string)
    ensures |t| == n && forall i :: 0 <= i < n ==> t[i] == '\t'
  {
    seq(n, i => '\t')
  }

  // ---- Scanning one printed line ----

  lemma {:induction false} InsideQuotes(tokens: seq<string>, cur: string, line: string, i: nat, s: string, rest: string)
    requires i <= |line| && line[i..] == s + "\"" + rest && Safe(s)
    ensures i + |s| + 1 <= |line|
    ensures ScanFrom(Scan(tokens, true, cur), line, i) == ScanFrom(Scan(tokens + [cur + s], false, ""), line, i + |s| + 1)
    decreases |s|
  {
    var here := Scan(tokens, true, cur);
    assert line[i..][0] == line[i];
    if s == "" {
      assert line[i] == '"' && cur + s == cur;
    } else {
      assert line[i] == s[0] && line[i + 1] == (s + "\"" + rest)[1];
      assert s[0] == '\\' ==> line[i + 1] == s[1];
      assert !IsEscapeAt(here, line, i);
      assert Take(here, line[i]) == Scan(tokens, true, cur + [s[0]]);
      SafeTail(s);
      assert line[i + 1..] == line[i..][1..] == s[1..] + "\"" + rest;
      InsideQuotes(tokens, cur + [s[0]], line, i + 1, s[1..], rest);
      assert cur + [s[0]] + s[1..] == cur + s;
    }
  }

  lemma {:induction false} SafeTail(s: string)
    requires Safe(s) && s != ""
    ensures Safe(s[1..])
  {
    forall i | 0 <= i < |s[1..]| && s[1..][i] == '\\' ensures i + 1 < |s[1..]| && Escape(s[1..][i + 1]).None? {
      assert s[i + 1] == '\\';
    }
  }

  lemma QuotedScans(tokens: seq<string>, line: string, i: nat, s: string, rest: string)
    requires i <= |line| && line[i..] == Quoted(s) + rest && Safe(s)
    ensures i + |s| + 2 <= |line| && line[i + |s| + 2..] == rest
    ensures ScanFrom(Scan(tokens, false, ""), line, i) == ScanFrom(Scan(tokens + [s], false, ""), line, i + |s| + 2)
  {
    assert line[i..][0] == line[i] == '"';
    assert line[i + 1..] == line[i..][1..] == s + "\"" + rest;
    InsideQuotes(tokens, "", line, i + 1, s, rest);
    assert "" + s == s;
    assert line[i + |s| + 2..] == line[i..][|s| + 2..];
  }

  lemma {:induction false} TwoTabsScan(tokens: seq<string>, line: string, i: nat, rest: string)
    requires i <= |line| && line[i..] == "\t\t" + rest
    ensures i + 2 <= |line| && line[i + 2..] == rest
    ensures ScanFrom(Scan(tokens, false, ""), line, i) == ScanFrom(Scan(tokens, false, ""), line, i + 2)
  {
    assert line[i..][0] == line[i] == '\t' && line[i..][1] == line[i + 1] == '\t';
    assert line[i + 2..] == line[i..][2..];
    var s := Scan(tokens, false, "");
    assert Take(s, '\t') == s;
  }

  /** A printed line without its tabs: trimming takes nothing else, and it is no comment. */
  lemma {:induction false} Indented(tokens: seq<string>, n: nat, core: string)
    requires core != "" && !IsSpace(core[0]) && !IsSpace(core[|core| - 1]) && core[0] != '/'
    ensures ScanLine(Scan(tokens, false, ""), Tabs(n) + core) == EndLine(ScanFrom(Scan(tokens, false, ""), core, 0))
  {
    TrimIs(Tabs(n), core, "");
    assert Tabs(n) + core + "" == Tabs(n) + core;
  }

  lemma KeyLine(tokens: seq<string>, n: nat, key: string)
    requires Safe(key)
    ensures ScanLine(Scan(tokens, false, ""), Tabs(n) + Quoted(key)) == Scan(tokens + [key], false, "")
  {
    var core := Quoted(key);
    Indented(tokens, n, core);
    assert core[0..] == Quoted(key) + "";
    QuotedScans(tokens, core, 0, key, "");
  }

  function PairText(key: string, value: string): string
  {
    Quoted(key) + "\t\t" + Quoted(value)
  }

  lemma PairLine(tokens: seq<string>, n: nat, key: string, value: string)
    requires Safe(key) && Safe(value)
    ensures ScanLine(Scan(tokens, false, ""), Tabs(n) + PairText(key, value)) == Scan(tokens + [key, value], false, "")
  {
    var core := PairText(key, value);
    Indented(tokens, n, core);
    assert core[0..] == Quoted(key) + ("\t\t" + Quoted(value));
    QuotedScans(tokens, core, 0, key, "\t\t" + Quoted(value));
    TwoTabsScan(tokens + [key], core, |key| + 2, Quoted(value));
    assert Quoted(value) == Quoted(value) + "";
    QuotedScans(tokens + [key], core, |key| + 4, value, "");
    assert tokens + [key] + [value] == tokens + [key, value];
  }

  lemma BraceLine(tokens: seq<string>, n: nat, brace: string)
    requires brace == "{" || brace == "}"
    ensures ScanLine(Scan(tokens, false, ""), Tabs(n) + brace) == Scan(tokens + [brace], false, "")
  {
    Indented(tokens, n, brace);
    var s := Scan(tokens, false, "");
    assert ScanFrom(s, brace, 0) == ScanFrom(Take(s, brace[0]), brace, 1);
    assert [brace[0]] == brace;
  }

  // ---- Printing trees ----

  /** One line per key, value pair or brace, indented by depth. */
  function TreeLines(t: Tree, depth: nat): seq<string>
    decreases t, 0
  {
    match t
    case Leaf(key, value) => [Tabs(depth) + PairText(key, value)]
    case Section(key, children) =>
      [Tabs(depth) + Quoted(key), Tabs(depth) + "{"] + TreesLines(children, depth + 1) + [Tabs(depth) + "}"]
  }

  function TreesLines(ts: seq<Tree>, depth: nat): seq<string>
    decreases ts, 1
  {
    if ts == [] then [] else TreeLines(ts[0], depth) + TreesLines(ts[1..], depth)
  }

  predicate SafeTree(t: Tree)
  {
    match t
    case Leaf(key, value) => Safe(key) && Safe(value)
    case Section(key, children) => Safe(key) && forall c :: c in children ==> SafeTree(c)
  }

  lemma {:induction false} ScanLinesSum(s: Scan, a: seq<string>, b: seq<string>)
    ensures ScanLines(s, a + b) == ScanLines(ScanLines(s, a), b)
  {
    if b == [] {
      assert a + b == a;
    } else {
      assert (a + b)[..|a + b| - 1] == a + b[..|b| - 1];
      ScanLinesSum(s, a, b[..|b| - 1]);
    }
  }

  lemma {:induction false} ScanOne(s: Scan, line: string)
    ensures ScanLines(s, [line]) == ScanLine(s, line)
  {
    assert [line][..0] == [];
  }

  /** Scanning a printed tree collects its tokens. */
  lemma {:induction false} TreeScans(tokens: seq<string>, t: Tree, depth: nat)
    requires SafeTree(t)
    ensures ScanLines(Scan(tokens, false, ""), TreeLines(t, depth)) == Scan(tokens + TreeTokens(t), false, "")
    decreases t, 0
  {
    var s := Scan(tokens, false, "");
    match t
    case Leaf(key, value) =>
      ScanOne(s, Tabs(depth) + PairText(key, value));
      PairLine(tokens, depth, key, value);
    case Section(key, children) =>
      TreesScan(tokens + [key] + ["{"], children, depth + 1);
      SectionScans(tokens, key, TreesLines(children, depth + 1), TreesTokens(children), depth);
  }

  /** Head, children and closing brace in turn. */
  lemma {:induction false} SectionScans(tokens: seq<string>, key: string, inner: seq<string>, own: seq<string>, depth: nat)
    requires Safe(key)
    requires ScanLines(Scan(tokens + [key] + ["{"], false, ""), inner) == Scan(tokens + [key] + ["{"] + own, false, "")
    ensures ScanLines(Scan(tokens, false, ""), [Tabs(depth) + Quoted(key), Tabs(depth) + "{"] + inner + [Tabs(depth) + "}"]) ==
              Scan(tokens + ([key, "{"] + own + ["}"]), false, "")
  {
    var s, first := Scan(tokens, false, ""), [Tabs(depth) + Quoted(key), Tabs(depth) + "{"];
    SectionHead(tokens, key, depth);
    SectionTail(tokens + [key] + ["{"] + own, depth);
    ScanLinesSum(s, first + inner, [Tabs(depth) + "}"]);
    ScanLinesSum(s, first, inner);
    SectionTokens(tokens, key, own);
  }

  lemma SectionTokens(tokens: seq<string>, key: string, own: seq<string>)
    ensures tokens + [key] + ["{"] + own + ["}"] == tokens + ([key, "{"] + own + ["}"])
  {
  }

  lemma SectionHead(tokens: seq<string>, key: string, depth: nat)
    requires Safe(key)
    ensures ScanLines(Scan(tokens, false, ""), [Tabs(depth) + Quoted(key), Tabs(depth) + "{"]) == Scan(tokens + [key] + ["{"], false, "")
  {
    var s, first, second := Scan(tokens, false, ""), Tabs(depth) + Quoted(key), Tabs(depth) + "{";
    assert [first, second] == [first] + [second];
    ScanLinesSum(s, [first], [second]);
    ScanOne(s, first);
    KeyLine(tokens, depth, key);
    ScanOne(Scan(tokens + [key], false, ""), second);
    BraceLine(tokens + [key], depth, "{");
  }

  lemma SectionTail(tokens: seq<string>, depth: nat)
    ensures ScanLines(Scan(tokens, false, ""), [Tabs(depth) + "}"]) == Scan(tokens + ["}"], false, "")
  {
    ScanOne(Scan(tokens, false, ""), Tabs(depth) + "}");
    BraceLine(tokens, depth, "}");
  }

  lemma {:induction false} TreesScan(tokens: seq<string>, ts: seq<Tree>, depth: nat)
    requires forall c :: c in ts ==> SafeTree(c)
    ensures ScanLines(Scan(tokens, false, ""), TreesLines(ts, depth)) == Scan(tokens + TreesTokens(ts), false, "")
    decreases ts, 1
  {
    if ts == [] {
      assert tokens + TreesTokens(ts) == tokens;
    } else {
      var own, rest := TreeTokens(ts[0]), TreesTokens(ts[1..]);
      TreeScans(tokens, ts[0], depth);
      TreesScan(tokens + own, ts[1..], depth);
      ScanLinesSum(Scan(tokens, false, ""), TreeLines(ts[0], depth), TreesLines(ts[1..], depth));
      Regrouped(tokens, own, rest);
    }
  }

  /** A line that survives being written and scanned. */
  predicate Settled(line: string)
  {
    OneLine(line) && DropCR(line) == line
  }

  lemma {:induction false} PrintedLineSettled(n: nat, core: string)
    requires OneLine(core) && core != "" && core[|core| - 1] != '\r'
    ensures Settled(Tabs(n) + core)
  {
    var line := Tabs(n) + core;
    assert line[|line| - 1] == core[|core| - 1];
  }

  lemma {:induction false} TreeSettled(t: Tree, depth: nat)
    requires SafeTree(t)
    ensures forall l :: l in TreeLines(t, depth) ==> Settled(l)
    decreases t, 0
  {
    match t
    case Leaf(key, value) =>
      PrintedLineSettled(depth, PairText(key, value));
    case Section(key, children) =>
      PrintedLineSettled(depth, Quoted(key));
      PrintedLineSettled(depth, "{");
      PrintedLineSettled(depth, "}");
      TreesSettled(children, depth + 1);
  }

  lemma {:induction false} TreesSettled(ts: seq<Tree>, depth: nat)
    requires forall c :: c in ts ==> SafeTree(c)
    ensures forall l :: l in TreesLines(ts, depth) ==> Settled(l)
    decreases ts, 1
  {
    if ts != [] {
      TreeSettled(ts[0], depth);
      TreesSettled(ts[1..], depth);
    }
  }

  lemma {:induction false} SettledLines(lines: seq<string>)
    requires forall l :: l in lines ==> Settled(l)
    ensures Lines(Joined(lines)) == lines
  {
    LinesOfJoined(lines);
    DropNothing(lines);
  }

  lemma {:induction false} DropNothing(lines: seq<string>)
    requires forall l :: l in lines ==> Settled(l)
    ensures DropCRs(lines) == lines
  {
    if lines != [] {
      var n := |lines| - 1;
      assert lines == lines[..n] + [lines[n]];
      DropNothing(lines[..n]);
      assert lines[n] in lines && Settled(lines[n]);
    }
  }

  /** Printing a tree and parsing the text gives the tree back. */
  lemma {:induction false} TextRoundTrip(t: Tree)
    requires SafeTree(t) && Parsable(t)
    ensures RootOf(ParseTop(TokensOf(Joined(TreeLines(t, 0))), 0, [])) == MeaningOf(t)
  {
    TreeSettled(t, 0);
    SettledLines(TreeLines(t, 0));
    TreeScans([], t, 0);
    assert [] + TreeTokens(t) == TreeTokens(t);
    OneTreeParses(t);
  }
}
