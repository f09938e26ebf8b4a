/** Valve KeyValues text: the tokenizer, the recursive parser, and look-ups. */
module Vdf {
  import opened Text
  import opened TextLines

  // ---- Tokens ----

  /** Tokens so far, whether a quote is open, and the token being collected. */
  datatype Scan = Scan(tokens: seq<string>, inQuote: bool, cur: string)

  /** What a backslash followed by c stands for inside quotes. */
  function Escape(c: char): Option<char>
  {
    if c == '"' || c == '\\' then Some(c) else if c == 'n' then Some('\n') else if c == 't' then Some('\t') else None
  }

  function Flush(s: Scan): Scan
  {
    if s.cur != "" then Scan(s.tokens + [s.cur], s.inQuote, "") else s
  }

  /** One character that starts neither a comment nor an escape. */
  function Take(s: Scan, c: char): Scan
  {
    if c == '"' then (if s.inQuote then Scan(s.tokens + [s.cur], false, "") else s.(inQuote := true))
    else if s.inQuote then s.(cur := s.cur + [c])
    else if c == '{' || c == '}' then Flush(s).(tokens := Flush(s).tokens + [[c]])
    else if IsSpace(c) then Flush(s)
    else s.(cur := s.cur + [c])
  }

  predicate IsCommentAt(s: Scan, line: string, i: nat)
  {
    !s.inQuote && i + 1 < |line| && line[i] == '/' && line[i + 1] == '/'
  }

  predicate IsEscapeAt(s: Scan, line: string, i: nat)
  {
    s.inQuote && i + 1 < |line| && line[i] == '\\' && Escape(line[i + 1]).Some?
  }

  function ScanFrom(s: Scan, line: string, i: nat): Scan
    requires i <= |line|
    decreases |line| - i
  {
    if i == |line| || IsCommentAt(s, line, i) then s
    else if IsEscapeAt(s, line, i) then ScanFrom(s.(cur := s.cur + [Escape(line[i + 1]).value]), line, i + 2)
    else ScanFrom(Take(s, line[i]), line, i + 1)
  }

  function EndLine(s: Scan): Scan
  {
    if s.inQuote then s else Flush(s)
  }

  /** A line; inside quotes it goes on behind a line feed, unless nothing was collected yet. */
  function ScanLine(s: Scan, line: string): Scan
  {
    if s.inQuote then EndLine(ScanFrom(if s.cur != "" then s.(cur := s.cur + "\n") else s, line, 0))
    else
      var t := Trim(line);
      if t == "" || HasPrefix(t, "//") then s else EndLine(ScanFrom(s, t, 0))
  }

  function ScanLines(s: Scan, lines: seq<string>): Scan
  {
    if lines == [] then s else ScanLine(ScanLines(s, lines[..|lines| - 1]), lines[|lines| - 1])
  }

  const NO_TOKENS := Scan([], false, "")

  function TokensOf(text: string): seq<string>
  {
    var s := ScanLines(NO_TOKENS, Lines(text));
    if s.inQuote && s.cur != "" then s.tokens + [s.cur] else s.tokens
  }

  method ScanRunes(start: Scan, line: string) returns (s: Scan)
    ensures s == ScanFrom(start, line, 0)
  {
    var tokens, inQuote, cur := start.tokens, start.inQuote, start.cur;
    var i := 0;
    while i < |line|
      invariant i <= |line|
      invariant ScanFrom(Scan(tokens, inQuote, cur), line, i) == ScanFrom(start, line, 0)
      decreases |line| - i
    {
      var ch := line[i];
      if !inQuote && ch == '/' && i + 1 < |line| && line[i + 1] == '/' {
        break;
      }
      if inQuote && ch == '\\' && i + 1 < |line| && Escape(line[i + 1]).Some? {
        cur := cur + [Escape(line[i + 1]).value];
        i := i + 2;
        continue;
      }
      i := i + 1;
      if ch == '"' {
        if inQuote {
          tokens := tokens + [cur];
          cur := "";
          inQuote := false;
        } else {
          inQuote := true;
        }
        continue;
      }
      if inQuote {
        cur := cur + [ch];
        continue;
      }
      if ch == '{' || ch == '}' || IsSpace(ch) {
        if |cur| > 0 {
          tokens := tokens + [cur];
          cur := "";
        }
        if ch == '{' || ch == '}' {
          tokens := tokens + [[ch]];
        }
        continue;
      }
      cur := cur + [ch];
    }
    s := Scan(tokens, inQuote, cur);
  }

  method Tokenize(text: string) returns (tokens: seq<string>)
    ensures tokens == TokensOf(text)
  {
    var lines := Lines(text);
    var s := NO_TOKENS;
    for i := 0 to |lines|
      invariant s == ScanLines(NO_TOKENS, lines[..i])
    {
      assert lines[..i + 1][..i] == lines[..i];
      var line := lines[i];
      if !s.inQuote {
        line := Trim(line);
        if line == "" || HasPrefix(line, "//") {
          continue;
        }
      } else if |s.cur| > 0 {
        s := s.(cur := s.cur + "\n");
      }
      s := ScanRunes(s, line);
      if !s.inQuote && |s.cur| > 0 {
        s := Scan(s.tokens + [s.cur], false, "");
      }
    }
    assert lines[..|lines|] == lines;
    tokens := s.tokens;
    if s.inQuote && |s.cur| > 0 {
      tokens := tokens + [s.cur];
    }
  }

  // ---- Nodes ----

  datatype Node = Node(key: string, value: string, children: seq<Node>)

  /** The node at a position, if one starts there, and the position behind it. */
  datatype Parsed = Parsed(node: Option<Node>, next: nat)

  function ParseNode(tokens: seq<string>, start: nat): (r: Parsed)
    ensures start < |tokens| ==> start < r.next <= |tokens|
    ensures start < |tokens| && tokens[start] != "}" ==> r.node.Some?
    decreases |tokens| - start, 0
  {
    if start >= |tokens| then Parsed(None, start)
    else if tokens[start] == "}" then Parsed(None, start + 1)
    else if start + 1 >= |tokens| then Parsed(Some(Node(tokens[start], "", [])), start + 1)
    else if tokens[start + 1] == "{" then
      var (children, next) := ParseChildren(tokens, start + 2, []);
      Parsed(Some(Node(tokens[start], "", children)), next)
    else Parsed(Some(Node(tokens[start], tokens[start + 1], [])), start + 2)
  }

  /** The children from a position up to the closing brace or the end of the tokens. */
  function ParseChildren(tokens: seq<string>, i: nat, children: seq<Node>): (r: (seq<Node>, nat))
    requires i <= |tokens|
    ensures i <= r.1 <= |tokens|
    decreases |tokens| - i, 1
  {
    if i == |tokens| then (children, i)
    else if tokens[i] == "}" then (children, i + 1)
    else
      var child := ParseNode(tokens, i);
      ParseChildren(tokens, child.next, children + [child.node.value])
  }

  method ParseVDFNode(tokens: seq<string>, start: nat) returns (node: Option<Node>, next: nat)
    ensures Parsed(node, next) == ParseNode(tokens, start)
    decreases |tokens| - start
  {
    if start >= |tokens| {
      return None, start;
    }
    var key := tokens[start];
    if key == "}" {
      return None, start + 1;
    }
    if start + 1 >= |tokens| {
      return Some(Node(key, "", [])), start + 1;
    }
    if tokens[start + 1] != "{" {
      return Some(Node(key, tokens[start + 1], [])), start + 2;
    }
    var children: seq<Node> := [];
    var i := start + 2;
    while i < |tokens|
      invariant start + 2 <= i <= |tokens|
      invariant ParseChildren(tokens, i, children) == ParseChildren(tokens, start + 2, [])
      decreases |tokens| - i
    {
      if tokens[i] == "}" {
        return Some(Node(key, "", children)), i + 1;
      }
      var child, after := ParseVDFNode(tokens, i);
      if child.Some? {
        children := children + [child.value];
      }
      i := after;
    }
    return Some(Node(key, "", children)), i;
  }

  /** All top-level nodes from a position on; stray closing braces are passed over. */
  function ParseTop(tokens: seq<string>, i: nat, nodes: seq<Node>): seq<Node>
    decreases |tokens| - i
  {
    if i >= |tokens| then nodes else
      var r := ParseNode(tokens, i);
      ParseTop(tokens, r.next, if r.node.Some? then nodes + [r.node.value] else nodes)
  }

  function RootOf(nodes: seq<Node>): Node
  {
    if |nodes| == 1 then nodes[0] else Node("root", "", nodes)
  }

  method ParseVDF(text: string) returns (root: Node)
    ensures root == RootOf(ParseTop(TokensOf(text), 0, []))
  {
    var tokens := Tokenize(text);
    var nodes: seq<Node> := [];
    var i := 0;
    while i < |tokens|
      invariant ParseTop(tokens, i, nodes) == ParseTop(tokens, 0, [])
      decreases |tokens| - i
    {
      var child, next := ParseVDFNode(tokens, i);
      if child.Some? {
        nodes := nodes + [child.value];
      }
      i := next;
    }
    if |nodes| == 1 {
      return nodes[0];
    }
    root := Node("root", "", nodes);
  }

  // ---- Look-ups ----

  /** The first child with this key, in any casing. */
  function Get(n: Option<Node>, key: string): Option<Node>
  {
    if n.None? then None else FindChild(n.value.children, key)
  }

  function FindChild(children: seq<Node>, key: string): (r: Option<Node>)
    ensures r.Some? <==> exists i :: 0 <= i < |children| && EqualFold(children[i].key, key)
    ensures r.Some? ==> r.value in children && EqualFold(r.value.key, key)
  {
    if children == [] then None
    else if EqualFold(children[0].key, key) then Some(children[0])
    else FindChild(children[1..], key)
  }

  function Follow(n: Option<Node>, parts: seq<string>): Option<Node>
    decreases |parts|
  {
    if parts == [] then n else Follow(Get(n, parts[0]), parts[1..])
  }

  /** Leading parts that name the node itself. */
  function StripOwn(key: string, parts: seq<string>): seq<string>
  {
    if parts != [] && EqualFold(key, parts[0]) then StripOwn(key, parts[1..]) else parts
  }

  /** The value at a path, already split at its slashes. A path of several parts may start with the node's own key. */
  function GetString(n: Option<Node>, parts: seq<string>): string
  {
    if n.None? then "" else
      var r := Follow(n, if |parts| > 1 then StripOwn(n.value.key, parts) else parts);
      if r.Some? then r.value.value else ""
  }

  method LookUp(n: Option<Node>, parts: seq<string>) returns (r: string)
    ensures r == GetString(n, parts)
  {
    if n.None? {
      return "";
    }
    var curr, atTop := n, true;
    for i := 0 to |parts|
      invariant atTop ==> curr == n
      invariant GetString(n, parts) ==
                  var end := Follow(curr, if atTop && |parts| > 1 then StripOwn(n.value.key, parts[i..]) else parts[i..]);
                  if end.Some? then end.value.value else ""
    {
      assert parts[i..][1..] == parts[i + 1..];
      if curr.None? {
        FollowNone(parts[i..]);
        return "";
      }
      if EqualFold(curr.value.key, parts[i]) && |parts| > 1 && atTop {
        continue;
      }
      curr, atTop := Get(curr, parts[i]), false;
    }
    r := if curr.Some? then curr.value.value else "";
  }

  lemma {:induction false} FollowNone(parts: seq<string>)
    ensures Follow(None, parts) == None
  {
    if parts != [] {
      FollowNone(parts[1..]);
    }
  }

  // ---- Trees print and parse ----

  /** A key with a value, or a section. */
  datatype Tree = Leaf(key: string, value: string) | Section(key: string, children: seq<Tree>)

  function MeaningOf(t: Tree): Node
  {
    match t
    case Leaf(key, value) => Node(key, value, [])
    case Section(key, children) => Node(key, "", MeaningsOf(children))
  }

  function MeaningsOf(ts: seq<Tree>): (r: seq<Node>)
    ensures |r| == |ts|
  {
    if ts == [] then [] else [MeaningOf(ts[0])] + MeaningsOf(ts[1..])
  }

  function TreeTokens(t: Tree): (r: seq<string>)
    ensures |r| >= 2 && r[0] == t.key
  {
    match t
    case Leaf(key, value) => [key, value]
    case Section(key, children) => [key, "{"] + TreesTokens(children) + ["}"]
  }

  function TreesTokens(ts: seq<Tree>): seq<string>
  {
    if ts == [] then [] else TreeTokens(ts[0]) + TreesTokens(ts[1..])
  }

  /** No key is a closing brace, and no value an opening one: the tokenizer cannot tell quoted braces from bare ones. */
  predicate Parsable(t: Tree)
  {
    match t
    case Leaf(key, value) => key != "}" && value != "{"
    case Section(key, children) => key != "}" && forall c :: c in children ==> Parsable(c)
  }

  /** Parsing the tokens of a tree gives that tree and stops right behind it. */
  lemma {:induction false} TreeParses(tokens: seq<string>, start: nat, t: Tree, rest: seq<string>)
    requires Parsable(t) && start <= |tokens| && tokens[start..] == TreeTokens(t) + rest
    ensures ParseNode(tokens, start) == Parsed(Some(MeaningOf(t)), start + |TreeTokens(t)|)
    ensures start + |TreeTokens(t)| <= |tokens| && tokens[start + |TreeTokens(t)|..] == rest
    decreases t, 0
  {
    var own := TreeTokens(t);
    assert tokens[start] == own[0] && tokens[start + 1] == own[1];
    assert tokens[start + |own|..] == tokens[start..][|own|..];
    if t.Section? {
      assert tokens[start + 2..] == tokens[start..][2..];
      assert tokens[start + 2..] == TreesTokens(t.children) + (["}"] + rest);
      TreesParse(tokens, start + 2, t.children, rest, []);
      assert [] + MeaningsOf(t.children) == MeaningsOf(t.children);
    }
  }

  lemma {:induction false} TreesParse(tokens: seq<string>, i: nat, ts: seq<Tree>, rest: seq<string>, children: seq<Node>)
    requires (forall c :: c in ts ==> Parsable(c)) && i <= |tokens| && tokens[i..] == TreesTokens(ts) + (["}"] + rest)
    ensures ParseChildren(tokens, i, children) == (children + MeaningsOf(ts), i + |TreesTokens(ts)| + 1)
    decreases ts, 1
  {
    if ts == [] {
      assert tokens[i] == tokens[i..][0];
      assert children + MeaningsOf(ts) == children;
    } else {
      var own, node := TreeTokens(ts[0]), MeaningOf(ts[0]);
      var rest' := TreesTokens(ts[1..]) + (["}"] + rest);
      FirstTree(ts, ["}"] + rest);
      TreeParses(tokens, i, ts[0], rest');
      ChildTaken(tokens, i, own, rest', children, node);
      TreesParse(tokens, i + |own|, ts[1..], rest, children + [node]);
      Regrouped(children, [node], MeaningsOf(ts[1..]));
    }
  }

  lemma {:induction false} FirstTree(ts: seq<Tree>, rest: seq<string>)
    requires ts != []
    ensures TreesTokens(ts) + rest == TreeTokens(ts[0]) + (TreesTokens(ts[1..]) + rest)
    ensures |TreesTokens(ts)| == |TreeTokens(ts[0])| + |TreesTokens(ts[1..])|
    ensures MeaningsOf(ts) == [MeaningOf(ts[0])] + MeaningsOf(ts[1..])
  {
    Regrouped(TreeTokens(ts[0]), TreesTokens(ts[1..]), rest);
  }

  lemma {:induction false} StartsWith(tokens: seq<string>, i: nat, own: seq<string>, rest: seq<string>)
    requires i <= |tokens| && tokens[i..] == own + rest && own != []
    ensures i < |tokens| && tokens[i] == own[0]
  {
    assert tokens[i..][0] == tokens[i];
  }

  lemma {:induction false} ChildTaken(tokens: seq<string>, i: nat, own: seq<string>, rest: seq<string>, children: seq<Node>, node: Node)
    requires i <= |tokens| && tokens[i..] == own + rest && own != [] && own[0] != "}"
    requires i < |tokens| ==> ParseNode(tokens, i) == Parsed(Some(node), i + |own|)
    ensures ParseChildren(tokens, i, children) == ParseChildren(tokens, i + |own|, children + [node])
  {
    StartsWith(tokens, i, own, rest);
    NextChild(tokens, i, children, node, i + |own|);
  }

  lemma {:induction false} NextChild(tokens: seq<string>, i: nat, children: seq<Node>, node: Node, next: nat)
    requires i < |tokens| && tokens[i] != "}" && ParseNode(tokens, i) == Parsed(Some(node), next)
    ensures ParseChildren(tokens, i, children) == ParseChildren(tokens, next, children + [node])
  {
  }

  /** The top-level nodes of a text are its trees, in order. */
  lemma {:induction false} ForestParses(tokens: seq<string>, i: nat, ts: seq<Tree>, nodes: seq<Node>)
    requires (forall t :: t in ts ==> Parsable(t)) && i <= |tokens| && tokens[i..] == TreesTokens(ts)
    ensures ParseTop(tokens, i, nodes) == nodes + MeaningsOf(ts)
    decreases |ts|
  {
    if ts == [] {
      assert nodes + MeaningsOf(ts) == nodes;
    } else {
      var node := MeaningOf(ts[0]);
      assert ts[0] in ts;
      TreeParses(tokens, i, ts[0], TreesTokens(ts[1..]));
      StartsWith(tokens, i, TreeTokens(ts[0]), TreesTokens(ts[1..]));
      ForestParses(tokens, i + |TreeTokens(ts[0])|, ts[1..], nodes + [node]);
      Regrouped(nodes, [node], MeaningsOf(ts[1..]));
    }
  }

  /** A document that is one section parses to that section, any other one to a root above its trees. */
  lemma {:induction false} DocumentParses(ts: seq<Tree>)
    requires forall t :: t in ts ==> Parsable(t)
    ensures RootOf(ParseTop(TreesTokens(ts), 0, [])) == if |ts| == 1 then MeaningOf(ts[0]) else Node("root", "", MeaningsOf(ts))
  {
    assert TreesTokens(ts)[0..] == TreesTokens(ts);
    ForestParses(TreesTokens(ts), 0, ts, []);
    assert [] + MeaningsOf(ts) == MeaningsOf(ts);
  }

  lemma {:induction false} OneTreeParses(t: Tree)
    requires Parsable(t)
    ensures RootOf(ParseTop(TreeTokens(t), 0, [])) == MeaningOf(t)
  {
    assert TreesTokens([t]) == TreeTokens(t) + [] == TreeTokens(t);
    DocumentParses([t]);
  }

  /** The first part of a path may name the node itself, in any casing. */
  lemma {:induction false} OwnKeyPassedOver(n: Node, own: string, key: string)
    requires EqualFold(n.key, own) && !EqualFold(n.key, key)
    ensures GetString(Some(n), [own, key]) == GetString(Some(n), [key])
  {
    assert [own, key][1..] == [key];
    assert StripOwn(n.key, [key]) == [key];
  }
}
