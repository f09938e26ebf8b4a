/** Steam app manifests: the printer, the reader, and that reading what was printed gives the data back. */
module Acf {
  import opened Text
  import opened TextLines
  import opened Vdf
  import opened VdfText

  datatype Candidate = Candidate(name: string, executable: string, arguments: string, description: string)

  datatype App = App(appID: string, name: string, installDir: string, buildID: string, language: string, betaKey: string,
                     lastUpdated: int, sizeOnDisk: int, launch: seq<Candidate>)

  /** What the reader takes from elsewhere: path cleaning, a file name without its extension, and decimal parsing
      that gives 0 for the empty string. */
  datatype Env = Env(clean: string -> string, stem: string -> string, toInt: string -> int)

  // ---- Printing ----

  function Or(s: string, other: string): string
  {
    if s == "" then other else s
  }

  function OptionalLeaf(key: string, value: string): seq<Tree>
  {
    if value == "" then [] else [Leaf(key, value)]
  }

  function OptionTree(i: nat, c: Candidate): Tree
  {
    Section(Decimal(i), OptionFields(c))
  }

  function OptionFields(c: Candidate): seq<Tree>
  {
    OptionalLeaf("executable", c.executable) + OptionalLeaf("arguments", c.arguments) + OptionalLeaf("description", c.description)
  }

  function OptionTrees(launch: seq<Candidate>): (r: seq<Tree>)
    ensures |r| == |launch| && forall i :: 0 <= i < |r| ==> r[i] == OptionTree(i, launch[i])
  {
    if launch == [] then [] else
      var n := |launch| - 1;
      OptionTrees(launch[..n]) + [OptionTree(n, launch[n])]
  }

  predicate PrintsBeta(a: App)
  {
    a.betaKey != "" && a.betaKey != "public"
  }

  function UserConfigTree(a: App): Tree
  {
    Section("UserConfig", [Leaf("language", Or(a.language, "english"))] + if PrintsBeta(a) then [Leaf("BetaKey", a.betaKey)] else [])
  }

  function ConfigTrees(a: App): seq<Tree>
  {
    if a.launch == [] then [] else [Section("config", [Section("launch", OptionTrees(a.launch))])]
  }

  function HeadTrees(a: App): seq<Tree>
  {
    [Leaf("appid", Or(a.appID, "0")), Leaf("name", Or(a.name, "Game")), Leaf("installdir", Or(a.installDir, Or(a.name, "Game"))),
     Leaf("StateFlags", "4"), Leaf("buildid", Or(a.buildID, "0"))]
  }

  /** The tree that is printed. */
  function AppTree(a: App): Tree
  {
    Section("AppState", HeadTrees(a) + [UserConfigTree(a)] + ConfigTrees(a))
  }

  lemma {:induction false} TreesSum(a: seq<Tree>, b: seq<Tree>, depth: nat)
    ensures TreesLines(a + b, depth) == TreesLines(a, depth) + TreesLines(b, depth)
  {
    if a == [] {
      assert a + b == b;
    } else {
      assert (a + b)[0] == a[0] && (a + b)[1..] == a[1..] + b;
      TreesSum(a[1..], b, depth);
      Regrouped(TreeLines(a[0], depth), TreesLines(a[1..], depth), TreesLines(b, depth));
    }
  }

  /** Text of a list of trees with one more. */
  lemma {:induction false} PrintMore(ts: seq<Tree>, t: Tree, depth: nat)
    ensures Joined(TreesLines(ts + [t], depth)) == Joined(TreesLines(ts, depth)) + Joined(TreeLines(t, depth))
  {
    TreesSum(ts, [t], depth);
    assert [t][1..] == [];
    assert TreesLines([t], depth) == TreeLines(t, depth);
    JoinedSum(TreesLines(ts, depth), TreeLines(t, depth));
  }

  lemma {:induction false} LeafPrints(depth: nat, key: string, value: string)
    ensures Joined(TreeLines(Leaf(key, value), depth)) == Tabs(depth) + PairText(key, value) + "\n"
  {
    assert Joined([]) == "";
  }

  /** A section prints as key and brace, its children, and the closing brace. */
  lemma {:induction false} SectionPrints(key: string, children: seq<Tree>, depth: nat)
    ensures Joined(TreeLines(Section(key, children), depth)) ==
              Tabs(depth) + Quoted(key) + "\n" + Tabs(depth) + "{\n" + Joined(TreesLines(children, depth + 1)) + Tabs(depth) + "}\n"
  {
    var first, second, last := Tabs(depth) + Quoted(key), Tabs(depth) + "{", Tabs(depth) + "}";
    JoinedSum([first, second] + TreesLines(children, depth + 1), [last]);
    JoinedSum([first, second], TreesLines(children, depth + 1));
    TwoLines(first, second);
    OneJoined(last);
  }

  lemma {:induction false} OneJoined(a: string)
    ensures Joined([a]) == a + "\n"
  {
    assert [a][1..] == [];
  }

  lemma TwoLines(a: string, b: string)
    ensures Joined([a, b]) == a + "\n" + b + "\n"
  {
    JoinedSum([a], [b]);
    OneJoined(a);
    OneJoined(b);
    assert [a] + [b] == [a, b];
  }

  /** `text` is the print of `ts`; add a value. */
  method WriteLeaf(text: string, ghost ts: seq<Tree>, depth: nat, key: string, value: string) returns (r: string)
    requires text == Joined(TreesLines(ts, depth))
    ensures r == Joined(TreesLines(ts + [Leaf(key, value)], depth))
  {
    PrintMore(ts, Leaf(key, value), depth);
    LeafPrints(depth, key, value);
    r := text + (Tabs(depth) + PairText(key, value) + "\n");
  }

  method WriteOptional(text: string, ghost ts: seq<Tree>, depth: nat, key: string, value: string) returns (r: string)
    requires text == Joined(TreesLines(ts, depth))
    ensures r == Joined(TreesLines(ts + OptionalLeaf(key, value), depth))
  {
    r := text;
    assert ts + [] == ts;
    if value != "" {
      r := WriteLeaf(text, ts, depth, key, value);
    }
  }

  /** `text` is the print of `ts`; add a section around the print of its children. */
  method WriteSection(text: string, ghost ts: seq<Tree>, depth: nat, key: string, ghost children: seq<Tree>, inner: string)
    returns (r: string)
    requires text == Joined(TreesLines(ts, depth)) && inner == Joined(TreesLines(children, depth + 1))
    ensures r == Joined(TreesLines(ts + [Section(key, children)], depth))
  {
    PrintMore(ts, Section(key, children), depth);
    SectionPrints(key, children, depth);
    r := text + (Tabs(depth) + Quoted(key) + "\n" + Tabs(depth) + "{\n" + inner + Tabs(depth) + "}\n");
  }

  method WriteOption(text: string, ghost ts: seq<Tree>, i: nat, c: Candidate) returns (r: string)
    requires text == Joined(TreesLines(ts, 3))
    ensures r == Joined(TreesLines(ts + [OptionTree(i, c)], 3))
  {
    var inner := WriteFields(c);
    r := WriteSection(text, ts, 3, Decimal(i), OptionFields(c), inner);
  }

  method WriteFields(c: Candidate) returns (r: string)
    ensures r == Joined(TreesLines(OptionFields(c), 4))
  {
    ghost var first, second := OptionalLeaf("executable", c.executable), OptionalLeaf("arguments", c.arguments);
    assert [] + first == first;
    r := WriteOptional("", [], 4, "executable", c.executable);
    r := WriteOptional(r, first, 4, "arguments", c.arguments);
    r := WriteOptional(r, first + second, 4, "description", c.description);
  }

  method WriteOptions(launch: seq<Candidate>) returns (r: string)
    ensures r == Joined(TreesLines(OptionTrees(launch), 3))
  {
    r := "";
    for i := 0 to |launch|
      invariant r == Joined(TreesLines(OptionTrees(launch[..i]), 3))
    {
      assert launch[..i + 1][..i] == launch[..i];
      r := WriteOption(r, OptionTrees(launch[..i]), i, launch[i]);
    }
    assert launch[..|launch|] == launch;
  }

  method WriteUserConfig(text: string, ghost ts: seq<Tree>, a: App) returns (r: string)
    requires text == Joined(TreesLines(ts, 1))
    ensures r == Joined(TreesLines(ts + [UserConfigTree(a)], 1))
  {
    ghost var children := [] + [Leaf("language", Or(a.language, "english"))];
    var inner := WriteLeaf("", [], 2, "language", Or(a.language, "english"));
    if a.betaKey != "" && a.betaKey != "public" {
      inner := WriteLeaf(inner, children, 2, "BetaKey", a.betaKey);
      children := children + [Leaf("BetaKey", a.betaKey)];
    }
    assert Section("UserConfig", children) == UserConfigTree(a);
    r := WriteSection(text, ts, 1, "UserConfig", children, inner);
  }

  method WriteConfig(text: string, ghost ts: seq<Tree>, a: App) returns (r: string)
    requires text == Joined(TreesLines(ts, 1))
    ensures r == Joined(TreesLines(ts + ConfigTrees(a), 1))
  {
    r := text;
    assert ts + [] == ts;
    if |a.launch| > 0 {
      ghost var launch := Section("launch", OptionTrees(a.launch));
      var options := WriteOptions(a.launch);
      var inner := WriteSection("", [], 2, "launch", OptionTrees(a.launch), options);
      assert [] + [launch] == [launch];
      r := WriteSection(text, ts, 1, "config", [launch], inner);
    }
  }

  method WriteHead(a: App) returns (r: string)
    ensures r == Joined(TreesLines(HeadTrees(a), 1))
  {
    ghost var ts := HeadTrees(a);
    var name := Or(a.name, "Game");
    r := WriteLeaf("", [], 1, "appid", Or(a.appID, "0"));
    assert [] + [ts[0]] == ts[..1];
    r := WriteLeaf(r, ts[..1], 1, "name", name);
    assert ts[..1] + [ts[1]] == ts[..2];
    r := WriteLeaf(r, ts[..2], 1, "installdir", Or(a.installDir, name));
    assert ts[..2] + [ts[2]] == ts[..3];
    r := WriteLeaf(r, ts[..3], 1, "StateFlags", "4");
    assert ts[..3] + [ts[3]] == ts[..4];
    r := WriteLeaf(r, ts[..4], 1, "buildid", Or(a.buildID, "0"));
    assert ts[..4] + [ts[4]] == ts;
  }

  /** GenerateACFContent: exactly the printed tree. */
  method GenerateACFContent(data: Option<App>) returns (text: string)
    ensures text == if data.None? then "" else Joined(TreeLines(AppTree(data.value), 0))
  {
    if data.None? {
      return "";
    }
    text := WriteApp(data.value);
  }

  method WriteApp(a: App) returns (text: string)
    ensures text == Joined(TreeLines(AppTree(a), 0))
  {
    var inner := WriteHead(a);
    inner := WriteUserConfig(inner, HeadTrees(a), a);
    inner := WriteConfig(inner, HeadTrees(a) + [UserConfigTree(a)], a);
    TopSectionPrints("AppState", HeadTrees(a) + [UserConfigTree(a)] + ConfigTrees(a));
    text := Quoted("AppState") + "\n" + "{\n" + inner + "}\n";
  }

  lemma TopSectionPrints(key: string, children: seq<Tree>)
    ensures Joined(TreeLines(Section(key, children), 0)) == Quoted(key) + "\n" + "{\n" + Joined(TreesLines(children, 1)) + "}\n"
  {
    SectionPrints(key, children, 0);
    assert Tabs(0) == "";
  }

  // ---- Reading ----

  /** The display name of a launch option. */
  function OptionName(env: Env, soFar: nat, exe: string, description: string, kind: string): string
  {
    if description == "" then
      (if EqualFold(kind, "default") || soFar == 0 then "Play" else "Play (" + env.stem(exe) + ")")
    else if !HasPrefix(ToLower(description), "play ") then "Play (" + description + ")"
    else description
  }

  function DescriptionOf(n: Node): string
  {
    Or(GetString(Some(n), ["description"]), GetString(Some(n), ["description_loc", "english"]))
  }

  /** One child of the launch section; without an executable it is no option. */
  function WithOption(env: Env, launch: seq<Candidate>, n: Node): seq<Candidate>
  {
    var exe := GetString(Some(n), ["executable"]);
    if exe == "" || env.clean(exe) == "" then launch else
      var name := OptionName(env, |launch|, env.clean(exe), DescriptionOf(n), GetString(Some(n), ["type"]));
      launch + [Candidate(name, env.clean(exe), GetString(Some(n), ["arguments"]), DescriptionOf(n))]
  }

  function OptionsOf(env: Env, nodes: seq<Node>): seq<Candidate>
  {
    if nodes == [] then [] else WithOption(env, OptionsOf(env, nodes[..|nodes| - 1]), nodes[|nodes| - 1])
  }

  function LaunchOf(env: Env, n: Node): seq<Candidate>
  {
    var sub := Get(Get(Some(n), "config"), "launch");
    if sub.None? then [] else OptionsOf(env, sub.value.children)
  }

  function IntOf(env: Env, n: Node, a: string, b: string): int
  {
    var v := env.toInt(GetString(Some(n), [a]));
    if v != 0 then v else env.toInt(GetString(Some(n), [b]))
  }

  function BetaOf(n: Node): string
  {
    Or(GetString(Some(n), ["UserConfig", "BetaKey"]), Or(GetString(Some(n), ["UserConfig", "betakey"]),
      Or(GetString(Some(n), ["betakey"]), GetString(Some(n), ["BetaKey"]))))
  }

  /** The data of a parsed manifest; without id and name there is none. */
  function AppOf(env: Env, n: Node): Option<App>
  {
    var appID, name := GetString(Some(n), ["appid"]), GetString(Some(n), ["name"]);
    if appID == "" && name == "" then None else
      Some(App(appID, name, GetString(Some(n), ["installdir"]), GetString(Some(n), ["buildid"]),
               Or(GetString(Some(n), ["UserConfig", "language"]), GetString(Some(n), ["language"])), BetaOf(n),
               IntOf(env, n, "LastUpdated", "lastupdated"), IntOf(env, n, "SizeOnDisk", "sizeondisk"), LaunchOf(env, n)))
  }

  method ReadOption(env: Env, n: Node, launch: seq<Candidate>) returns (r: seq<Candidate>)
    ensures r == WithOption(env, launch, n)
  {
    r := launch;
    var exe := LookUp(Some(n), ["executable"]);
    if exe == "" {
      return;
    }
    var cleanExe := env.clean(exe);
    if cleanExe == "" {
      return;
    }
    var arguments := LookUp(Some(n), ["arguments"]);
    var description := LookUp(Some(n), ["description"]);
    if description == "" {
      description := LookUp(Some(n), ["description_loc", "english"]);
    }
    var kind := LookUp(Some(n), ["type"]);
    r := launch + [Candidate(OptionName(env, |launch|, cleanExe, description, kind), cleanExe, arguments, description)];
  }

  method ReadOptions(env: Env, nodes: seq<Node>) returns (launch: seq<Candidate>)
    ensures launch == OptionsOf(env, nodes)
  {
    launch := [];
    for i := 0 to |nodes|
      invariant launch == OptionsOf(env, nodes[..i])
    {
      assert nodes[..i + 1][..i] == nodes[..i];
      launch := ReadOption(env, nodes[i], launch);
    }
    assert nodes[..|nodes|] == nodes;
  }

  method ReadInt(env: Env, n: Node, a: string, b: string) returns (v: int)
    ensures v == IntOf(env, n, a, b)
  {
    var s := LookUp(Some(n), [a]);
    v := env.toInt(s);
    if v == 0 {
      s := LookUp(Some(n), [b]);
      v := env.toInt(s);
    }
  }

  method ReadBeta(n: Node) returns (betaKey: string)
    ensures betaKey == BetaOf(n)
  {
    betaKey := LookUp(Some(n), ["UserConfig", "BetaKey"]);
    if betaKey == "" {
      betaKey := LookUp(Some(n), ["UserConfig", "betakey"]);
    }
    if betaKey == "" {
      betaKey := LookUp(Some(n), ["betakey"]);
    }
    if betaKey == "" {
      betaKey := LookUp(Some(n), ["BetaKey"]);
    }
  }

  method ParseACF(env: Env, text: string) returns (r: Option<App>)
    ensures r == AppOf(env, RootOf(ParseTop(TokensOf(text), 0, [])))
  {
    var node := ParseVDF(text);
    var lastUpdated := ReadInt(env, node, "LastUpdated", "lastupdated");
    var sizeOnDisk := ReadInt(env, node, "SizeOnDisk", "sizeondisk");
    var betaKey := ReadBeta(node);
    var appID := LookUp(Some(node), ["appid"]);
    var name := LookUp(Some(node), ["name"]);
    var installDir := LookUp(Some(node), ["installdir"]);
    var buildID := LookUp(Some(node), ["buildid"]);
    var language := LookUp(Some(node), ["UserConfig", "language"]);
    if language == "" {
      language := LookUp(Some(node), ["language"]);
    }
    var launch: seq<Candidate> := [];
    var sub := Get(Get(Some(node), "config"), "launch");
    if sub.Some? {
      launch := ReadOptions(env, sub.value.children);
    }
    if appID == "" && name == "" {
      return None;
    }
    r := Some(App(appID, name, installDir, buildID, language, betaKey, lastUpdated, sizeOnDisk, launch));
  }
}
