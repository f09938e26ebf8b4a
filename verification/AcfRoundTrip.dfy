/** Reading a printed app manifest gives the data back, defaults filled in. */
module AcfRoundTrip {
  import opened Text
  import opened TextLines
  import opened Vdf
  import opened VdfText
  import opened Acf

  // ---- Look-ups in printed trees ----

  /** The first child with this key among printed trees. */
  function Found(ts: seq<Tree>, key: string): Option<Node>
  {
    FindChild(MeaningsOf(ts), key)
  }

  lemma {:induction false} FoundSum(a: seq<Tree>, b: seq<Tree>, key: string)
    ensures Found(a + b, key) == if Found(a, key).Some? then Found(a, key) else Found(b, key)
  {
    if a == [] {
      assert a + b == b;
    } else {
      assert (a + b)[0] == a[0] && (a + b)[1..] == a[1..] + b;
      FoundSum(a[1..], b, key);
      FoundCons(a[0], a[1..], key);
      FoundCons(a[0], a[1..] + b, key);
      assert [a[0]] + a[1..] == a && [a[0]] + (a[1..] + b) == a + b;
    }
  }

  lemma {:induction false} FoundCons(t: Tree, ts: seq<Tree>, key: string)
    ensures Found([t] + ts, key) == if EqualFold(t.key, key) then Some(MeaningOf(t)) else Found(ts, key)
  {
    assert ([t] + ts)[1..] == ts;
    assert MeaningsOf([t] + ts)[1..] == MeaningsOf(ts);
  }

  lemma {:induction false} FoundOne(t: Tree, key: string)
    ensures Found([t], key) == if EqualFold(t.key, key) then Some(MeaningOf(t)) else None
  {
    FoundCons(t, [], key);
    assert [t] + [] == [t];
  }

  lemma FoundOptional(leaf: string, value: string, key: string)
    ensures Found(OptionalLeaf(leaf, value), key) == if value != "" && EqualFold(leaf, key) then Some(Node(leaf, value, [])) else None
  {
    FoundOne(Leaf(leaf, value), key);
  }

  /** Different at one letter, whatever the casing. */
  lemma DiffersAt(a: string, b: string, i: nat)
    requires i < |a| && i < |b| && LowerChar(a[i]) != LowerChar(b[i])
    ensures !EqualFold(a, b)
  {
    assert ToLower(a)[i] == LowerChar(a[i]) && ToLower(b)[i] == LowerChar(b[i]);
  }

  function ValueIn(n: Option<Node>): string
  {
    if n.Some? then n.value.value else ""
  }

  lemma {:induction false} OnePart(n: Node, key: string)
    ensures GetString(Some(n), [key]) == ValueIn(FindChild(n.children, key))
  {
    assert [key][1..] == [];
    assert Follow(Get(Some(n), key), []) == Get(Some(n), key);
  }

  lemma {:induction false} TwoParts(n: Node, a: string, b: string)
    requires !EqualFold(n.key, a)
    ensures GetString(Some(n), [a, b]) == ValueIn(Get(FindChild(n.children, a), b))
  {
    assert [a, b][1..] == [b] && [b][1..] == [];
    assert Follow(Get(Get(Some(n), a), b), []) == Get(Get(Some(n), a), b);
    assert Follow(Get(Some(n), a), [b]) == Get(Get(Some(n), a), b);
  }

  // ---- Launch options ----

  /** What the reader makes of a printed option. The display name is derived afresh. */
  function WithPrinted(env: Env, launch: seq<Candidate>, c: Candidate): seq<Candidate>
  {
    var exe := env.clean(c.executable);
    if c.executable == "" || exe == "" then launch
    else launch + [Candidate(OptionName(env, |launch|, exe, c.description, ""), exe, c.arguments, c.description)]
  }

  function PrintedOptions(env: Env, launch: seq<Candidate>): seq<Candidate>
  {
    if launch == [] then [] else WithPrinted(env, PrintedOptions(env, launch[..|launch| - 1]), launch[|launch| - 1])
  }

  lemma {:induction false} OptionFinds(i: nat, c: Candidate, key: string)
    ensures FindChild(MeaningOf(OptionTree(i, c)).children, key) ==
              if c.executable != "" && EqualFold("executable", key) then Some(Node("executable", c.executable, []))
              else if c.arguments != "" && EqualFold("arguments", key) then Some(Node("arguments", c.arguments, []))
              else if c.description != "" && EqualFold("description", key) then Some(Node("description", c.description, []))
              else None
  {
    var a, b, d := OptionalLeaf("executable", c.executable), OptionalLeaf("arguments", c.arguments), OptionalLeaf("description", c.description);
    FoundSum(a + b, d, key);
    FoundSum(a, b, key);
    FoundOptional("executable", c.executable, key);
    FoundOptional("arguments", c.arguments, key);
    FoundOptional("description", c.description, key);
  }

  /** Reading one printed option gives its executable, arguments and description. */
  lemma OptionBack(env: Env, launch: seq<Candidate>, i: nat, c: Candidate)
    ensures WithOption(env, launch, MeaningOf(OptionTree(i, c))) == WithPrinted(env, launch, c)
  {
    OptionValues(i, c);
    DescriptionBack(i, c);
  }

  lemma OptionValues(i: nat, c: Candidate)
    ensures var n := Some(MeaningOf(OptionTree(i, c)));
      && GetString(n, ["executable"]) == c.executable && GetString(n, ["arguments"]) == c.arguments
      && GetString(n, ["description"]) == c.description && GetString(n, ["type"]) == ""
  {
    var n := MeaningOf(OptionTree(i, c));
    OnePart(n, "executable");
    OnePart(n, "arguments");
    OnePart(n, "description");
    OnePart(n, "type");
    OptionFinds(i, c, "executable");
    OptionFinds(i, c, "arguments");
    OptionFinds(i, c, "description");
    OptionFinds(i, c, "type");
  }

  lemma DescriptionBack(i: nat, c: Candidate)
    ensures DescriptionOf(MeaningOf(OptionTree(i, c))) == c.description
  {
    OptionValues(i, c);
    OptionFinds(i, c, "description_loc");
    DiffersAt(Decimal(i), "description_loc", 0);
    TwoParts(MeaningOf(OptionTree(i, c)), "description_loc", "english");
  }

  lemma {:induction false} OptionsBack(env: Env, launch: seq<Candidate>)
    ensures OptionsOf(env, MeaningsOf(OptionTrees(launch))) == PrintedOptions(env, launch)
  {
    if launch != [] {
      var n := |launch| - 1;
      OptionsBack(env, launch[..n]);
      OptionBack(env, PrintedOptions(env, launch[..n]), n, launch[n]);
      MeaningsMore(OptionTrees(launch[..n]), OptionTree(n, launch[n]));
    }
  }

  lemma {:induction false} MeaningsMore(ts: seq<Tree>, t: Tree)
    ensures MeaningsOf(ts + [t]) == MeaningsOf(ts) + [MeaningOf(t)]
  {
    if ts == [] {
      assert ts + [t] == [t] && [t][1..] == [];
    } else {
      assert (ts + [t])[1..] == ts[1..] + [t];
      MeaningsMore(ts[1..], t);
    }
  }

  // ---- The whole manifest ----

  /** What comes back: empty fields as their defaults, the public branch as none, times and sizes not at all. */
  function ReadBack(env: Env, a: App): App
  {
    var name := Or(a.name, "Game");
    App(Or(a.appID, "0"), name, Or(a.installDir, name), Or(a.buildID, "0"), Or(a.language, "english"),
        if PrintsBeta(a) then a.betaKey else "", 0, 0, PrintedOptions(env, a.launch))
  }

  /** A field that can be printed as it is and read as a value. */
  predicate Field(s: string)
  {
    Safe(s) && s != "{"
  }

  predicate Printable(a: App)
  {
    Field(a.appID) && Field(a.name) && Field(a.installDir) && Field(a.buildID) && Field(a.language) && Field(a.betaKey)
    && forall c :: c in a.launch ==> Field(c.executable) && Field(c.arguments) && Field(c.description)
  }

  lemma HeadFinds(a: App, key: string)
    ensures Found(HeadTrees(a), key) ==
              if EqualFold("appid", key) then Some(Node("appid", Or(a.appID, "0"), []))
              else if EqualFold("name", key) then Some(Node("name", Or(a.name, "Game"), []))
              else if EqualFold("installdir", key) then Some(Node("installdir", Or(a.installDir, Or(a.name, "Game")), []))
              else if EqualFold("StateFlags", key) then Some(Node("StateFlags", "4", []))
              else if EqualFold("buildid", key) then Some(Node("buildid", Or(a.buildID, "0"), []))
              else None
  {
    var ts := HeadTrees(a);
    assert ts == [ts[0]] + ([ts[1]] + ([ts[2]] + ([ts[3]] + [ts[4]])));
    FoundCons(ts[0], [ts[1]] + ([ts[2]] + ([ts[3]] + [ts[4]])), key);
    FoundCons(ts[1], [ts[2]] + ([ts[3]] + [ts[4]]), key);
    FoundCons(ts[2], [ts[3]] + [ts[4]], key);
    FoundCons(ts[3], [ts[4]], key);
    FoundOne(ts[4], key);
  }

  lemma {:induction false} RootFinds(a: App, key: string)
    ensures FindChild(MeaningOf(AppTree(a)).children, key) ==
              if Found(HeadTrees(a), key).Some? then Found(HeadTrees(a), key)
              else if EqualFold("UserConfig", key) then Some(MeaningOf(UserConfigTree(a)))
              else Found(ConfigTrees(a), key)
  {
    FoundSum(HeadTrees(a) + [UserConfigTree(a)], ConfigTrees(a), key);
    FoundSum(HeadTrees(a), [UserConfigTree(a)], key);
    FoundOne(UserConfigTree(a), key);
  }

  lemma {:induction false} ConfigFinds(a: App, key: string)
    ensures Found(ConfigTrees(a), key) ==
              if a.launch != [] && EqualFold("config", key) then Some(MeaningOf(ConfigTrees(a)[0])) else None
  {
    if a.launch != [] {
      FoundOne(ConfigTrees(a)[0], key);
    }
  }

  lemma {:induction false} UserConfigFinds(a: App, key: string)
    ensures FindChild(MeaningOf(UserConfigTree(a)).children, key) ==
              if EqualFold("language", key) then Some(Node("language", Or(a.language, "english"), []))
              else if PrintsBeta(a) && EqualFold("BetaKey", key) then Some(Node("BetaKey", a.betaKey, []))
              else None
  {
    var language := Leaf("language", Or(a.language, "english"));
    FoundSum([language], if PrintsBeta(a) then [Leaf("BetaKey", a.betaKey)] else [], key);
    FoundOne(language, key);
    FoundOne(Leaf("BetaKey", a.betaKey), key);
  }

  /** A key that is none of the top-level keys. */
  lemma RootMisses(a: App, key: string)
    requires !EqualFold("appid", key) && !EqualFold("name", key) && !EqualFold("installdir", key) && !EqualFold("StateFlags", key)
    requires !EqualFold("buildid", key) && !EqualFold("UserConfig", key) && !EqualFold("config", key)
    ensures GetString(Some(MeaningOf(AppTree(a))), [key]) == ""
  {
    OnePart(MeaningOf(AppTree(a)), key);
    RootFinds(a, key);
    HeadFinds(a, key);
    ConfigFinds(a, key);
  }

  lemma HeadBack(a: App)
    ensures var n := Some(MeaningOf(AppTree(a)));
      && GetString(n, ["appid"]) == Or(a.appID, "0") && GetString(n, ["name"]) == Or(a.name, "Game")
      && GetString(n, ["installdir"]) == Or(a.installDir, Or(a.name, "Game")) && GetString(n, ["buildid"]) == Or(a.buildID, "0")
  {
    HeadKeyBack(a, "appid");
    HeadKeyBack(a, "name");
    HeadKeyBack(a, "installdir");
    HeadKeyBack(a, "buildid");
  }

  lemma HeadKeyBack(a: App, key: string)
    requires Found(HeadTrees(a), key).Some? || key == "appid" || key == "name" || key == "installdir" || key == "buildid"
    ensures Found(HeadTrees(a), key).Some?
    ensures GetString(Some(MeaningOf(AppTree(a))), [key]) == Found(HeadTrees(a), key).value.value
    ensures key == "appid" ==> Found(HeadTrees(a), key).value.value == Or(a.appID, "0")
    ensures key == "name" ==> Found(HeadTrees(a), key).value.value == Or(a.name, "Game")
    ensures key == "installdir" ==> Found(HeadTrees(a), key).value.value == Or(a.installDir, Or(a.name, "Game"))
    ensures key == "buildid" ==> Found(HeadTrees(a), key).value.value == Or(a.buildID, "0")
  {
    HeadFinds(a, key);
    RootFinds(a, key);
    OnePart(MeaningOf(AppTree(a)), key);
  }

  lemma UserConfigBack(a: App)
    ensures var n := MeaningOf(AppTree(a));
      && GetString(Some(n), ["UserConfig", "language"]) == Or(a.language, "english")
      && BetaOf(n) == if PrintsBeta(a) then a.betaKey else ""
  {
    UserConfigValue(a, "language");
    UserConfigValue(a, "BetaKey");
    UserConfigValue(a, "betakey");
    UserConfigFinds(a, "language");
    UserConfigFinds(a, "BetaKey");
    UserConfigFinds(a, "betakey");
    NoTopBeta(a, "betakey");
    NoTopBeta(a, "BetaKey");
  }

  lemma {:induction false} UserConfigValue(a: App, key: string)
    ensures GetString(Some(MeaningOf(AppTree(a))), ["UserConfig", key]) == ValueIn(FindChild(MeaningOf(UserConfigTree(a)).children, key))
  {
    UserConfigFound(a);
    TwoParts(MeaningOf(AppTree(a)), "UserConfig", key);
  }

  lemma NoTopBeta(a: App, key: string)
    requires |key| == 7 && LowerChar(key[1]) == 'e'
    ensures GetString(Some(MeaningOf(AppTree(a))), [key]) == ""
  {
    DiffersAt("buildid", key, 1);
    RootMisses(a, key);
  }

  lemma UserConfigFound(a: App)
    ensures FindChild(MeaningOf(AppTree(a)).children, "UserConfig") == Some(MeaningOf(UserConfigTree(a)))
  {
    RootFinds(a, "UserConfig");
    HeadFinds(a, "UserConfig");
    DiffersAt("installdir", "UserConfig", 0);
    DiffersAt("StateFlags", "UserConfig", 0);
  }

  lemma NumbersLost(env: Env, a: App)
    requires env.toInt("") == 0
    ensures var n := MeaningOf(AppTree(a));
      IntOf(env, n, "LastUpdated", "lastupdated") == 0 && IntOf(env, n, "SizeOnDisk", "sizeondisk") == 0
  {
    RootMisses(a, "LastUpdated");
    RootMisses(a, "lastupdated");
    NoSize(a, "SizeOnDisk");
    NoSize(a, "sizeondisk");
  }

  lemma NoSize(a: App, key: string)
    requires |key| == 10 && LowerChar(key[0]) == 's' && LowerChar(key[1]) == 'i'
    ensures GetString(Some(MeaningOf(AppTree(a))), [key]) == ""
  {
    DiffersAt("installdir", key, 0);
    DiffersAt("StateFlags", key, 1);
    DiffersAt("UserConfig", key, 0);
    RootMisses(a, key);
  }

  lemma {:induction false} LaunchBack(env: Env, a: App)
    ensures LaunchOf(env, MeaningOf(AppTree(a))) == PrintedOptions(env, a.launch)
  {
    RootFinds(a, "config");
    HeadFinds(a, "config");
    ConfigFinds(a, "config");
    if a.launch != [] {
      var launch := Section("launch", OptionTrees(a.launch));
      FoundOne(launch, "launch");
      OptionsBack(env, a.launch);
    }
  }

  /** Reading the printed tree gives the data back. */
  lemma TreeBack(env: Env, a: App)
    requires env.toInt("") == 0
    ensures AppOf(env, MeaningOf(AppTree(a))) == Some(ReadBack(env, a))
  {
    HeadBack(a);
    UserConfigBack(a);
    NumbersLost(env, a);
    LaunchBack(env, a);
  }

  // ---- Text ----

  lemma {:induction false} DigitsAreSafe(n: nat)
    ensures Safe(Decimal(n)) && Decimal(n) != "}"
  {
    var s := Decimal(n);
    assert forall i :: 0 <= i < |s| ==> '0' <= s[i] <= '9';
  }

  predicate Fine(t: Tree)
  {
    SafeTree(t) && Parsable(t)
  }

  predicate AllFine(ts: seq<Tree>)
  {
    forall t :: t in ts ==> Fine(t)
  }

  lemma PlainKey(key: string)
    requires forall i :: 0 <= i < |key| ==> key[i] != '"' && key[i] != '\\' && key[i] != '\n' && key[i] != '}'
    ensures Safe(key) && key != "}"
  {
    var first := if key == "" then ' ' else key[0];
    assert first != '}';
  }

  lemma {:induction false} FineLeaf(key: string, value: string)
    requires Safe(key) && key != "}" && Field(value)
    ensures AllFine([Leaf(key, value)]) && AllFine(OptionalLeaf(key, value))
  {
    assert Fine(Leaf(key, value));
  }

  lemma {:induction false} FineSection(key: string, children: seq<Tree>)
    requires Safe(key) && key != "}" && AllFine(children)
    ensures AllFine([Section(key, children)])
  {
    forall c | c in children ensures SafeTree(c) && Parsable(c) {
      assert Fine(c);
    }
    assert Fine(Section(key, children));
  }

  lemma FineOption(i: nat, c: Candidate)
    requires Field(c.executable) && Field(c.arguments) && Field(c.description)
    ensures AllFine([OptionTree(i, c)])
  {
    PlainKey("executable");
    PlainKey("arguments");
    PlainKey("description");
    FineLeaf("executable", c.executable);
    FineLeaf("arguments", c.arguments);
    FineLeaf("description", c.description);
    DigitsAreSafe(i);
    FineSection(Decimal(i), OptionTree(i, c).children);
  }

  lemma {:induction false} FineOptions(launch: seq<Candidate>)
    requires forall c :: c in launch ==> Field(c.executable) && Field(c.arguments) && Field(c.description)
    ensures AllFine(OptionTrees(launch))
  {
    if launch != [] {
      var n := |launch| - 1;
      assert launch == launch[..n] + [launch[n]];
      FineOptions(launch[..n]);
      FineOption(n, launch[n]);
    }
  }

  lemma FineHead(a: App)
    requires Printable(a)
    ensures AllFine(HeadTrees(a))
  {
    PlainKey("appid");
    PlainKey("name");
    PlainKey("installdir");
    PlainKey("StateFlags");
    PlainKey("buildid");
    PlainKey("0");
    PlainKey("4");
    PlainKey("Game");
    FineLeaf("appid", Or(a.appID, "0"));
    FineLeaf("name", Or(a.name, "Game"));
    FineLeaf("installdir", Or(a.installDir, Or(a.name, "Game")));
    FineLeaf("StateFlags", "4");
    FineLeaf("buildid", Or(a.buildID, "0"));
    FiveFine(HeadTrees(a));
  }

  lemma {:induction false} FiveFine(ts: seq<Tree>)
    requires |ts| == 5 && AllFine([ts[0]]) && AllFine([ts[1]]) && AllFine([ts[2]]) && AllFine([ts[3]]) && AllFine([ts[4]])
    ensures AllFine(ts)
  {
    forall i | 0 <= i < 5 ensures Fine(ts[i]) {
      assert ts[0] in [ts[0]] && ts[1] in [ts[1]] && ts[2] in [ts[2]] && ts[3] in [ts[3]] && ts[4] in [ts[4]];
    }
  }

  lemma FineUserConfig(a: App)
    requires Printable(a)
    ensures AllFine([UserConfigTree(a)])
  {
    PlainKey("language");
    PlainKey("BetaKey");
    PlainKey("UserConfig");
    PlainKey("english");
    FineLeaf("language", Or(a.language, "english"));
    FineLeaf("BetaKey", a.betaKey);
    FineSection("UserConfig", UserConfigTree(a).children);
  }

  lemma FineConfig(a: App)
    requires Printable(a)
    ensures AllFine(ConfigTrees(a))
  {
    PlainKey("config");
    PlainKey("launch");
    FineOptions(a.launch);
    FineSection("launch", OptionTrees(a.launch));
    FineSection("config", [Section("launch", OptionTrees(a.launch))]);
  }

  lemma AppTreePrintable(a: App)
    requires Printable(a)
    ensures SafeTree(AppTree(a)) && Parsable(AppTree(a))
  {
    PlainKey("AppState");
    FineHead(a);
    FineUserConfig(a);
    FineConfig(a);
    FineSection("AppState", HeadTrees(a) + [UserConfigTree(a)] + ConfigTrees(a));
    assert Fine(AppTree(a)) by {
      assert AppTree(a) in [AppTree(a)];
    }
  }

  /** Parsing the generated text gives every printable field back. */
  lemma ManifestRoundTrip(env: Env, a: App)
    requires Printable(a) && env.toInt("") == 0
    ensures AppOf(env, RootOf(ParseTop(TokensOf(Joined(TreeLines(AppTree(a), 0))), 0, []))) == Some(ReadBack(env, a))
  {
    AppTreePrintable(a);
    TextRoundTrip(AppTree(a));
    TreeBack(env, a);
  }

  /** Options with a clean executable all come back, in order, with the same executable, arguments and description. */
  lemma {:induction false} OptionsSurvive(env: Env, launch: seq<Candidate>)
    requires forall c :: c in launch ==> c.executable != "" && env.clean(c.executable) == c.executable
    ensures |PrintedOptions(env, launch)| == |launch|
    ensures forall i :: 0 <= i < |launch| ==>
              var r := PrintedOptions(env, launch)[i];
              r.executable == launch[i].executable && r.arguments == launch[i].arguments && r.description == launch[i].description
  {
    if launch != [] {
      var n := |launch| - 1;
      assert launch == launch[..n] + [launch[n]];
      OptionsSurvive(env, launch[..n]);
    }
  }
}
