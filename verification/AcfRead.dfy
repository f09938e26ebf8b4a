/** Reading app manifests that the launcher did not write: every field comes from the key it is named after. */
module AcfRead {
  import opened Text
  import opened TextLines
  import opened Vdf
  import opened VdfText
  import opened Acf
  import opened AcfRoundTrip

  // ---- Values in a tree ----

  /** Position of the first child with this key in any casing, or the number of children. */
  function FirstOf(ts: seq<Tree>, key: string): (i: nat)
    ensures i <= |ts| && (i < |ts| ==> EqualFold(ts[i].key, key)) && forall j :: 0 <= j < i ==> !EqualFold(ts[j].key, key)
  {
    if ts == [] || EqualFold(ts[0].key, key) then 0 else 1 + FirstOf(ts[1..], key)
  }

  /** The value of the first child with this key; a section and a missing child have none. */
  function ValueAt(ts: seq<Tree>, key: string): string
  {
    var i := FirstOf(ts, key);
    if i < |ts| && ts[i].Leaf? then ts[i].value else ""
  }

  /** The children of the first child with this key. */
  function Below(ts: seq<Tree>, key: string): seq<Tree>
  {
    var i := FirstOf(ts, key);
    if i < |ts| && ts[i].Section? then ts[i].children else []
  }

  lemma {:induction false} FoundFirst(ts: seq<Tree>, key: string)
    ensures var i := FirstOf(ts, key); FindChild(MeaningsOf(ts), key) == if i < |ts| then Some(MeaningOf(ts[i])) else None
  {
    if ts != [] {
      FoundFirst(ts[1..], key);
      assert MeaningsOf(ts)[1..] == MeaningsOf(ts[1..]);
    }
  }

  lemma {:induction false} OneDeep(name: string, ts: seq<Tree>, key: string)
    ensures GetString(Some(MeaningOf(Section(name, ts))), [key]) == ValueAt(ts, key)
  {
    OnePart(MeaningOf(Section(name, ts)), key);
    FoundFirst(ts, key);
  }

  lemma {:induction false} TwoDeep(name: string, ts: seq<Tree>, a: string, b: string)
    requires !EqualFold(name, a)
    ensures GetString(Some(MeaningOf(Section(name, ts))), [a, b]) == ValueAt(Below(ts, a), b)
  {
    TwoParts(MeaningOf(Section(name, ts)), a, b);
    FoundFirst(ts, a);
    FoundFirst(Below(ts, a), b);
  }

  // ---- The fields ----

  /** What reading a printed manifest gives. */
  function ReadApp(env: Env, ts: seq<Tree>): Option<App>
  {
    AppOf(env, RootOf(ParseTop(TokensOf(Joined(TreeLines(Section("AppState", ts), 0))), 0, [])))
  }

  lemma {:induction false} ReadsTree(env: Env, ts: seq<Tree>)
    requires AllFine(ts)
    ensures ReadApp(env, ts) == AppOf(env, MeaningOf(Section("AppState", ts)))
  {
    PlainKey("AppState");
    FineSection("AppState", ts);
    assert Section("AppState", ts) in [Section("AppState", ts)];
    assert Fine(Section("AppState", ts));
    TextRoundTrip(Section("AppState", ts));
  }

  lemma {:induction false} SameCasing(ts: seq<Tree>, a: string, b: string)
    requires EqualFold(a, b)
    ensures FirstOf(ts, a) == FirstOf(ts, b) && ValueAt(ts, a) == ValueAt(ts, b)
  {
    var i, j := FirstOf(ts, a), FirstOf(ts, b);
  }

  lemma {:induction false} NumberRead(env: Env, ts: seq<Tree>, a: string, b: string)
    requires EqualFold(a, b)
    ensures IntOf(env, MeaningOf(Section("AppState", ts)), a, b) == env.toInt(ValueAt(ts, a))
  {
    OneDeep("AppState", ts, a);
    OneDeep("AppState", ts, b);
    SameCasing(ts, a, b);
  }

  lemma {:induction false} BetaRead(ts: seq<Tree>)
    ensures BetaOf(MeaningOf(Section("AppState", ts))) == Or(ValueAt(Below(ts, "UserConfig"), "BetaKey"), ValueAt(ts, "betakey"))
  {
    DiffersAt("AppState", "UserConfig", 0);
    TwoDeep("AppState", ts, "UserConfig", "BetaKey");
    TwoDeep("AppState", ts, "UserConfig", "betakey");
    OneDeep("AppState", ts, "betakey");
    OneDeep("AppState", ts, "BetaKey");
    CasingsOf();
    SameCasing(Below(ts, "UserConfig"), "BetaKey", "betakey");
    SameCasing(ts, "BetaKey", "betakey");
  }

  lemma {:induction false} CasingsOf()
    ensures EqualFold("BetaKey", "betakey") && EqualFold("LastUpdated", "lastupdated") && EqualFold("SizeOnDisk", "sizeondisk")
  {
    assert ToLower("BetaKey") == "betakey" == ToLower("betakey");
    assert ToLower("LastUpdated") == "lastupdated" == ToLower("lastupdated");
    assert ToLower("SizeOnDisk") == "sizeondisk" == ToLower("sizeondisk");
  }

  /** For every printed manifest, whoever wrote it: there is none only without id and name, and each field has the value of the
      first key of its name in any casing; the language and the beta key are looked for in the user's settings first. */
  lemma {:induction false} FieldsRead(env: Env, ts: seq<Tree>)
    requires AllFine(ts)
    ensures ReadApp(env, ts).None? <==> ValueAt(ts, "appid") == "" && ValueAt(ts, "name") == ""
    ensures ReadApp(env, ts).Some? ==>
              var r := ReadApp(env, ts).value;
              && r.appID == ValueAt(ts, "appid") && r.name == ValueAt(ts, "name")
              && r.installDir == ValueAt(ts, "installdir") && r.buildID == ValueAt(ts, "buildid")
              && r.lastUpdated == env.toInt(ValueAt(ts, "LastUpdated")) && r.sizeOnDisk == env.toInt(ValueAt(ts, "SizeOnDisk"))
              && r.language == Or(ValueAt(Below(ts, "UserConfig"), "language"), ValueAt(ts, "language"))
              && r.betaKey == Or(ValueAt(Below(ts, "UserConfig"), "BetaKey"), ValueAt(ts, "betakey"))
  {
    ReadsTree(env, ts);
    OneDeep("AppState", ts, "appid");
    OneDeep("AppState", ts, "name");
    OneDeep("AppState", ts, "installdir");
    OneDeep("AppState", ts, "buildid");
    CasingsOf();
    NumberRead(env, ts, "LastUpdated", "lastupdated");
    NumberRead(env, ts, "SizeOnDisk", "sizeondisk");
    DiffersAt("AppState", "UserConfig", 0);
    TwoDeep("AppState", ts, "UserConfig", "language");
    OneDeep("AppState", ts, "language");
    BetaRead(ts);
  }

  // ---- Launch options ----

  /** The option read from one section after `soFar` others: none without an executable; otherwise its own values, with the
      English description where there is no other. */
  lemma {:induction false} OptionRead(env: Env, soFar: seq<Candidate>, name: string, ts: seq<Tree>)
    requires !EqualFold(name, "description_loc")
    ensures var r := WithOption(env, soFar, MeaningOf(Section(name, ts)));
      if ValueAt(ts, "executable") == "" || env.clean(ValueAt(ts, "executable")) == "" then r == soFar else
        && |r| == |soFar| + 1 && r[..|soFar|] == soFar
        && r[|soFar|].executable == env.clean(ValueAt(ts, "executable")) && r[|soFar|].arguments == ValueAt(ts, "arguments")
        && r[|soFar|].description == Or(ValueAt(ts, "description"), ValueAt(Below(ts, "description_loc"), "english"))
        && r[|soFar|].name == OptionName(env, |soFar|, r[|soFar|].executable, r[|soFar|].description, ValueAt(ts, "type"))
  {
    OneDeep(name, ts, "executable");
    OneDeep(name, ts, "arguments");
    OneDeep(name, ts, "description");
    OneDeep(name, ts, "type");
    TwoDeep(name, ts, "description_loc", "english");
  }

  /** Every option is called "Play" something: what describes it where it is described, its file where it is not, and nothing
      more for the default one and the first. */
  lemma {:induction false} OptionNamed(env: Env, soFar: nat, exe: string, description: string, kind: string)
    ensures var name := OptionName(env, soFar, exe, description, kind);
      && HasPrefix(ToLower(name), "play")
      && (description != "" ==> name == "Play (" + description + ")" || (name == description && HasPrefix(ToLower(name), "play ")))
      && (description == "" ==> name == "Play" || name == "Play (" + env.stem(exe) + ")")
      && (name == "Play" <==> description == "" && (EqualFold(kind, "default") || soFar == 0))
  {
    var name := OptionName(env, soFar, exe, description, kind);
    assert ToLower("Play") == "play";
    if name != "Play" && name != description {
      assert ToLower(name)[..4] == "play";
      assert |name| > 4;
    }
    if name == description && description != "" {
      assert ToLower(name)[..5] == "play ";
      assert ToLower(name)[..4] == "play "[..4];
    }
  }

  /** The options are those of the sections under config and launch, in order. */
  lemma {:induction false} OptionsRead(env: Env, ts: seq<Tree>)
    requires AllFine(ts)
    ensures ReadApp(env, ts).Some? ==> ReadApp(env, ts).value.launch == OptionsOf(env, MeaningsOf(Below(Below(ts, "config"), "launch")))
  {
    ReadsTree(env, ts);
    FoundFirst(ts, "config");
    FoundFirst(Below(ts, "config"), "launch");
  }
}
