/** Which lookups survive writing a document and loading it again, for any document that editing can make. */
module IniReload {
  import opened Text
  import opened TextLines
  import opened IniLine
  import opened IniDocument
  import opened IniEdit

  /** Different names and good parts; the default section may be anywhere, or missing. */
  predicate Editable(doc: seq<Part>)
  {
    DistinctNames(doc) && forall p :: p in doc ==> GoodPart(p)
  }

  predicate NoPairs(elems: seq<Element>)
  {
    forall e :: e in elems ==> !e.Pair?
  }

  /** No default section with a pair stands behind another section. */
  predicate DefaultInPlace(doc: seq<Part>)
  {
    forall i :: 0 < i < |doc| && doc[i].name == "" ==> NoPairs(doc[i].elems)
  }

  // ---- What printing does not show ----

  predicate PrintAlike(a: seq<Part>, b: seq<Part>)
  {
    Written(a) == Written(b)
  }

  lemma {:induction false} AlikeNext(a: seq<Part>, b: seq<Part>, p: Part)
    requires PrintAlike(a, b)
    ensures PrintAlike(a + [p], b + [p])
  {
    WrittenOpened(a, p);
    WrittenOpened(b, p);
  }

  lemma {:induction false} AlikeBefore(a: seq<Part>, b: seq<Part>, rest: seq<Part>)
    requires PrintAlike(a, b)
    ensures PrintAlike(a + rest, b + rest)
    decreases |rest|
  {
    if rest == [] {
      assert a + rest == a && b + rest == b;
    } else {
      AlikeNext(a, b, rest[0]);
      AlikeBefore(a + [rest[0]], b + [rest[0]], rest[1..]);
      FirstMoved(a, rest);
      FirstMoved(b, rest);
    }
  }

  lemma FirstMoved(a: seq<Part>, rest: seq<Part>)
    requires rest != []
    ensures a + [rest[0]] + rest[1..] == a + rest
  {
  }

  lemma OpenedDefault(before: seq<string>)
    ensures Opened(before, "") == before
  {
  }

  /** A default section behind another section is printed as part of that one. */
  lemma {:induction false} MisplacedDefault(front: seq<Part>, p: Part, elems: seq<Element>, rest: seq<Part>)
    ensures Printed(front + [p] + [Part("", elems)] + rest) == Printed(front + [Part(p.name, p.elems + elems)] + rest)
  {
    var open, q := Opened(Written(front), p.name), Part(p.name, p.elems + elems);
    WrittenOpened(front + [p], Part("", elems));
    WrittenOpened(front, p);
    WrittenOpened(front, q);
    ElementLinesSum(p.elems, elems);
    OpenedDefault(Written(front + [p]));
    Regrouped(open, ElementLines(p.elems), ElementLines(elems));
    AlikeBefore(front + [p] + [Part("", elems)], front + [q], rest);
  }

  /** An empty default section in front is not printed. */
  lemma {:induction false} EmptyDefaultInFront(doc: seq<Part>)
    ensures Printed([Part("", [])] + doc) == Printed(doc)
  {
    FirstPart(Part("", []));
    AlikeBefore([Part("", [])], [], doc);
    assert [] + doc == doc;
  }

  // ---- Lookups by part ----

  lemma LookupAt(doc: seq<Part>, i: nat, section: string, key: string)
    requires DistinctNames(doc) && i < |doc| && ToLower(doc[i].name) == ToLower(Trim(section))
    ensures Lookup(doc, section, key) == ValueOf(doc[i].elems, ToLower(Trim(key)))
  {
    assert FindPart(doc, ToLower(Trim(section))) == i;
  }

  lemma LookupNowhere(doc: seq<Part>, section: string, key: string)
    requires forall i :: 0 <= i < |doc| ==> ToLower(doc[i].name) != ToLower(Trim(section))
    ensures Lookup(doc, section, key) == None
  {
  }

  lemma ValueAmong(elems: seq<Element>, more: seq<Element>, k: string)
    requires NoPairs(more)
    ensures ValueOf(elems + more, k) == ValueOf(elems, k)
  {
    var i, j := FindKey(elems, k), FindKey(elems + more, k);
    assert forall x :: |elems| <= x < |elems + more| ==> (elems + more)[x] in more;
    if i < |elems| {
      assert (elems + more)[i] == elems[i];
    }
  }

  // ---- Lookups survive ----

  lemma {:induction false} GoodBehindDefault(doc: seq<Part>)
    requires Editable(doc) && forall i :: 0 <= i < |doc| ==> doc[i].name != ""
    ensures Good([Part("", [])] + doc)
  {
    var all := [Part("", [])] + doc;
    assert forall i :: 0 < i < |all| ==> all[i] == doc[i - 1];
    assert CanonicalName("") && GoodPart(Part("", []));
  }

  /** Without a default section. */
  lemma {:induction false} NoDefaultSurvives(doc: seq<Part>, section: string, key: string)
    requires Editable(doc) && forall i :: 0 <= i < |doc| ==> doc[i].name != ""
    ensures Lookup(LoadText(Printed(doc)), section, key) == Lookup(doc, section, key)
  {
    var all := [Part("", [])] + doc;
    GoodBehindDefault(doc);
    EmptyDefaultInFront(doc);
    LookupsSurvive(all, section, key);
    var i := FindPart(doc, ToLower(Trim(section)));
    if i < |doc| {
      assert all[i + 1] == doc[i];
      LookupAt(all, i + 1, section, key);
    } else if ToLower(Trim(section)) == "" {
      LookupAt(all, 0, section, key);
    } else {
      LookupNowhere(all, section, key);
    }
  }

  /** The default section has no pairs: it can be taken as part of the section before. */
  lemma {:induction false} EmptyDefaultSurvives(front: seq<Part>, p: Part, elems: seq<Element>, rest: seq<Part>, section: string, key: string)
    requires Editable(front + [p] + [Part("", elems)] + rest) && NoPairs(elems)
    ensures Lookup(LoadText(Printed(front + [p] + [Part("", elems)] + rest)), section, key)
            == Lookup(front + [p] + [Part("", elems)] + rest, section, key)
  {
    var doc, joined := front + [p] + [Part("", elems)] + rest, front + [Part(p.name, p.elems + elems)] + rest;
    MisplacedDefault(front, p, elems, rest);
    JoinedIsEditable(front, p, elems, rest);
    NoDefaultSurvives(joined, section, key);
    JoinedLookups(front, p, elems, rest, section, key);
  }

  lemma {:induction false} JoinedIsEditable(front: seq<Part>, p: Part, elems: seq<Element>, rest: seq<Part>)
    requires Editable(front + [p] + [Part("", elems)] + rest) && NoPairs(elems)
    ensures var joined := front + [Part(p.name, p.elems + elems)] + rest;
      Editable(joined) && forall i :: 0 <= i < |joined| ==> joined[i].name != ""
  {
    var doc, joined := front + [p] + [Part("", elems)] + rest, front + [Part(p.name, p.elems + elems)] + rest;
    var n := |front|;
    assert doc[n] == p && doc[n + 1] == Part("", elems) && p in doc && Part("", elems) in doc;
    assert joined[n] == Part(p.name, p.elems + elems);
    assert forall i :: 0 <= i < |joined| && i != n ==> joined[i] == doc[if i < n then i else i + 1];
    forall i | 0 <= i < |joined| ensures GoodPart(joined[i]) && joined[i].name != "" {
      if i == n {
        GoodTogether(p.elems, elems);
        assert ToLower(doc[n].name) != ToLower(doc[n + 1].name);
      } else {
        var j := if i < n then i else i + 1;
        assert doc[j] in doc;
        assert ToLower(doc[j].name) != ToLower(doc[n + 1].name);
      }
    }
  }

  lemma GoodTogether(elems: seq<Element>, more: seq<Element>)
    requires GoodElements(elems) && GoodElements(more) && NoPairs(more)
    ensures GoodElements(elems + more)
  {
    assert forall i :: |elems| <= i < |elems + more| ==> (elems + more)[i] in more;
  }

  lemma {:induction false} JoinedLookups(front: seq<Part>, p: Part, elems: seq<Element>, rest: seq<Part>, section: string, key: string)
    requires Editable(front + [p] + [Part("", elems)] + rest) && NoPairs(elems)
    ensures Lookup(front + [Part(p.name, p.elems + elems)] + rest, section, key)
            == Lookup(front + [p] + [Part("", elems)] + rest, section, key)
  {
    var doc, joined := front + [p] + [Part("", elems)] + rest, front + [Part(p.name, p.elems + elems)] + rest;
    var n := |front|;
    var name := ToLower(Trim(section));
    JoinedIsEditable(front, p, elems, rest);
    assert doc[n] == p && doc[n + 1] == Part("", elems) && joined[n] == Part(p.name, p.elems + elems);
    assert forall i :: 0 <= i < |joined| && i != n ==> joined[i] == doc[if i < n then i else i + 1];
    var i := FindPart(doc, name);
    if i == |doc| {
      LookupNowhere(joined, section, key);
    } else if i == n {
      LookupAt(joined, n, section, key);
      ValueAmong(p.elems, elems, ToLower(Trim(key)));
    } else if i == n + 1 {
      LookupNowhere(joined, section, key);
      ValueAmong([], elems, ToLower(Trim(key)));
      assert [] + elems == elems;
    } else {
      var j := if i < n then i else i - 1;
      assert joined[j] == doc[i];
      LookupAt(joined, j, section, key);
    }
  }

  /** A default section in place, or none: every lookup survives. */
  lemma {:induction false} InPlaceSurvives(doc: seq<Part>, section: string, key: string)
    requires Editable(doc) && DefaultInPlace(doc)
    ensures Lookup(LoadText(Printed(doc)), section, key) == Lookup(doc, section, key)
  {
    var i := FindPart(doc, "");
    if i == |doc| {
      NoDefaultSurvives(doc, section, key);
    } else if i == 0 {
      LookupsSurvive(doc, section, key);
    } else {
      var front, p, elems, rest := doc[..i - 1], doc[i - 1], doc[i].elems, doc[i + 1..];
      assert doc == front + [p] + [Part("", elems)] + rest;
      EmptyDefaultSurvives(front, p, elems, rest, section, key);
    }
  }

  // ---- Lookups that are lost ----

  /** No header of the default section. */
  predicate NamesSection(line: string)
  {
    ParseLine(line).Header? ==> ParseLine(line).name != ""
  }

  predicate AllName(lines: seq<string>)
  {
    forall l :: l in lines ==> NamesSection(l)
  }

  /** Loading is past the default section, which is empty. */
  predicate PastDefault(s: Loading)
  {
    0 < s.cur < |s.doc| && s.doc[0] == Part("", [])
  }

  lemma {:induction false} StaysPast(s: Loading, lines: seq<string>)
    requires PastDefault(s) && AllName(lines)
    ensures PastDefault(LoadFrom(s, lines))
  {
    if lines != [] {
      var n := |lines| - 1;
      assert forall l :: l in lines[..n] ==> l in lines;
      StaysPast(s, lines[..n]);
      assert NamesSection(lines[n]);
    }
  }

  lemma {:induction false} ElementsName(elems: seq<Element>)
    requires forall e :: e in elems ==> Canonical(e)
    ensures AllName(DropCRs(ElementLines(elems)))
  {
    if elems != [] {
      var n := |elems| - 1;
      assert elems == elems[..n] + [elems[n]];
      ElementsName(elems[..n]);
      DroppedMore(elems[..n], elems[n]);
      Reparsed(elems[n]);
    }
  }

  lemma {:induction false} OpeningNames(before: seq<string>, name: string)
    requires CanonicalName(name)
    ensures AllName(DropCRs(Opening(before, name)))
  {
    OpeningDropped(before, name);
    ReparsedHeader(name);
    assert DropCR(HeaderLine(name)) == HeaderLine(name);
    TrimOfTrimmed("");
  }

  lemma {:induction false} WrittenNames(doc: seq<Part>)
    requires forall p :: p in doc ==> GoodPart(p)
    ensures AllName(DropCRs(Written(doc)))
  {
    if doc != [] {
      var n := |doc| - 1;
      var front, p := doc[..n], doc[n];
      assert doc == front + [p] && p in doc;
      WrittenNames(front);
      WrittenStep(front, p);
      OpeningNames(Written(front), p.name);
      ElementsName(p.elems);
      DropCRsSum(Opening(Written(front), p.name), ElementLines(p.elems));
      DropCRsSum(Written(front), Opening(Written(front), p.name) + ElementLines(p.elems));
    }
  }

  predicate Starts(lines: seq<string>, first: string)
  {
    lines != [] && lines[0] == first
  }

  lemma {:induction false} StartsMore(front: seq<Part>, p: Part, first: string)
    requires Starts(Written(front), first)
    ensures Starts(Written(front + [p]), first)
  {
    WrittenStep(front, p);
  }

  lemma {:induction false} StartsAlone(p: Part)
    requires p.name != ""
    ensures Starts(Written([p]), HeaderLine(p.name))
  {
    WrittenStep([], p);
    assert [] + [p] == [p];
  }

  lemma {:induction false} StartsWithHeader(doc: seq<Part>)
    requires doc != [] && doc[0].name != ""
    ensures Starts(Written(doc), HeaderLine(doc[0].name))
  {
    var n := |doc| - 1;
    if n > 0 {
      StartsWithHeader(doc[..n]);
      StartsMore(doc[..n], doc[n], HeaderLine(doc[0].name));
      assert doc == doc[..n] + [doc[n]];
    } else {
      StartsAlone(doc[0]);
      assert doc == [doc[0]];
    }
  }

  /** If the document starts with a named section, the default section is empty after loading. */
  lemma {:induction false} DefaultLost(doc: seq<Part>, section: string, key: string)
    requires Editable(doc) && doc != [] && doc[0].name != "" && ToLower(Trim(section)) == ""
    ensures Lookup(LoadText(Printed(doc)), section, key) == None
  {
    var lines := DropCRs(Written(doc));
    WrittenOneLine(doc);
    LinesOfJoined(Written(doc));
    WrittenNames(doc);
    StartsWithHeader(doc);
    var header := HeaderLine(doc[0].name);
    DropCRsSum([header], Written(doc)[1..]);
    assert Written(doc) == [header] + Written(doc)[1..];
    assert DropCR(header) == header && DropCRs([header]) == [header];
    assert doc[0] in doc;
    ReadHeader(START, doc[0].name);
    LoadInParts(START, [header], DropCRs(Written(doc)[1..]));
    StaysPast(LoadFrom(START, [header]), DropCRs(Written(doc)[1..]));
    LookupFirst(LoadText(Printed(doc)), section, key);
  }

  lemma LookupFirst(doc: seq<Part>, section: string, key: string)
    requires doc != [] && doc[0] == Part("", []) && ToLower(Trim(section)) == ""
    ensures Lookup(doc, section, key) == None
  {
  }

  /** Every lookup answers the same after writing and loading if and only if no default section with a pair stands behind
      another section. */
  lemma {:induction false} LookupsSurviveExactly(doc: seq<Part>)
    requires Editable(doc)
    ensures (forall section, key :: Lookup(LoadText(Printed(doc)), section, key) == Lookup(doc, section, key)) <==> DefaultInPlace(doc)
  {
    if DefaultInPlace(doc) {
      forall section, key ensures Lookup(LoadText(Printed(doc)), section, key) == Lookup(doc, section, key) {
        InPlaceSurvives(doc, section, key);
      }
    } else {
      var i :| 0 < i < |doc| && doc[i].name == "" && !NoPairs(doc[i].elems);
      MisplacedIsLost(doc, i);
    }
  }

  lemma {:induction false} MisplacedIsLost(doc: seq<Part>, i: nat)
    requires Editable(doc) && 0 < i < |doc| && doc[i].name == "" && !NoPairs(doc[i].elems)
    ensures exists key :: Lookup(doc, "", key).Some? && Lookup(LoadText(Printed(doc)), "", key) == None
  {
    var e :| e in doc[i].elems && e.Pair?;
    var j :| 0 <= j < |doc[i].elems| && doc[i].elems[j] == e;
    assert doc[i] in doc;
    TrimOfTrimmed("");
    TrimOfTrimmed(e.key);
    LookupAt(doc, i, "", e.key);
    assert HasKey(doc[i].elems[j], ToLower(e.key));
    assert ToLower(doc[0].name) != ToLower(doc[i].name);
    DefaultLost(doc, "", e.key);
  }

  // ---- How it comes up ----

  /** A new file, the default section deleted, a pair set in a named section, then one in the default section. */
  function Remade(section: string, key: string, value: string, k: string, v: string): seq<Part>
  {
    SetIn(SetIn(DeletePart(START.doc, ""), section, key, value), "", k, v)
  }

  lemma {:induction false} SetNew(doc: seq<Part>, section: string, key: string, value: string)
    requires forall i :: 0 <= i < |doc| ==> ToLower(doc[i].name) != ToLower(Trim(section))
    ensures SetIn(doc, section, key, value) == doc + [Part(Trim(section), [Pair(Trim(key), value, "=")])]
  {
    var s := GoTo(doc, Trim(section));
    assert s == Loading(doc + [Part(Trim(section), [])], |doc|);
    assert SetElement([], key, value) == [Pair(Trim(key), value, "=")];
  }

  predicate LosesDefault(doc: seq<Part>, k: string, v: string)
  {
    Editable(doc) && Lookup(doc, "", k) == Some(v) && Lookup(LoadText(Printed(doc)), "", k) == None
  }

  /** Before writing the last pair is found; after writing and loading it is gone. */
  lemma {:induction false} RemadeDefaultIsLost(section: string, key: string, value: string, k: string, v: string)
    requires Settable(section, key, value) && Trim(section) != "" && Settable("", k, v)
    ensures LosesDefault(Remade(section, key, value, k, v), k, v)
  {
    var p, q := Part(Trim(section), [Pair(Trim(key), value, "=")]), Part("", [Pair(Trim(k), v, "=")]);
    RemadeIs(section, key, value, k, v);
    PairIsGood(section, key, value);
    PairIsGood("", k, v);
    TrimOfTrimmed("");
    TwoParts(p, q);
    SecondIsLost(p, q, k, v);
  }

  lemma {:induction false} SecondIsLost(p: Part, q: Part, k: string, v: string)
    requires Editable([p, q]) && p.name != "" && q.name == "" && ValueOf(q.elems, ToLower(Trim(k))) == Some(v)
    ensures LosesDefault([p, q], k, v)
  {
    TrimOfTrimmed("");
    assert ToLower(q.name) == ToLower(Trim(""));
    LookupAt([p, q], 1, "", k);
    DefaultLost([p, q], "", k);
  }

  lemma RemadeIs(section: string, key: string, value: string, k: string, v: string)
    requires Trim(section) != ""
    ensures Remade(section, key, value, k, v) ==
              [Part(Trim(section), [Pair(Trim(key), value, "=")]), Part("", [Pair(Trim(k), v, "=")])]
  {
    var p := Part(Trim(section), [Pair(Trim(key), value, "=")]);
    TrimOfTrimmed("");
    assert DeletePart(START.doc, "") == [];
    SetNew([], section, key, value);
    assert [] + [p] == [p];
    SetNew([p], "", k, v);
  }

  lemma PairIsGood(section: string, key: string, value: string)
    requires Settable(section, key, value)
    ensures GoodPart(Part(Trim(section), [Pair(Trim(key), value, "=")]))
  {
    var a, b := TrimSplit(section);
  }

  lemma TwoParts(p: Part, q: Part)
    requires GoodPart(p) && GoodPart(q) && p.name != "" && q.name == ""
    ensures Editable([p, q])
  {
  }
}
