/** INI documents as values: what loading builds, what writing prints, and the print/parse fixpoint. */
module IniDocument {
  import opened Text
  import opened TextLines
  import opened IniLine

  // ---- Documents ----

  datatype Part = Part(name: string, elems: seq<Element>)

  predicate HasKey(e: Element, k: string)
  {
    e.Pair? && ToLower(e.key) == k
  }

  /** Position of the first pair with lower-case key k, or the length. */
  function FindKey(elems: seq<Element>, k: string): (i: nat)
    ensures i <= |elems| && (i < |elems| ==> HasKey(elems[i], k)) && forall j :: 0 <= j < i ==> !HasKey(elems[j], k)
  {
    if elems == [] || HasKey(elems[0], k) then 0 else 1 + FindKey(elems[1..], k)
  }

  /** Position of the first part with lower-case name k, or the length. */
  function FindPart(doc: seq<Part>, k: string): (i: nat)
    ensures i <= |doc| && (i < |doc| ==> ToLower(doc[i].name) == k) && forall j :: 0 <= j < i ==> ToLower(doc[j].name) != k
  {
    if doc == [] || ToLower(doc[0].name) == k then 0 else 1 + FindPart(doc[1..], k)
  }

  /** No two pairs have keys that differ in case only. */
  predicate DistinctKeys(elems: seq<Element>)
  {
    forall i, j :: 0 <= i < j < |elems| && elems[i].Pair? && elems[j].Pair? ==> ToLower(elems[i].key) != ToLower(elems[j].key)
  }

  predicate DistinctNames(doc: seq<Part>)
  {
    forall i, j :: 0 <= i < j < |doc| ==> ToLower(doc[i].name) != ToLower(doc[j].name)
  }

  // ---- Loading ----

  /** A document being loaded and the section lines go to. */
  datatype Loading = Loading(doc: seq<Part>, cur: nat)

  const START := Loading([Part("", [])], 0)

  /** A repeated key replaces the earlier pair where it stands; anything else goes to the end. */
  function Put(elems: seq<Element>, e: Element): seq<Element>
  {
    var i := if e.Pair? then FindKey(elems, ToLower(e.key)) else |elems|;
    if i < |elems| then elems[i := e] else elems + [e]
  }

  /** Go to the section with this name, appending it if there is none. */
  function GoTo(doc: seq<Part>, name: string): (r: Loading)
    ensures r.cur < |r.doc|
  {
    var i := FindPart(doc, ToLower(name));
    if i < |doc| then Loading(doc, i) else Loading(doc + [Part(name, [])], |doc|)
  }

  function Step(s: Loading, line: string): Loading
    requires s.cur < |s.doc|
  {
    match ParseLine(line)
    case Header(name) => GoTo(s.doc, name)
    case Item(e) =>
      var p := s.doc[s.cur];
      Loading(s.doc[s.cur := Part(p.name, Put(p.elems, e))], s.cur)
  }

  function LoadFrom(s: Loading, lines: seq<string>): (r: Loading)
    requires s.cur < |s.doc|
    ensures r.cur < |r.doc|
  {
    if lines == [] then s else Step(LoadFrom(s, lines[..|lines| - 1]), lines[|lines| - 1])
  }

  function LoadText(t: string): seq<Part>
  {
    LoadFrom(START, Lines(t)).doc
  }

  lemma {:induction false} LoadInParts(s: Loading, a: seq<string>, b: seq<string>)
    requires s.cur < |s.doc|
    ensures LoadFrom(s, a + b) == LoadFrom(LoadFrom(s, a), b)
  {
    if b == [] {
      assert a + b == a;
    } else {
      assert (a + b)[..|a + b| - 1] == a + b[..|b| - 1];
      LoadInParts(s, a, b[..|b| - 1]);
    }
  }

  predicate GoodElements(elems: seq<Element>)
  {
    DistinctKeys(elems) && forall e :: e in elems ==> Canonical(e)
  }

  predicate GoodPart(p: Part)
  {
    CanonicalName(p.name) && GoodElements(p.elems)
  }

  /** A document some text loads to. */
  predicate Good(doc: seq<Part>)
  {
    doc != [] && doc[0].name == "" && DistinctNames(doc) && forall p :: p in doc ==> GoodPart(p)
  }

  lemma PutIsGood(elems: seq<Element>, e: Element)
    requires GoodElements(elems) && Canonical(e)
    ensures GoodElements(Put(elems, e))
  {
  }

  lemma StepIsGood(s: Loading, line: string)
    requires s.cur < |s.doc| && Good(s.doc) && OneLine(line)
    ensures Good(Step(s, line).doc)
  {
    ParsedIsCanonical(line);
    if ParseLine(line).Item? {
      assert s.doc[s.cur] in s.doc;
      PutIsGood(s.doc[s.cur].elems, ParseLine(line).e);
    }
  }

  lemma {:induction false} LoadedIsGood(lines: seq<string>)
    requires forall l :: l in lines ==> OneLine(l)
    ensures Good(LoadFrom(START, lines).doc)
  {
    if lines == [] {
      assert CanonicalName("");
    } else {
      LoadedIsGood(lines[..|lines| - 1]);
      StepIsGood(LoadFrom(START, lines[..|lines| - 1]), lines[|lines| - 1]);
    }
  }

  // ---- Writing ----

  function ElementLines(elems: seq<Element>): (r: seq<string>)
    ensures |r| == |elems|
  {
    if elems == [] then [] else ElementLines(elems[..|elems| - 1]) + [ElementLine(elems[|elems| - 1])]
  }

  function HeaderLine(name: string): string
  {
    "[" + name + "]"
  }

  /** Something was written and it does not end in an empty line. */
  predicate NeedsGap(lines: seq<string>)
  {
    lines != [] && lines[|lines| - 1] != ""
  }

  /** A header line, after an empty line unless there is one already; the default section has none. */
  function Opening(before: seq<string>, name: string): seq<string>
  {
    if name == "" then [] else (if NeedsGap(before) then [""] else []) + [HeaderLine(name)]
  }

  function Written(doc: seq<Part>): seq<string>
  {
    if doc == [] then [] else
      var before := Written(doc[..|doc| - 1]);
      var p := doc[|doc| - 1];
      before + Opening(before, p.name) + ElementLines(p.elems)
  }

  lemma {:induction false} ElementLinesStep(elems: seq<Element>, e: Element)
    ensures ElementLines(elems + [e]) == ElementLines(elems) + [ElementLine(e)]
  {
    assert (elems + [e])[..|elems|] == elems;
  }

  lemma {:induction false} WrittenStep(front: seq<Part>, p: Part)
    ensures Written(front + [p]) == Written(front) + (Opening(Written(front), p.name) + ElementLines(p.elems))
  {
    assert (front + [p])[..|front|] == front;
  }

  function Opened(before: seq<string>, name: string): seq<string>
  {
    before + Opening(before, name)
  }

  lemma {:induction false} WrittenOpened(front: seq<Part>, p: Part)
    ensures Written(front + [p]) == Opened(Written(front), p.name) + ElementLines(p.elems)
  {
    assert (front + [p])[..|front|] == front;
  }

  lemma {:induction false} FirstPart(p: Part)
    requires p.name == ""
    ensures Written([p]) == ElementLines(p.elems)
  {
    WrittenOpened([], p);
    assert [] + [p] == [p];
  }

  function Printed(doc: seq<Part>): string
  {
    Joined(Written(doc))
  }

  // ---- What comes back ----

  function CleanedAll(elems: seq<Element>): (r: seq<Element>)
    ensures |r| == |elems| && forall i :: 0 <= i < |r| ==> r[i] == Cleaned(elems[i])
  {
    seq(|elems|, i requires 0 <= i < |elems| => Cleaned(elems[i]))
  }

  /** One more element at the end of the last part. */
  function WithBlank(doc: seq<Part>): seq<Part>
    requires doc != []
  {
    var p := doc[|doc| - 1];
    doc[|doc| - 1 := Part(p.name, p.elems + [Blank("")])]
  }

  /** The separating empty line becomes an element of the section before. */
  function Separated(doc: seq<Part>, gap: bool): (r: seq<Part>)
    requires doc != []
    ensures |r| == |doc|
  {
    if gap then WithBlank(doc) else doc
  }

  predicate GapBefore(front: seq<Part>, p: Part)
  {
    p.name != "" && NeedsGap(Written(front))
  }

  /** The document that printing and loading gives: separating blank lines have become elements. */
  function Reloaded(doc: seq<Part>): (r: seq<Part>)
    ensures |r| == |doc|
  {
    if doc == [] then [] else
      var front := doc[..|doc| - 1];
      var p := doc[|doc| - 1];
      (if front == [] then [] else Separated(Reloaded(front), GapBefore(front, p))) + [Part(p.name, CleanedAll(p.elems))]
  }

  lemma {:induction false} ReloadedStep(front: seq<Part>, p: Part)
    requires front != []
    ensures Reloaded(front + [p]) == Separated(Reloaded(front), GapBefore(front, p)) + [Part(p.name, CleanedAll(p.elems))]
  {
    assert (front + [p])[..|front|] == front;
  }

  lemma {:induction false} ReloadedNames(doc: seq<Part>)
    ensures forall i :: 0 <= i < |doc| ==> Reloaded(doc)[i].name == doc[i].name
  {
    if |doc| > 1 {
      var n := |doc| - 1;
      var front, p := doc[..n], doc[n];
      assert doc == front + [p];
      ReloadedNames(front);
      ReloadedStep(front, p);
      SeparatedNames(Reloaded(front), GapBefore(front, p));
    }
  }

  lemma SeparatedNames(doc: seq<Part>, gap: bool)
    requires doc != []
    ensures forall i :: 0 <= i < |doc| ==> Separated(doc, gap)[i].name == doc[i].name
  {
  }

  lemma {:induction false} FindAbsent(elems: seq<Element>, e: Element, done: seq<Element>)
    requires e.Pair? && DistinctKeys(done + [e]) && elems == CleanedAll(done)
    ensures FindKey(elems, ToLower(e.key)) == |elems|
  {
    var all := done + [e];
    assert all[|done|] == e;
    forall i | 0 <= i < |elems| ensures !HasKey(elems[i], ToLower(e.key)) {
      assert elems[i] == Cleaned(done[i]) && all[i] == done[i];
    }
  }

  lemma CleanedMore(done: seq<Element>, e: Element)
    ensures CleanedAll(done + [e]) == CleanedAll(done) + [Cleaned(e)]
  {
  }

  lemma {:induction false} DroppedMore(done: seq<Element>, e: Element)
    ensures DropCRs(ElementLines(done + [e])) == DropCRs(ElementLines(done)) + [DropCR(ElementLine(e))]
  {
    ElementLinesStep(done, e);
    DropCRsSum(ElementLines(done), [ElementLine(e)]);
    assert DropCRs([ElementLine(e)]) == [DropCR(ElementLine(e))];
  }

  lemma {:induction false} LoadMore(s: Loading, lines: seq<string>, line: string)
    requires s.cur < |s.doc|
    ensures LoadFrom(s, lines + [line]) == Step(LoadFrom(s, lines), line)
  {
    assert (lines + [line])[..|lines|] == lines;
  }

  /** One printed element, scanned: it goes to the end. */
  lemma ReloadElement(s: Loading, done: seq<Element>, e: Element)
    requires s.cur < |s.doc| && s.doc[s.cur].elems == CleanedAll(done) && DistinctKeys(done + [e]) && Canonical(e)
    ensures Step(s, DropCR(ElementLine(e))) ==
              Loading(s.doc[s.cur := Part(s.doc[s.cur].name, CleanedAll(done) + [Cleaned(e)])], s.cur)
  {
    Reparsed(e);
    if e.Pair? {
      FindAbsent(CleanedAll(done), e, done);
    }
  }

  /** Scanning the printed elements of a section adds exactly these elements. */
  lemma {:induction false} ReloadElements(s: Loading, elems: seq<Element>)
    requires s.cur < |s.doc| && s.doc[s.cur].elems == [] && GoodElements(elems)
    ensures LoadFrom(s, DropCRs(ElementLines(elems))) == Loading(s.doc[s.cur := Part(s.doc[s.cur].name, CleanedAll(elems))], s.cur)
  {
    if elems == [] {
      assert CleanedAll(elems) == [];
      assert s.doc[s.cur := Part(s.doc[s.cur].name, [])] == s.doc;
    } else {
      var n := |elems| - 1;
      var init, e := elems[..n], elems[n];
      assert elems == init + [e];
      ReloadElements(s, init);
      DroppedMore(init, e);
      LoadMore(s, DropCRs(ElementLines(init)), DropCR(ElementLine(e)));
      ReloadElement(LoadFrom(s, DropCRs(ElementLines(init))), init, e);
      CleanedMore(init, e);
    }
  }

  lemma {:induction false} FindNewPart(doc: seq<Part>, front: seq<Part>, p: Part)
    requires |doc| == |front| && DistinctNames(front + [p])
    requires forall i :: 0 <= i < |doc| ==> doc[i].name == front[i].name
    ensures FindPart(doc, ToLower(p.name)) == |doc|
  {
    var all := front + [p];
    assert all[|front|] == p;
    forall i | 0 <= i < |doc| ensures ToLower(doc[i].name) != ToLower(p.name) {
      assert all[i] == front[i];
    }
  }

  /** The lines that open a section have no trailing carriage returns. */
  lemma {:induction false} OpeningDropped(before: seq<string>, name: string)
    ensures DropCRs(Opening(before, name)) == Opening(before, name)
  {
    var header := HeaderLine(name);
    assert DropCR(header) == header;
    assert DropCRs([header]) == [header] && DropCRs([""]) == [""];
    DropCRsSum([""], [header]);
  }

  lemma {:induction false} ReadBlank(s: Loading)
    requires s.doc != [] && s.cur == |s.doc| - 1
    ensures LoadFrom(s, [""]) == Loading(WithBlank(s.doc), s.cur)
  {
    TrimOfTrimmed("");
    LoadMore(s, [], "");
  }

  lemma {:induction false} ReadHeader(s: Loading, name: string)
    requires s.cur < |s.doc| && CanonicalName(name) && FindPart(s.doc, ToLower(name)) == |s.doc|
    ensures LoadFrom(s, [HeaderLine(name)]) == Loading(s.doc + [Part(name, [])], |s.doc|)
  {
    ReparsedHeader(name);
    assert DropCR(HeaderLine(name)) == HeaderLine(name);
    LoadMore(s, [], HeaderLine(name));
  }

  /** Scanning the opening of a section appends that section and goes there. */
  lemma {:induction false} ReloadOpening(s: Loading, front: seq<Part>, p: Part)
    requires front != [] && s.doc == Reloaded(front) && s.cur == |front| - 1
    requires DistinctNames(front + [p]) && CanonicalName(p.name) && p.name != ""
    ensures LoadFrom(s, DropCRs(Opening(Written(front), p.name))) ==
              Loading(Separated(s.doc, GapBefore(front, p)) + [Part(p.name, [])], |front|)
  {
    ReloadedNames(front);
    OpeningDropped(Written(front), p.name);
    var r := Loading(Separated(s.doc, GapBefore(front, p)), s.cur);
    SeparatedNames(s.doc, GapBefore(front, p));
    FindNewPart(r.doc, front, p);
    ReadHeader(r, p.name);
    if GapBefore(front, p) {
      ReadBlank(s);
      LoadInParts(s, [""], [HeaderLine(p.name)]);
    }
  }

  /** One part more. */
  lemma {:induction false} ReloadPart(s: Loading, front: seq<Part>, p: Part)
    requires front != [] && s.doc == Reloaded(front) && s.cur == |front| - 1
    requires DistinctNames(front + [p]) && GoodPart(p) && p.name != ""
    ensures var lines := Opening(Written(front), p.name) + ElementLines(p.elems);
      LoadFrom(s, DropCRs(lines)) == Loading(Reloaded(front + [p]), |front|)
  {
    var opening, elems := Opening(Written(front), p.name), ElementLines(p.elems);
    ReloadOpening(s, front, p);
    var s2 := LoadFrom(s, DropCRs(opening));
    DropCRsSum(opening, elems);
    LoadInParts(s, DropCRs(opening), DropCRs(elems));
    ReloadElements(s2, p.elems);
    ReloadedStep(front, p);
    ReplaceLast(Separated(s.doc, GapBefore(front, p)), Part(p.name, []), Part(p.name, CleanedAll(p.elems)));
  }

  lemma ReplaceLast<T>(front: seq<T>, a: T, b: T)
    ensures (front + [a])[|front| := b] == front + [b]
  {
  }

  lemma GoodFront(front: seq<Part>, p: Part)
    requires Good(front + [p])
    ensures GoodPart(p) && (front == [] ==> p.name == "") && (front != [] ==> Good(front) && p.name != "")
  {
    var doc := front + [p];
    assert doc[|front|] == p && p in doc;
    assert forall i :: 0 <= i < |front| ==> doc[i] == front[i];
    if front != [] {
      NotDefault(doc, |front|);
      assert forall q :: q in front ==> q in doc;
    }
  }

  /** Loading what was printed gives the reloaded document. */
  lemma {:induction false} LoadAfterPrint(doc: seq<Part>)
    requires Good(doc)
    ensures LoadFrom(START, DropCRs(Written(doc))) == Loading(Reloaded(doc), |doc| - 1)
  {
    var n := |doc| - 1;
    var front, p := doc[..n], doc[n];
    assert doc == front + [p];
    GoodFront(front, p);
    if n == 0 {
      assert doc == [p];
      ReloadFirst(p);
    } else {
      LoadAfterPrint(front);
      var lines := Opening(Written(front), p.name) + ElementLines(p.elems);
      ReloadPart(LoadFrom(START, DropCRs(Written(front))), front, p);
      WrittenStep(front, p);
      DropCRsSum(Written(front), lines);
      LoadInParts(START, DropCRs(Written(front)), DropCRs(lines));
    }
  }

  lemma ReloadFirst(p: Part)
    requires GoodPart(p) && p.name == ""
    ensures LoadFrom(START, DropCRs(Written([p]))) == Loading(Reloaded([p]), 0)
  {
    FirstPart(p);
    ReloadElements(START, p.elems);
    assert START.doc[0 := Part("", CleanedAll(p.elems))] == Reloaded([p]);
  }

  lemma {:induction false} NotDefault(doc: seq<Part>, i: nat)
    requires doc != [] && doc[0].name == "" && DistinctNames(doc) && 0 < i < |doc|
    ensures doc[i].name != ""
  {
    assert ToLower(doc[0].name) != ToLower(doc[i].name);
  }

  // ---- The fixpoint ----

  lemma CleanedLine(e: Element)
    requires Canonical(e)
    ensures ElementLine(Cleaned(e)) == DropCR(ElementLine(e))
    ensures ElementLine(e) == "" <==> DropCR(ElementLine(e)) == ""
  {
    if e.Pair? {
      ReparsedPair(e);
    } else if e.Comment? && DropCR(e.raw) == "" {
      assert e.raw == e.raw + "" + "";
      TrimIs(e.raw, "", "");
    }
  }

  /** Dropping carriage returns makes no line empty. */
  predicate NoneVanish(lines: seq<string>)
  {
    forall l :: l in lines ==> (l == "" <==> DropCR(l) == "")
  }

  lemma {:induction false} CleanedLines(elems: seq<Element>)
    requires forall e :: e in elems ==> Canonical(e)
    ensures ElementLines(CleanedAll(elems)) == DropCRs(ElementLines(elems))
  {
    if elems != [] {
      var n := |elems| - 1;
      var init, e := elems[..n], elems[n];
      assert elems == init + [e];
      CleanedLines(init);
      CleanedLine(e);
      DroppedMore(init, e);
      CleanedMore(init, e);
      ElementLinesStep(CleanedAll(init), Cleaned(e));
    }
  }

  lemma {:induction false} ElementsNoneVanish(elems: seq<Element>)
    requires forall e :: e in elems ==> Canonical(e)
    ensures NoneVanish(ElementLines(elems))
  {
    if elems != [] {
      var n := |elems| - 1;
      var init, e := elems[..n], elems[n];
      assert elems == init + [e];
      ElementsNoneVanish(init);
      CleanedLine(e);
      ElementLinesStep(init, e);
    }
  }

  lemma {:induction false} SameGap(lines: seq<string>)
    requires NoneVanish(lines)
    ensures NeedsGap(DropCRs(lines)) == NeedsGap(lines)
  {
  }

  lemma {:induction false} WrittenGaps(doc: seq<Part>)
    requires forall p :: p in doc ==> GoodPart(p)
    ensures NoneVanish(Written(doc))
  {
    if doc != [] {
      var n := |doc| - 1;
      var front, p := doc[..n], doc[n];
      assert doc == front + [p];
      WrittenGaps(front);
      WrittenStep(front, p);
      assert p in doc;
      ElementsNoneVanish(p.elems);
      assert NoneVanish(Opening(Written(front), p.name));
    }
  }

  lemma {:induction false} WrittenWithBlank(doc: seq<Part>)
    requires doc != []
    ensures Written(WithBlank(doc)) == Written(doc) + [""]
  {
    var n := |doc| - 1;
    var front, p := doc[..n], doc[n];
    var q := Part(p.name, p.elems + [Blank("")]);
    assert doc == front + [p] && WithBlank(doc) == front + [q];
    WrittenOpened(front, p);
    WrittenOpened(front, q);
    ElementLinesStep(p.elems, Blank(""));
    Regrouped(Opened(Written(front), p.name), ElementLines(p.elems), [""]);
  }

  /** The opening of a section printed again: the empty line is there already. */
  lemma OpenedAgain(before: seq<string>, name: string)
    requires NoneVanish(before)
    ensures Opened(if name != "" && NeedsGap(before) then DropCRs(before) + [""] else DropCRs(before), name) == DropCRs(Opened(before, name))
  {
    SameGap(before);
    OpeningDropped(before, name);
    DropCRsSum(before, Opening(before, name));
    OpenedTwice(DropCRs(before), name);
    assert Opening(DropCRs(before), name) == Opening(before, name);
  }

  lemma {:induction false} OpenedTwice(before: seq<string>, name: string)
    ensures Opened(if name != "" && NeedsGap(before) then before + [""] else before, name) == before + Opening(before, name)
  {
    if name != "" && NeedsGap(before) {
      Regrouped(before, [""], [HeaderLine(name)]);
    }
  }

  lemma {:induction false} ReopenedLines(front: seq<Part>, p: Part)
    requires front != [] && Written(Reloaded(front)) == DropCRs(Written(front)) && NoneVanish(Written(front))
    ensures var r := Separated(Reloaded(front), GapBefore(front, p));
      Opened(Written(r), p.name) == DropCRs(Opened(Written(front), p.name))
  {
    WrittenWithBlank(Reloaded(front));
    OpenedAgain(Written(front), p.name);
  }

  lemma {:induction false} PartPrintedAgain(front: seq<Part>, p: Part)
    requires front != [] && Written(Reloaded(front)) == DropCRs(Written(front)) && NoneVanish(Written(front)) && GoodPart(p)
    ensures Written(Reloaded(front + [p])) == DropCRs(Written(front + [p]))
  {
    var r, q := Separated(Reloaded(front), GapBefore(front, p)), Part(p.name, CleanedAll(p.elems));
    CleanedLines(p.elems);
    ReloadedStep(front, p);
    ReopenedLines(front, p);
    WrittenOpened(front, p);
    WrittenOpened(r, q);
    DropCRsSum(Opened(Written(front), p.name), ElementLines(p.elems));
  }

  /** Printing the reloaded document prints what was printed before, without trailing carriage returns. */
  lemma {:induction false} ReloadedPrints(doc: seq<Part>)
    requires Good(doc)
    ensures Written(Reloaded(doc)) == DropCRs(Written(doc))
  {
    var n := |doc| - 1;
    var front, p := doc[..n], doc[n];
    assert doc == front + [p];
    GoodFront(front, p);
    if front == [] {
      var q := Part(p.name, CleanedAll(p.elems));
      assert [p] == doc && [q] == Reloaded(doc);
      FirstPart(p);
      FirstPart(q);
      CleanedLines(p.elems);
    } else {
      ReloadedPrints(front);
      WrittenGaps(front);
      PartPrintedAgain(front, p);
    }
  }

  lemma {:induction false} ElementLinesAre(elems: seq<Element>)
    ensures forall l :: l in ElementLines(elems) <==> exists e :: e in elems && ElementLine(e) == l
  {
    if elems != [] {
      var n := |elems| - 1;
      assert elems == elems[..n] + [elems[n]];
      ElementLinesAre(elems[..n]);
      ElementLinesStep(elems[..n], elems[n]);
    }
  }

  /** A comment, or a line that cannot be parsed and is kept as one. */
  predicate IsComment(line: string)
  {
    ParseLine(line) == Item(Comment(line))
  }

  /** Comment `c` stands in some section. */
  ghost predicate HasComment(doc: seq<Part>, c: string)
  {
    exists i :: 0 <= i < |doc| && Comment(c) in doc[i].elems
  }

  lemma {:induction false} PutComments(elems: seq<Element>, e: Element, c: string)
    ensures Comment(c) in Put(elems, e) <==> Comment(c) in elems || e == Comment(c)
  {
    var r := Put(elems, e);
    if Comment(c) in elems {
      var j :| 0 <= j < |elems| && elems[j] == Comment(c);
      assert r[j] == Comment(c);
    }
    if e == Comment(c) {
      assert r[|elems|] == e;
    }
  }

  lemma PartComments(doc: seq<Part>, k: nat, p: Part, c: string)
    requires k < |doc| && (Comment(c) in doc[k].elems ==> Comment(c) in p.elems)
    ensures HasComment(doc[k := p], c) <==> HasComment(doc, c) || Comment(c) in p.elems
  {
    var r := doc[k := p];
    if HasComment(doc, c) {
      var i :| 0 <= i < |doc| && Comment(c) in doc[i].elems;
      assert Comment(c) in r[i].elems;
    }
    if Comment(c) in p.elems {
      assert Comment(c) in r[k].elems;
    }
    if HasComment(r, c) {
      var i :| 0 <= i < |r| && Comment(c) in r[i].elems;
      assert i != k ==> Comment(c) in doc[i].elems;
    }
  }

  lemma CommentsStep(s: Loading, line: string, c: string)
    requires s.cur < |s.doc|
    ensures HasComment(Step(s, line).doc, c) <==> HasComment(s.doc, c) || (line == c && IsComment(line))
  {
    match ParseLine(line)
    case Header(name) =>
      CommentsOfPart(s.doc, Part(name, []), c);
    case Item(e) =>
      var p := s.doc[s.cur];
      PutComments(p.elems, e, c);
      PartComments(s.doc, s.cur, Part(p.name, Put(p.elems, e)), c);
      assert Comment(c) in p.elems ==> HasComment(s.doc, c);
  }

  /** Loading keeps every comment line, and invents none. */
  lemma {:induction false} CommentsAreKept(lines: seq<string>, c: string)
    ensures HasComment(LoadFrom(START, lines).doc, c) <==> c in lines && IsComment(c)
  {
    if lines != [] {
      var n := |lines| - 1;
      assert lines == lines[..n] + [lines[n]];
      CommentsAreKept(lines[..n], c);
      CommentsStep(LoadFrom(START, lines[..n]), lines[n], c);
    }
  }

  /** What a lookup of `key` in section `section` answers: the stored value. */
  function Lookup(doc: seq<Part>, section: string, key: string): Option<string>
  {
    var i := FindPart(doc, ToLower(Trim(section)));
    if i == |doc| then None else
      var j := FindKey(doc[i].elems, ToLower(Trim(key)));
      if j == |doc[i].elems| then None else Some(doc[i].elems[j].value)
  }

  lemma {:induction false} LineOfDocument(doc: seq<Part>, l: string)
    requires Good(doc) && DropCR(l) != l
    ensures l in Written(doc) <==> HasComment(doc, l)
  {
    var n := |doc| - 1;
    var front, p := doc[..n], doc[n];
    assert doc == front + [p];
    GoodFront(front, p);
    WrittenStep(front, p);
    LineOfElements(p.elems, l);
    NotInOpening(Written(front), p.name, l);
    if front != [] {
      LineOfDocument(front, l);
    }
    CommentsOfPart(front, p, l);
  }

  /** Of the lines of a section only comments end in a carriage return. */
  lemma {:induction false} LineOfElements(elems: seq<Element>, l: string)
    requires (forall e :: e in elems ==> Canonical(e)) && DropCR(l) != l
    ensures l in ElementLines(elems) <==> Comment(l) in elems
  {
    ElementLinesAre(elems);
    forall e | e in elems && ElementLine(e) == l ensures e == Comment(l) {
      CleanedLine(e);
      if e.Pair? {
        ReparsedPair(e);
      }
    }
    assert ElementLine(Comment(l)) == l;
  }

  lemma NotInOpening(before: seq<string>, name: string, l: string)
    requires DropCR(l) != l
    ensures l !in Opening(before, name)
  {
    assert DropCR(HeaderLine(name)) == HeaderLine(name);
  }

  lemma CommentsOfPart(front: seq<Part>, p: Part, c: string)
    ensures HasComment(front + [p], c) <==> HasComment(front, c) || Comment(c) in p.elems
  {
    var doc := front + [p];
    if HasComment(front, c) {
      var i :| 0 <= i < |front| && Comment(c) in front[i].elems;
      assert Comment(c) in doc[i].elems;
    }
    if Comment(c) in p.elems {
      assert Comment(c) in doc[|front|].elems;
    }
    if HasComment(doc, c) {
      var i :| 0 <= i < |doc| && Comment(c) in doc[i].elems;
      assert i < |front| ==> Comment(c) in front[i].elems;
    }
  }

  lemma {:induction false} DropCRsIdentity(lines: seq<string>)
    ensures DropCRs(lines) == lines <==> forall l :: l in lines ==> DropCR(l) == l
  {
    if lines != [] {
      var n := |lines| - 1;
      assert lines == lines[..n] + [lines[n]];
      DropCRsIdentity(lines[..n]);
      assert DropCRs(lines) == lines ==> DropCRs(lines)[..n] == lines[..n];
    }
  }

  lemma {:induction false} ElementsOneLine(elems: seq<Element>)
    requires forall e :: e in elems ==> Canonical(e)
    ensures forall l :: l in ElementLines(elems) ==> OneLine(l)
  {
    ElementLinesAre(elems);
    forall e | e in elems ensures OneLine(ElementLine(e)) {
      if e.Pair? {
        assert OneLine(e.sep);
      }
    }
  }

  predicate AllOneLine(lines: seq<string>)
  {
    forall l :: l in lines ==> OneLine(l)
  }

  lemma {:induction false} WrittenOneLine(doc: seq<Part>)
    requires forall p :: p in doc ==> GoodPart(p)
    ensures AllOneLine(Written(doc))
  {
    if doc != [] {
      var n := |doc| - 1;
      var front, p := doc[..n], doc[n];
      assert doc == front + [p] && p in doc;
      WrittenOneLine(front);
      WrittenStep(front, p);
      ElementsOneLine(p.elems);
      OpeningOneLine(Written(front), p.name);
    }
  }

  lemma {:induction false} OpeningOneLine(before: seq<string>, name: string)
    requires OneLine(name)
    ensures AllOneLine(Opening(before, name))
  {
    assert OneLine(HeaderLine(name));
  }

  lemma {:induction false} DroppedOneLine(lines: seq<string>)
    requires forall l :: l in lines ==> OneLine(l)
    ensures forall l :: l in DropCRs(lines) ==> OneLine(l)
  {
    if lines != [] {
      var n := |lines| - 1;
      DroppedOneLine(lines[..n]);
      assert lines[n] in lines;
    }
  }

  /** What printing a good document and loading that gives, and how that prints in turn. */
  lemma {:induction false} PrintLoad(doc: seq<Part>)
    requires Good(doc)
    ensures LoadText(Printed(doc)) == Reloaded(doc)
    ensures Printed(LoadText(Printed(doc))) == Joined(DropCRs(Written(doc)))
  {
    WrittenOneLine(doc);
    LinesOfJoined(Written(doc));
    LoadAfterPrint(doc);
    ReloadedPrints(doc);
  }

  lemma LoadIsGood(t: string)
    ensures Good(LoadText(t))
  {
    LinesAreOneLine(t);
    LoadedIsGood(Lines(t));
  }

  /** No comment line ends in a second carriage return. */
  predicate CommentsEndPlain(t: string)
  {
    forall l :: l in Lines(t) && IsComment(l) ==> DropCR(l) == l
  }

  lemma TrailingCRs(t: string)
    ensures (forall l :: l in Written(LoadText(t)) ==> DropCR(l) == l) <==> CommentsEndPlain(t)
  {
    LinesAreOneLine(t);
    LoadedIsGood(Lines(t));
    forall l | DropCR(l) != l ensures l in Written(LoadText(t)) <==> l in Lines(t) && IsComment(l) {
      LineOfDocument(LoadText(t), l);
      CommentsAreKept(Lines(t), l);
    }
  }

  /** Printing is a fixpoint after one load exactly when no comment line ends in a second carriage return. */
  lemma PrintedFixpoint(t: string)
    ensures Printed(LoadText(Printed(LoadText(t)))) == Printed(LoadText(t)) <==> CommentsEndPlain(t)
  {
    var lines := Written(LoadText(t));
    LoadIsGood(t);
    PrintLoad(LoadText(t));
    WrittenOneLine(LoadText(t));
    DroppedOneLine(lines);
    if Joined(DropCRs(lines)) == Joined(lines) {
      JoinedInjective(DropCRs(lines), lines);
    }
    DropCRsIdentity(lines);
    TrailingCRs(t);
  }

  lemma {:induction false} NoCRInLines(t: string)
    requires '\r' !in t
    ensures forall l :: l in Lines(t) ==> '\r' !in l
    decreases |t|
  {
    if t != "" && IndexOf(t, '\n') < |t| {
      NoCRInLines(t[IndexOf(t, '\n') + 1..]);
    }
  }

  /** Text without carriage returns: write, load, write gives the same bytes. */
  lemma PlainTextFixpoint(t: string)
    requires '\r' !in t
    ensures Printed(LoadText(Printed(LoadText(t)))) == Printed(LoadText(t))
  {
    NoCRInLines(t);
    PrintedFixpoint(t);
  }

  lemma {:induction false} FindKeyCleaned(elems: seq<Element>, more: seq<Element>, k: string)
    requires forall e :: e in more ==> !e.Pair?
    ensures var i := FindKey(elems, k);
      if i < |elems| then FindKey(CleanedAll(elems) + more, k) == i && CleanedAll(elems)[i] == elems[i]
      else FindKey(CleanedAll(elems) + more, k) == |elems| + |more|
  {
    var all := CleanedAll(elems) + more;
    var i, j := FindKey(elems, k), FindKey(all, k);
    forall x | 0 <= x < |elems| ensures HasKey(all[x], k) == HasKey(elems[x], k) {
    }
    forall x | |elems| <= x < |all| ensures !HasKey(all[x], k) {
      assert all[x] == more[x - |elems|];
    }
  }

  /** Part i after reloading: its elements cleaned, and perhaps one blank more. */
  ghost predicate ReloadedPart(p: Part, r: Part)
  {
    r.name == p.name && (r.elems == CleanedAll(p.elems) + [] || r.elems == CleanedAll(p.elems) + [Blank("")])
  }

  ghost predicate PartsReloaded(doc: seq<Part>, r: seq<Part>)
  {
    |r| == |doc| && forall i :: 0 <= i < |doc| ==> ReloadedPart(doc[i], r[i])
  }

  lemma {:induction false} ReloadedParts(doc: seq<Part>)
    ensures PartsReloaded(doc, Reloaded(doc))
    ensures doc != [] ==> Reloaded(doc)[|doc| - 1].elems == CleanedAll(doc[|doc| - 1].elems)
  {
    if |doc| > 1 {
      var n := |doc| - 1;
      var front, p := doc[..n], doc[n];
      assert doc == front + [p];
      ReloadedParts(front);
      SeparatedParts(front, Reloaded(front), GapBefore(front, p));
      ReloadedMore(front, Separated(Reloaded(front), GapBefore(front, p)), p);
      ReloadedStep(front, p);
    } else if |doc| == 1 {
      ReloadedMore([], [], doc[0]);
      assert Reloaded(doc) == [] + [Part(doc[0].name, CleanedAll(doc[0].elems))] && doc == [] + [doc[0]];
    }
  }

  lemma {:induction false} ReloadedMore(front: seq<Part>, r: seq<Part>, p: Part)
    requires PartsReloaded(front, r)
    ensures PartsReloaded(front + [p], r + [Part(p.name, CleanedAll(p.elems))])
  {
    assert CleanedAll(p.elems) + [] == CleanedAll(p.elems);
    assert ReloadedPart(p, Part(p.name, CleanedAll(p.elems)));
  }

  lemma SeparatedParts(front: seq<Part>, r: seq<Part>, gap: bool)
    requires front != [] && |r| == |front| && r[|r| - 1].elems == CleanedAll(front[|r| - 1].elems)
    requires PartsReloaded(front, r)
    ensures PartsReloaded(front, Separated(r, gap))
  {
  }

  lemma {:induction false} FindPartSame(a: seq<Part>, b: seq<Part>, k: string)
    requires |a| == |b| && forall i :: 0 <= i < |a| ==> a[i].name == b[i].name
    ensures FindPart(a, k) == FindPart(b, k)
  {
    var i, j := FindPart(a, k), FindPart(b, k);
  }

  /** Every lookup in a good document answers the same after writing and reloading it, trailing carriage returns or not. */
  lemma LookupsSurvive(doc: seq<Part>, section: string, key: string)
    requires Good(doc)
    ensures Lookup(LoadText(Printed(doc)), section, key) == Lookup(doc, section, key)
  {
    PrintLoad(doc);
    ReloadedParts(doc);
    FindPartSame(doc, Reloaded(doc), ToLower(Trim(section)));
    var i := FindPart(doc, ToLower(Trim(section)));
    if i < |doc| {
      assert ReloadedPart(doc[i], Reloaded(doc)[i]);
      FindKeyCleaned(doc[i].elems, [], ToLower(Trim(key)));
      FindKeyCleaned(doc[i].elems, [Blank("")], ToLower(Trim(key)));
    }
  }
}
