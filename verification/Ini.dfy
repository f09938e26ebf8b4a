/** INI files as the program keeps them: sections with a key index, a file with a section index, Load and WriteTo. */
module Ini {
  import opened Text
  import opened TextLines
  import opened IniLine
  import opened IniDocument
  import opened IniEdit

  /** The index points every lower-case key at the one pair that carries it. */
  ghost predicate KeyIndexFits(elems: seq<Element>, index: map<string, nat>)
  {
    && (forall k :: k in index ==> index[k] < |elems| && HasKey(elems[index[k]], k))
    && (forall i :: 0 <= i < |elems| && elems[i].Pair? ==> ToLower(elems[i].key) in index && index[ToLower(elems[i].key)] == i)
  }

  /** A fitting index answers what searching the elements would, and there are no duplicates. */
  lemma {:induction false} IndexFinds(elems: seq<Element>, index: map<string, nat>, k: string)
    requires KeyIndexFits(elems, index)
    ensures DistinctKeys(elems) && FindKey(elems, k) == if k in index then index[k] else |elems|
  {
    if FindKey(elems, k) < |elems| {
      assert elems[FindKey(elems, k)].Pair?;
    }
  }

  /** Appending and replacing elements, with the index kept up. */
  lemma IndexAppend(elems: seq<Element>, index: map<string, nat>, e: Element)
    requires KeyIndexFits(elems, index) && (e.Pair? ==> ToLower(e.key) !in index)
    ensures KeyIndexFits(elems + [e], if e.Pair? then index[ToLower(e.key) := |elems|] else index)
  {
  }

  lemma IndexReplace(elems: seq<Element>, index: map<string, nat>, e: Element)
    requires KeyIndexFits(elems, index) && e.Pair? && ToLower(e.key) in index
    ensures KeyIndexFits(elems[index[ToLower(e.key)] := e], index)
  {
  }

  /** Comments are never blank lines. */
  predicate Plain(elems: seq<Element>)
  {
    forall i :: 0 <= i < |elems| && elems[i].Comment? ==> elems[i].raw != ""
  }

  class Section {
    var name: string
    var elements: seq<Element>
    var keyIndex: map<string, nat>

    ghost predicate Valid()
      reads this
    {
      KeyIndexFits(elements, keyIndex) && Plain(elements)
    }

    /** This section stands for part p. */
    ghost predicate Is(p: Part)
      reads this
    {
      Valid() && p == Part(name, elements)
    }

    constructor (name: string)
      ensures Valid() && this.name == name && elements == []
    {
      this.name := name;
      elements := [];
      keyIndex := map[];
    }

    method Get(key: string) returns (r: Option<string>)
      requires Valid()
      ensures r == match ValueOf(elements, ToLower(Trim(key))) case None => None case Some(v) => Some(Unquote(v))
    {
      var lower := ToLower(Trim(key));
      IndexFinds(elements, keyIndex, lower);
      if lower !in keyIndex {
        return None;
      }
      r := Some(Unquote(elements[keyIndex[lower]].value));
    }

    method HasKey(key: string) returns (r: bool)
      requires Valid()
      ensures r <==> ValueOf(elements, ToLower(Trim(key))).Some?
    {
      IndexFinds(elements, keyIndex, ToLower(Trim(key)));
      r := ToLower(Trim(key)) in keyIndex;
    }

    method Set(key: string, value: string)
      requires Valid()
      modifies this
      ensures Valid() && name == old(name)
      ensures elements == SetElement(old(elements), key, value)
    {
      var trimmed := Trim(key);
      var lower := ToLower(trimmed);
      IndexFinds(elements, keyIndex, lower);
      if lower in keyIndex {
        var e := Pair(trimmed, value, elements[keyIndex[lower]].sep);
        IndexReplace(elements, keyIndex, e);
        elements := elements[keyIndex[lower] := e];
        return;
      }
      IndexAppend(elements, keyIndex, Pair(trimmed, value, "="));
      elements := elements + [Pair(trimmed, value, "=")];
      keyIndex := keyIndex[lower := |elements| - 1];
    }

    method Delete(key: string) returns (found: bool)
      requires Valid()
      modifies this
      ensures Valid() && name == old(name)
      ensures found <==> ValueOf(old(elements), ToLower(Trim(key))).Some?
      ensures elements == DeleteElement(old(elements), key)
    {
      var lower := ToLower(Trim(key));
      IndexFinds(elements, keyIndex, lower);
      if lower !in keyIndex {
        return false;
      }
      var i := keyIndex[lower];
      DeleteFinds(elements, key, lower);
      elements := elements[..i] + elements[i + 1..];
      RebuildKeyIndex();
      found := true;
    }

    method RebuildKeyIndex()
      requires DistinctKeys(elements) && Plain(elements)
      modifies this`keyIndex
      ensures Valid()
    {
      keyIndex := map[];
      assert elements[..0] == [];
      for i := 0 to |elements|
        invariant KeyIndexFits(elements[..i], keyIndex)
      {
        var e := elements[i];
        assert elements[..i + 1] == elements[..i] + [e];
        assert e.Pair? ==> ToLower(e.key) !in keyIndex;
        IndexAppend(elements[..i], keyIndex, e);
        if e.Pair? {
          keyIndex := keyIndex[ToLower(e.key) := i];
        }
      }
      assert elements[..|elements|] == elements;
    }

    /** Append a blank line or a comment. */
    method AddNote(e: Element)
      requires Valid() && !e.Pair? && (e.Comment? ==> e.raw != "")
      modifies this
      ensures Valid() && name == old(name) && elements == Put(old(elements), e)
    {
      IndexAppend(elements, keyIndex, e);
      elements := elements + [e];
    }

    /** While loading, a repeated key takes the place of the earlier pair. */
    method AddPair(key: string, value: string, sep: string)
      requires Valid()
      modifies this
      ensures Valid() && name == old(name) && elements == Put(old(elements), Pair(key, value, sep))
    {
      var lower := ToLower(key);
      var e := Pair(key, value, sep);
      IndexFinds(elements, keyIndex, lower);
      if lower in keyIndex {
        IndexReplace(elements, keyIndex, e);
        elements := elements[keyIndex[lower] := e];
      } else {
        IndexAppend(elements, keyIndex, e);
        elements := elements + [e];
        keyIndex := keyIndex[lower := |elements| - 1];
      }
    }
  }

  // ---- Files ----

  ghost predicate SectionIndexFits(doc: seq<Part>, index: map<string, nat>)
  {
    && (forall k :: k in index ==> index[k] < |doc| && ToLower(doc[index[k]].name) == k)
    && (forall i :: 0 <= i < |doc| ==> ToLower(doc[i].name) in index && index[ToLower(doc[i].name)] == i)
  }

  lemma {:induction false} SectionIndexFinds(doc: seq<Part>, index: map<string, nat>, k: string)
    requires SectionIndexFits(doc, index)
    ensures DistinctNames(doc) && FindPart(doc, k) == if k in index then index[k] else |doc|
  {
  }

  lemma SectionIndexAppend(doc: seq<Part>, index: map<string, nat>, p: Part)
    requires SectionIndexFits(doc, index) && ToLower(p.name) !in index
    ensures SectionIndexFits(doc + [p], index[ToLower(p.name) := |doc|])
  {
  }

  /** Changing the elements of a part does not concern the section index. */
  lemma SectionIndexUpdate(doc: seq<Part>, index: map<string, nat>, k: nat, elems: seq<Element>)
    requires SectionIndexFits(doc, index) && k < |doc|
    ensures SectionIndexFits(doc[k := Part(doc[k].name, elems)], index)
  {
  }

  lemma {:induction false} DistinctWithout(doc: seq<Part>, k: nat)
    requires DistinctNames(doc) && k < |doc|
    ensures DistinctNames(doc[..k] + doc[k + 1..])
  {
    var r := doc[..k] + doc[k + 1..];
    assert forall i :: 0 <= i < |r| ==> r[i] == doc[if i < k then i else i + 1];
  }

  lemma StepItem(doc: seq<Part>, k: nat, line: string)
    requires k < |doc| && ParseLine(line).Item?
    ensures Step(Loading(doc, k), line) == Loading(doc[k := Part(doc[k].name, Put(doc[k].elems, ParseLine(line).e))], k)
    ensures ParseLine(line).e.Comment? ==> ParseLine(line).e.raw != ""
  {
  }

  /** Neither blank nor a comment, and in brackets. */
  predicate IsHeaderLine(line: string)
  {
    Trim(line) != "" && !IsNote(Trim(line)) && IsHeader(Trim(line))
  }

  function HeaderText(line: string): string
    requires IsHeaderLine(line)
  {
    var t := Trim(line);
    t[1..|t| - 1]
  }

  lemma LineKind(line: string)
    ensures IsHeaderLine(line) ==> ParseLine(line) == Header(Trim(HeaderText(line)))
    ensures !IsHeaderLine(line) ==> ParseLine(line).Item?
  {
  }

  lemma StepHeader(doc: seq<Part>, k: nat, line: string)
    requires k < |doc| && IsHeaderLine(line)
    ensures Step(Loading(doc, k), line) == GoTo(doc, Trim(HeaderText(line)))
  {
  }

  lemma LoadStep(lines: seq<string>, i: nat)
    requires i < |lines|
    ensures LoadFrom(START, lines[..i + 1]) == Step(LoadFrom(START, lines[..i]), lines[i])
  {
    assert lines[..i + 1][..i] == lines[..i];
  }

  /** The sections stand for the parts, one by one. */
  ghost predicate Stand(sections: seq<Section>, doc: seq<Part>)
    reads sections
  {
    |sections| == |doc| && forall i :: 0 <= i < |sections| ==> sections[i].Is(doc[i])
  }

  predicate Apart(sections: seq<Section>)
  {
    forall i, j :: 0 <= i < j < |sections| ==> sections[i] != sections[j]
  }

  lemma {:induction false} StandWithout(sections: seq<Section>, doc: seq<Part>, k: nat)
    requires Stand(sections, doc) && Apart(sections) && k < |doc|
    ensures Stand(sections[..k] + sections[k + 1..], doc[..k] + doc[k + 1..]) && Apart(sections[..k] + sections[k + 1..])
  {
    var s, d := sections[..k] + sections[k + 1..], doc[..k] + doc[k + 1..];
    forall i | 0 <= i < |s| ensures s[i].Is(d[i]) {
      assert s[i] == sections[if i < k then i else i + 1] && d[i] == doc[if i < k then i else i + 1];
    }
  }

  lemma StandAppend(sections: seq<Section>, doc: seq<Part>, s: Section, p: Part)
    requires Stand(sections, doc) && Apart(sections) && s !in sections && s.Is(p)
    ensures Stand(sections + [s], doc + [p]) && Apart(sections + [s])
  {
  }

  class File {
    var sections: seq<Section>
    var sectionIndex: map<string, nat>

    /** The document this file stands for. */
    ghost var doc: seq<Part>

    ghost predicate Valid()
      reads this, sections
    {
      Stand(sections, doc) && Apart(sections) && SectionIndexFits(doc, sectionIndex)
    }

    constructor ()
      ensures Valid() && doc == START.doc && fresh(sections)
    {
      var s := new Section("");
      sections := [s];
      sectionIndex := map["" := 0];
      doc := [Part("", [])];
    }

    /** Section k has new elements: the document follows. */
    ghost method Follow(k: nat)
      requires |doc| == |sections| && k < |sections| && SectionIndexFits(doc, sectionIndex)
      requires forall i :: 0 <= i < |sections| && i != k ==> sections[i].Is(doc[i])
      requires Apart(sections)
      requires sections[k].Valid() && sections[k].name == doc[k].name
      modifies this`doc
      ensures Valid() && doc == old(doc)[k := Part(old(doc)[k].name, sections[k].elements)]
    {
      SectionIndexUpdate(doc, sectionIndex, k, sections[k].elements);
      doc := doc[k := Part(doc[k].name, sections[k].elements)];
    }

    method GetSection(name: string) returns (s: Option<Section>)
      requires Valid()
      ensures var i := FindPart(doc, ToLower(Trim(name)));
        if i < |sections| then s == Some(sections[i]) else s == None
    {
      var lower := ToLower(Trim(name));
      SectionIndexFinds(doc, sectionIndex, lower);
      if lower !in sectionIndex {
        return None;
      }
      s := Some(sections[sectionIndex[lower]]);
    }

    /** The section of that name, appended if missing. */
    method SectionNamed(name: string) returns (s: Section)
      requires Valid()
      modifies this
      ensures Valid() && forall x :: x in sections ==> x in old(sections) || fresh(x)
      ensures s in sections && doc == GoTo(old(doc), Trim(name)).doc && s == sections[GoTo(old(doc), Trim(name)).cur]
    {
      var trimmed := Trim(name);
      var lower := ToLower(trimmed);
      SectionIndexFinds(doc, sectionIndex, lower);
      if lower in sectionIndex {
        return sections[sectionIndex[lower]];
      }
      s := AppendSection(trimmed);
    }

    method AppendSection(name: string) returns (s: Section)
      requires Valid() && FindPart(doc, ToLower(name)) == |sections|
      modifies this
      ensures Valid() && fresh(s) && sections == old(sections) + [s] && doc == old(doc) + [Part(name, [])]
    {
      s := new Section(name);
      Attach(s);
    }

    method Attach(s: Section)
      requires Valid() && s !in sections && s.Is(Part(s.name, [])) && FindPart(doc, ToLower(s.name)) == |sections|
      modifies this
      ensures Valid() && sections == old(sections) + [s] && doc == old(doc) + [Part(s.name, [])]
    {
      SectionIndexFinds(doc, sectionIndex, ToLower(s.name));
      SectionIndexAppend(doc, sectionIndex, Part(s.name, []));
      StandAppend(sections, doc, s, Part(s.name, []));
      sections := sections + [s];
      sectionIndex := sectionIndex[ToLower(s.name) := |sections| - 1];
      doc := doc + [Part(s.name, [])];
    }

    method Get(section: string, key: string) returns (r: Option<string>)
      requires Valid()
      ensures r == match Lookup(doc, section, key) case None => None case Some(v) => Some(Unquote(v))
    {
      var s := GetSection(section);
      if s.None? {
        return None;
      }
      r := s.value.Get(key);
    }

    method Set(section: string, key: string, value: string)
      requires Valid()
      modifies this, sections
      ensures Valid() && forall x :: x in sections ==> x in old(sections) || fresh(x)
      ensures doc == SetIn(old(doc), section, key, value)
    {
      var s := SectionNamed(section);
      s.Set(key, value);
      Follow(GoTo(old(doc), Trim(section)).cur);
    }

    method Delete(section: string, key: string) returns (found: bool)
      requires Valid()
      modifies this, sections
      ensures Valid() && sections == old(sections)
      ensures found <==> Lookup(old(doc), section, key).Some?
      ensures doc == DeleteIn(old(doc), section, key)
    {
      var s := GetSection(section);
      if s.None? {
        return false;
      }
      found := s.value.Delete(key);
      Follow(FindPart(doc, ToLower(Trim(section))));
    }

    method DeleteSection(name: string) returns (found: bool)
      requires Valid()
      modifies this
      ensures Valid() && found == (FindPart(old(doc), ToLower(Trim(name))) < |old(doc)|)
      ensures sections == Except(old(sections), FindPart(old(doc), ToLower(Trim(name))))
      ensures doc == DeletePart(old(doc), name)
    {
      var lower := ToLower(Trim(name));
      SectionIndexFinds(doc, sectionIndex, lower);
      found := lower in sectionIndex;
      if found {
        RemoveSection(sectionIndex[lower]);
      }
    }

    method RemoveSection(i: nat)
      requires Valid() && i < |sections|
      modifies this
      ensures Valid() && sections == Except(old(sections), i) && doc == Except(old(doc), i)
    {
      DistinctWithout(doc, i);
      StandWithout(sections, doc, i);
      sections := sections[..i] + sections[i + 1..];
      doc := doc[..i] + doc[i + 1..];
      RebuildSectionIndex();
    }

    method RebuildSectionIndex()
      requires Stand(sections, doc) && DistinctNames(doc)
      modifies this`sectionIndex
      ensures SectionIndexFits(doc, sectionIndex)
    {
      sectionIndex := map[];
      for i := 0 to |sections|
        invariant SectionIndexFits(doc[..i], sectionIndex)
      {
        assert doc[..i + 1] == doc[..i] + [doc[i]];
        assert ToLower(doc[i].name) !in sectionIndex;
        SectionIndexAppend(doc[..i], sectionIndex, doc[i]);
        sectionIndex := sectionIndex[ToLower(sections[i].name) := i];
      }
      assert doc[..|sections|] == doc;
    }

    method PutNote(cur: Section, ghost k: nat, e: Element)
      requires Valid() && k < |sections| && sections[k] == cur
      requires !e.Pair? && (e.Comment? ==> e.raw != "")
      modifies this, cur
      ensures Valid() && sections == old(sections) && doc == old(doc)[k := Part(old(doc)[k].name, Put(old(doc)[k].elems, e))]
    {
      cur.AddNote(e);
      Follow(k);
    }

    method PutPair(cur: Section, ghost k: nat, key: string, value: string, sep: string)
      requires Valid() && k < |sections| && sections[k] == cur
      modifies this, cur
      ensures Valid() && sections == old(sections) && doc == old(doc)[k := Part(old(doc)[k].name, Put(old(doc)[k].elems, Pair(key, value, sep)))]
    {
      cur.AddPair(key, value, sep);
      Follow(k);
    }

    /** One scanned line. */
    method TakeLine(cur: Section, ghost k: nat, line: string) returns (next: Section, ghost k': nat)
      requires Valid() && k < |sections| && sections[k] == cur
      modifies this, cur
      ensures Valid() && forall s :: s in sections ==> s in old(sections) || fresh(s)
      ensures Loading(doc, k') == Step(Loading(old(doc), k), line) && k' < |sections| && next == sections[k']
    {
      LineKind(line);
      if IsHeaderLine(line) {
        StepHeader(doc, k, line);
        k' := GoTo(doc, Trim(HeaderText(line))).cur;
        next := SectionNamed(HeaderText(line));
      } else {
        StepItem(doc, k, line);
        TakeItem(cur, k, line);
        next, k' := cur, k;
      }
    }

    method TakeItem(cur: Section, ghost k: nat, line: string)
      requires Valid() && k < |sections| && sections[k] == cur && ParseLine(line).Item?
      modifies this, cur
      ensures Valid() && sections == old(sections)
      ensures doc == old(doc)[k := Part(old(doc)[k].name, Put(old(doc)[k].elems, ParseLine(line).e))]
    {
      ghost var e := ParseLine(line).e;
      var t := Trim(line);
      if t == "" {
        assert e == Blank(line);
        PutNote(cur, k, Blank(line));
      } else if t[0] == '#' || t[0] == ';' {
        assert e == Comment(line);
        PutNote(cur, k, Comment(line));
      } else {
        var i := IndexOf(line, '=');
        if i < |line| {
          var key, value, sep := Trim(line[..i]), Trim(line[i + 1..]), Separator(line[..i], line[i + 1..]);
          assert e == Pair(key, value, sep);
          PutPair(cur, k, key, value, sep);
        } else {
          assert e == Comment(line);
          PutNote(cur, k, Comment(line));
        }
      }
    }

    method WriteTo() returns (out: string)
      requires Valid()
      ensures out == Printed(doc)
    {
      out := "";
      var writtenAnything, lastWasBlank := false, false;
      for i := 0 to |sections|
        invariant OutputIs(Written(doc[..i]), out, writtenAnything, lastWasBlank)
      {
        ghost var before := Written(doc[..i]);
        assert doc[..i + 1] == doc[..i] + [doc[i]];
        WrittenOpened(doc[..i], doc[i]);
        out, writtenAnything, lastWasBlank := WriteSection(sections[i], out, writtenAnything, lastWasBlank, before);
      }
      assert doc[..|sections|] == doc;
    }
  }

  function DeleteIn(doc: seq<Part>, section: string, key: string): seq<Part>
  {
    var i := FindPart(doc, ToLower(Trim(section)));
    if i < |doc| then doc[i := Part(doc[i].name, DeleteElement(doc[i].elems, key))] else doc
  }

  /** What has been written so far and the two flags that go with it. */
  predicate OutputIs(lines: seq<string>, out: string, writtenAnything: bool, lastWasBlank: bool)
  {
    out == Joined(lines) && writtenAnything == (lines != []) && lastWasBlank == (lines != [] && lines[|lines| - 1] == "")
  }

  lemma OneLineMore(lines: seq<string>, out: string, writtenAnything: bool, lastWasBlank: bool, line: string)
    requires OutputIs(lines, out, writtenAnything, lastWasBlank)
    ensures OutputIs(lines + [line], out + line + "\n", true, line == "")
    ensures out + line + "\n" == out + (line + "\n")
  {
    JoinedSum(lines, [line]);
    assert Joined([line]) == line + "\n";
  }

  method WriteSection(s: Section, out: string, writtenAnything: bool, lastWasBlank: bool, ghost lines: seq<string>)
    returns (out': string, writtenAnything': bool, lastWasBlank': bool)
    requires OutputIs(lines, out, writtenAnything, lastWasBlank) && s.Valid()
    ensures OutputIs(Opened(lines, s.name) + ElementLines(s.elements), out', writtenAnything', lastWasBlank')
  {
    out', writtenAnything', lastWasBlank' := out, writtenAnything, lastWasBlank;
    if s.name == "" && |s.elements| == 0 {
      assert Opened(lines, s.name) + ElementLines(s.elements) == lines;
      return;
    }
    ghost var gapped := lines;
    if writtenAnything && s.name != "" && !lastWasBlank {
      OneLineMore(lines, out, writtenAnything, lastWasBlank, "");
      gapped := lines + [""];
      out' := out' + "" + "\n";
      lastWasBlank' := true;
    }
    if s.name != "" {
      OneLineMore(gapped, out', writtenAnything', lastWasBlank', HeaderLine(s.name));
      assert Opened(lines, s.name) == gapped + [HeaderLine(s.name)];
      out' := out' + ("[" + s.name + "]") + "\n";
      writtenAnything', lastWasBlank' := true, false;
    } else {
      assert Opened(lines, s.name) == lines;
    }
    out', writtenAnything', lastWasBlank' := WriteElements(s.elements, out', writtenAnything', lastWasBlank', Opened(lines, s.name));
  }

  method WriteElements(elems: seq<Element>, out: string, writtenAnything: bool, lastWasBlank: bool, ghost lines: seq<string>)
    returns (out': string, writtenAnything': bool, lastWasBlank': bool)
    requires OutputIs(lines, out, writtenAnything, lastWasBlank) && Plain(elems)
    ensures OutputIs(lines + ElementLines(elems), out', writtenAnything', lastWasBlank')
  {
    out', writtenAnything', lastWasBlank' := out, writtenAnything, lastWasBlank;
    ghost var done := lines;
    assert elems[..0] == [] && lines + ElementLines([]) == lines;
    for i := 0 to |elems|
      invariant done == lines + ElementLines(elems[..i])
      invariant OutputIs(done, out', writtenAnything', lastWasBlank')
    {
      ElementsMore(lines, elems, i);
      OneLineMore(done, out', writtenAnything', lastWasBlank', ElementLine(elems[i]));
      done := done + [ElementLine(elems[i])];
      out', lastWasBlank' := WriteElement(elems[i], out');
      writtenAnything' := true;
    }
    assert elems[..|elems|] == elems;
  }

  lemma ElementsMore(lines: seq<string>, elems: seq<Element>, i: nat)
    requires i < |elems|
    ensures lines + ElementLines(elems[..i + 1]) == lines + ElementLines(elems[..i]) + [ElementLine(elems[i])]
  {
    assert elems[..i + 1] == elems[..i] + [elems[i]];
    ElementLinesStep(elems[..i], elems[i]);
  }

  /** One element, and whether it is an empty line. */
  method WriteElement(e: Element, out: string) returns (out': string, blank: bool)
    requires e.Comment? ==> e.raw != ""
    ensures out' == out + ElementLine(e) + "\n" && blank == (ElementLine(e) == "")
  {
    match e {
      case Blank(_) =>
        out', blank := out + "\n", true;
      case Comment(raw) =>
        out', blank := out + raw + "\n", false;
      case Pair(key, value, sep) =>
        var line := key + (if sep == "" then "=" else sep) + value;
        out', blank := out + line + "\n", false;
    }
  }

  /** Load: a new file that stands for the loaded document. */
  method Load(text: string) returns (f: File)
    ensures fresh(f) && (forall s :: s in f.sections ==> fresh(s))
    ensures f.Valid() && f.doc == LoadText(text)
  {
    f := new File();
    var cur := f.SectionNamed("");
    assert f.doc == START.doc && cur == f.sections[0];
    ReadLines(f, cur, Lines(text));
  }

  /** The scanner loop, from a file with nothing but its default section. */
  method ReadLines(f: File, first: Section, lines: seq<string>)
    requires f.Valid() && f.doc == START.doc && first == f.sections[0]
    modifies f, f.sections
    ensures f.Valid() && f.doc == LoadFrom(START, lines).doc
    ensures forall s :: s in f.sections ==> s in old(f.sections) || fresh(s)
  {
    var cur := first;
    ghost var k: nat := 0;
    for i := 0 to |lines|
      invariant f.Valid() && forall s :: s in f.sections ==> s in old(f.sections) || fresh(s)
      invariant k < |f.sections| && f.sections[k] == cur
      invariant Loading(f.doc, k) == LoadFrom(START, lines[..i])
    {
      LoadStep(lines, i);
      assert cur in f.sections;
      cur, k := f.TakeLine(cur, k, lines[i]);
    }
    assert lines[..|lines|] == lines;
  }
}
