/** What INI text means, line by line: which pair, comment or header a line is, and which value a loaded file answers. */
module IniRead {
  import opened Text
  import opened TextLines
  import opened IniLine
  import opened IniDocument
  import opened IniEdit

  // ---- Values ----

  predicate IsQuote(q: char)
  {
    q == '"' || q == '\''
  }

  /** One pair of equal quotes around the value goes, with the white space outside, and nothing else. */
  lemma UnquoteStrips(a: string, q: char, s: string, b: string)
    requires AllSpace(a) && AllSpace(b) && IsQuote(q)
    ensures Unquote(a + ([q] + s + [q]) + b) == s
  {
    var t := [q] + s + [q];
    TrimIs(a, t, b);
    assert t[1..|t| - 1] == s;
  }

  /** A value not between equal quotes only loses the white space around it. */
  lemma UnquoteKeeps(a: string, t: string, b: string)
    requires AllSpace(a) && AllSpace(b) && Trimmed(t)
    requires forall q, s :: IsQuote(q) ==> t != [q] + s + [q]
    ensures Unquote(a + t + b) == t
  {
    TrimIs(a, t, b);
    if |t| >= 2 && t[0] == t[|t| - 1] {
      assert t == [t[0]] + t[1..|t| - 1] + [t[0]];
    }
  }

  // ---- Lines ----

  lemma BlankLine(a: string)
    requires AllSpace(a)
    ensures ParseLine(a) == Item(Blank(a))
  {
    TrimIs(a, "", "");
    assert a + "" + "" == a;
  }

  /** A number sign or a semicolon in front makes the whole line a comment. */
  lemma CommentLine(a: string, mark: char, rest: string)
    requires AllSpace(a) && (mark == '#' || mark == ';')
    ensures ParseLine(a + [mark] + rest) == Item(Comment(a + [mark] + rest))
  {
    var s := [mark] + rest;
    var y := TrimRightSplit(s);
    StartStays(s, TrimRight(s), y);
    Regrouped(a, [mark], rest);
    Regrouped(a, TrimRight(s), y);
    TrimIs(a, TrimRight(s), y);
  }

  lemma StartStays(s: string, t: string, b: string)
    requires s == t + b && s != "" && !IsSpace(s[0]) && AllSpace(b)
    ensures t != "" && t[0] == s[0]
  {
    assert t == "" ==> s == b;
  }

  /** Brackets around a line make it a header, whatever stands between them. */
  lemma SectionLine(a: string, name: string, b: string)
    requires AllSpace(a) && AllSpace(b)
    ensures ParseLine(a + ("[" + name + "]") + b) == Header(Trim(name))
  {
    var t := "[" + name + "]";
    TrimIs(a, t, b);
    assert t[1..|t| - 1] == name;
  }

  predicate EndsInGap(s: string)
  {
    s != "" && (s[|s| - 1] == ' ' || s[|s| - 1] == '\t')
  }

  predicate StartsWithGap(s: string)
  {
    s != "" && (s[0] == ' ' || s[0] == '\t')
  }

  /** A key, the first equal sign and a value, with white space anywhere around them; a blank or a tab beside the sign
      is remembered as one blank. */
  lemma PairLine(a: string, key: string, b: string, c: string, value: string, d: string)
    requires AllSpace(a) && AllSpace(b) && AllSpace(c) && AllSpace(d)
    requires Trimmed(key) && Trimmed(value) && '=' !in key && !IsNote(key)
    requires key == "" || value == "" || key[0] != '[' || value[|value| - 1] != ']'
    ensures ParseLine(a + key + b + "=" + (c + value + d)) ==
              Item(Pair(key, value, Space(EndsInGap(a + key + b)) + "=" + Space(StartsWithGap(c + value + d))))
  {
    var x, y := a + key + b, c + value + d;
    TrimIs(a, key, b);
    TrimIs(c, value, d);
    ParsePair(x, y);
    SeparatorMeans(x, y);
  }

  lemma SeparatorMeans(x: string, y: string)
    ensures Separator(x, y) == Space(EndsInGap(x)) + "=" + Space(StartsWithGap(y))
  {
    assert " " + "=" + " " == " = ";
    assert " " + "=" + "" == " =";
    assert "" + "=" + " " == "= ";
  }

  /** A line that is nothing else is kept as a comment. */
  lemma OtherLine(a: string, t: string, b: string)
    requires AllSpace(a) && AllSpace(b) && Trimmed(t) && t != "" && '=' !in a + t + b
    requires !IsNote(t) && (t[0] != '[' || t[|t| - 1] != ']')
    ensures ParseLine(a + t + b) == Item(Comment(a + t + b))
  {
    TrimIs(a, t, b);
  }

  // ---- Files ----

  /** The lower-case section that lines go to behind these lines. */
  function InForce(lines: seq<string>): string
  {
    if lines == [] then "" else
      match ParseLine(lines[|lines| - 1])
      case Header(name) => ToLower(name)
      case Item(_) => InForce(lines[..|lines| - 1])
  }

  predicate Sets(line: string, k: string)
  {
    ParseLine(line).Item? && HasKey(ParseLine(line).e, k)
  }

  /** The value on the last line that sets key k while section n is in force. */
  function LastSet(lines: seq<string>, n: string, k: string): Option<string>
  {
    if lines == [] then None else
      var front, line := lines[..|lines| - 1], lines[|lines| - 1];
      if Sets(line, k) && InForce(front) == n then Some(ParseLine(line).e.value) else LastSet(front, n, k)
  }

  /** The value a document has for lower-case names. */
  function Held(doc: seq<Part>, n: string, k: string): Option<string>
  {
    var i := FindPart(doc, n);
    if i < |doc| then ValueOf(doc[i].elems, k) else None
  }

  predicate Distinct(doc: seq<Part>)
  {
    DistinctNames(doc) && forall p :: p in doc ==> DistinctKeys(p.elems)
  }

  /** A line with a repeated key wins over the earlier one, and leaves every other key alone. */
  lemma {:induction false} PutFinds(elems: seq<Element>, e: Element, k: string)
    requires DistinctKeys(elems)
    ensures DistinctKeys(Put(elems, e))
    ensures ValueOf(Put(elems, e), k) == if HasKey(e, k) then Some(e.value) else ValueOf(elems, k)
  {
    var r := Put(elems, e);
    assert DistinctKeys(r);
    var j := FindKey(elems, k);
    if HasKey(e, k) {
      FindKeyIs(r, k, j);
    } else if j < |elems| {
      assert r[j] == elems[j];
      FindKeyIs(r, k, j);
    } else {
      assert forall x :: 0 <= x < |r| ==> !HasKey(r[x], k);
    }
  }

  lemma {:induction false} FindPartIs(doc: seq<Part>, n: string, i: nat)
    requires DistinctNames(doc) && i < |doc| && ToLower(doc[i].name) == n
    ensures FindPart(doc, n) == i
  {
  }

  lemma {:induction false} HeaderHolds(doc: seq<Part>, name: string, n: string, k: string)
    requires Distinct(doc)
    ensures var s := GoTo(doc, name); Distinct(s.doc) && ToLower(s.doc[s.cur].name) == ToLower(name) && Held(s.doc, n, k) == Held(doc, n, k)
  {
    var s := GoTo(doc, name);
    var i := FindPart(doc, n);
    if s.cur == |doc| {
      assert DistinctNames(s.doc);
      if i < |doc| {
        FindPartIs(s.doc, n, i);
      } else if n == ToLower(name) {
        FindPartIs(s.doc, n, |doc|);
        assert s.doc[|doc|].elems == [];
      } else {
        assert forall j :: 0 <= j < |s.doc| ==> ToLower(s.doc[j].name) != n;
      }
    }
  }

  lemma {:induction false} ItemHolds(doc: seq<Part>, cur: nat, e: Element, n: string, k: string)
    requires Distinct(doc) && cur < |doc|
    ensures var after := doc[cur := Part(doc[cur].name, Put(doc[cur].elems, e))];
      Distinct(after)
      && Held(after, n, k) == if HasKey(e, k) && ToLower(doc[cur].name) == n then Some(e.value) else Held(doc, n, k)
  {
    var after := doc[cur := Part(doc[cur].name, Put(doc[cur].elems, e))];
    assert doc[cur] in doc;
    PutFinds(doc[cur].elems, e, k);
    assert DistinctNames(after);
    var i := FindPart(doc, n);
    if i < |doc| {
      FindPartIs(after, n, i);
      if ToLower(doc[cur].name) == n {
        FindPartIs(doc, n, cur);
      }
    } else {
      assert forall j :: 0 <= j < |after| ==> ToLower(after[j].name) == ToLower(doc[j].name);
    }
  }

  lemma {:induction false} LoadHolds(lines: seq<string>, n: string, k: string)
    ensures var s := LoadFrom(START, lines);
      Distinct(s.doc) && ToLower(s.doc[s.cur].name) == InForce(lines) && Held(s.doc, n, k) == LastSet(lines, n, k)
  {
    if lines != [] {
      var front, line := lines[..|lines| - 1], lines[|lines| - 1];
      var s := LoadFrom(START, front);
      LoadHolds(front, n, k);
      match ParseLine(line)
      case Header(name) =>
        HeaderHolds(s.doc, name, n, k);
      case Item(e) =>
        ItemHolds(s.doc, s.cur, e, n, k);
    }
  }

  /** A loaded file answers what the last line for that key in that section says, in any casing. */
  lemma {:induction false} LoadedAnswers(t: string, section: string, key: string)
    ensures Lookup(LoadText(t), section, key) == LastSet(Lines(t), ToLower(Trim(section)), ToLower(Trim(key)))
  {
    LoadHolds(Lines(t), ToLower(Trim(section)), ToLower(Trim(key)));
  }

  // ---- Written files ----

  predicate Begins(lines: seq<string>, front: seq<string>)
  {
    |front| <= |lines| && lines[..|front|] == front
  }

  lemma BeginsMore(lines: seq<string>, front: seq<string>, more: seq<string>)
    requires Begins(lines, front)
    ensures Begins(lines + more, front)
  {
    assert (lines + more)[..|front|] == lines[..|front|];
  }

  /** Later parts are written behind the earlier ones. */
  lemma {:induction false} WrittenGrows(front: seq<Part>, rest: seq<Part>)
    ensures Begins(Written(front + rest), Written(front))
  {
    if rest == [] {
      assert front + rest == front;
    } else {
      var n := |rest| - 1;
      WrittenGrows(front, rest[..n]);
      assert front + rest == (front + rest[..n]) + [rest[n]];
      PartWritten(front + rest[..n], rest[n], Written(front));
    }
  }

  lemma {:induction false} PartWritten(doc: seq<Part>, p: Part, front: seq<string>)
    requires Begins(Written(doc), front)
    ensures Begins(Written(doc + [p]), front)
  {
    WrittenStep(doc, p);
    BeginsMore(Written(doc), front, Opening(Written(doc), p.name) + ElementLines(p.elems));
  }

  /** Whether the lines before leave a section without an empty line in front of it. */
  predicate Crowded(before: seq<string>)
  {
    before != [] && before[|before| - 1] != ""
  }

  lemma HeaderOpens(before: seq<string>, name: string)
    requires name != ""
    ensures var o := Opened(before, name);
      |o| == |before| + (if Crowded(before) then 2 else 1) && o[|o| - 1] == "[" + name + "]" && (|o| > 1 ==> o[|o| - 2] == "")
  {
  }

  /** Every header line is the first line or follows an empty one: the one that ends the section before, or else one more. */
  lemma {:induction false} HeadersStandApart(front: seq<Part>, p: Part, rest: seq<Part>)
    requires p.name != ""
    ensures var lines, i := Written(front + [p] + rest), |Written(front)| + if Crowded(Written(front)) then 1 else 0;
      i < |lines| && lines[i] == "[" + p.name + "]" && (i > 0 ==> lines[i - 1] == "")
  {
    var o := Opened(Written(front), p.name);
    WrittenOpened(front, p);
    WrittenGrows(front + [p], rest);
    HeaderOpens(Written(front), p.name);
    BeginsTwice(Written(front + [p] + rest), o, ElementLines(p.elems));
  }

  lemma BeginsTwice(lines: seq<string>, o: seq<string>, more: seq<string>)
    requires Begins(lines, o + more)
    ensures |o| <= |lines| && forall k :: 0 <= k < |o| ==> lines[k] == o[k]
  {
    assert forall k :: 0 <= k < |o| ==> lines[..|o + more|][k] == (o + more)[k];
  }
}
