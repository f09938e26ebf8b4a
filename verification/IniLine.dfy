/** INI lines as values: what a line means, and what printing an element and scanning it again gives. */
module IniLine {
  import opened Text
  import opened TextLines

  // ---- One line ----

  datatype Element =
    | Blank(raw: string)
    | Comment(raw: string)
    | Pair(key: string, value: string, sep: string)

  datatype Line = Header(name: string) | Item(e: Element)

  predicate Gap(c: char)
  {
    c == ' ' || c == '\t'
  }

  function Separator(rawKey: string, rawValue: string): string
  {
    var left := rawKey != "" && Gap(rawKey[|rawKey| - 1]);
    var right := rawValue != "" && Gap(rawValue[0]);
    if left && right then " = " else if left then " =" else if right then "= " else "="
  }

  predicate IsHeader(t: string)
  {
    |t| >= 2 && t[0] == '[' && t[|t| - 1] == ']'
  }

  predicate IsNote(t: string)
  {
    t != "" && (t[0] == '#' || t[0] == ';')
  }

  function ParseLine(line: string): Line
  {
    var t := Trim(line);
    if t == "" then Item(Blank(line))
    else if IsNote(t) then Item(Comment(line))
    else if IsHeader(t) then Header(Trim(t[1..|t| - 1]))
    else
      var i := IndexOf(line, '=');
      if i < |line| then Item(Pair(Trim(line[..i]), Trim(line[i + 1..]), Separator(line[..i], line[i + 1..])))
      else Item(Comment(line))
  }

  /** Strip one pair of matching quotes. */
  function Unquote(s: string): string
  {
    var t := Trim(s);
    if |t| >= 2 && ((t[0] == '"' && t[|t| - 1] == '"') || (t[0] == '\'' && t[|t| - 1] == '\'')) then t[1..|t| - 1] else t
  }

  /** How an element is printed. */
  function ElementLine(e: Element): string
  {
    match e
    case Blank(_) => ""
    case Comment(raw) => raw
    case Pair(key, value, sep) => key + (if sep == "" then "=" else sep) + value
  }

  /** What is left of an element after printing and scanning it. */
  function Cleaned(e: Element): Element
  {
    match e
    case Blank(_) => Blank("")
    case Comment(raw) => Comment(DropCR(raw))
    case Pair(_, _, _) => e
  }

  /** The text between key and value. */
  predicate IsSeparator(sep: string)
  {
    sep == "=" || sep == " = " || sep == " =" || sep == "= "
  }

  /** Key and value read back from a line they are printed on. */
  predicate Readable(key: string, value: string)
  {
    && Trimmed(key) && Trimmed(value)
    && '=' !in key && '\n' !in key && '\n' !in value
    && !IsNote(key)
    && !(key != "" && key[0] == '[' && value != "" && value[|value| - 1] == ']')
  }

  predicate PairFits(e: Element)
    requires e.Pair?
  {
    IsSeparator(e.sep) && Readable(e.key, e.value)
  }

  /** An element as a single line gives it. */
  predicate Canonical(e: Element)
  {
    match e
    case Blank(_) => true
    case Comment(raw) => '\n' !in raw && ParseLine(raw) == Item(e) && Trim(raw) != ""
    case Pair(_, _, _) => PairFits(e)
  }

  predicate CanonicalName(name: string)
  {
    Trimmed(name) && '\n' !in name
  }

  /** A line with '=', trimmed. */
  function Core(k: string, b: string, c: string, v: string): string
  {
    (if k == "" then "" else k + b) + "=" + (if v == "" then "" else c + v)
  }

  lemma CoreEnds(k: string, b: string, c: string, v: string)
    requires Trimmed(k) && Trimmed(v)
    ensures var t := Core(k, b, c, v);
      Trimmed(t) && t != "" && t[0] == (if k != "" then k[0] else '=') && t[|t| - 1] == (if v != "" then v[|v| - 1] else '=')
  {
  }

  lemma CoreIsTrim(a: string, k: string, b: string, c: string, v: string, d: string)
    requires AllSpace(a) && AllSpace(b) && AllSpace(c) && AllSpace(d) && Trimmed(k) && Trimmed(v)
    ensures Trim(a + k + b + "=" + (c + v + d)) == Core(k, b, c, v)
  {
    CoreEnds(k, b, c, v);
    var lead, trail := if k == "" then a + b else a, if v == "" then c + d else d;
    assert a + k + b == lead + if k == "" then "" else k + b;
    assert c + v + d == (if v == "" then "" else c + v) + trail;
    assert a + k + b + "=" + (c + v + d) == lead + Core(k, b, c, v) + trail;
    TrimIs(lead, Core(k, b, c, v), trail);
  }

  /** The ends of a trimmed line are the first non-space of what comes before '=' and the last of what comes after. */
  lemma CoreOfPair(line: string, i: nat)
    requires i < |line| && line[i] == '='
    ensures var k, v, t := Trim(line[..i]), Trim(line[i + 1..]), Trim(line);
      t != "" && t[0] == (if k != "" then k[0] else '=') && t[|t| - 1] == (if v != "" then v[|v| - 1] else '=')
  {
    var a, b := TrimSplit(line[..i]);
    var c, d := TrimSplit(line[i + 1..]);
    assert line == line[..i] + "=" + line[i + 1..];
    CoreIsTrim(a, Trim(line[..i]), b, c, Trim(line[i + 1..]), d);
    CoreEnds(Trim(line[..i]), b, c, Trim(line[i + 1..]));
  }

  lemma ParsedIsCanonical(line: string)
    requires '\n' !in line
    ensures ParseLine(line).Header? ==> CanonicalName(ParseLine(line).name)
    ensures ParseLine(line).Item? ==> Canonical(ParseLine(line).e)
  {
    var a, b := TrimSplit(line);
    var t := Trim(line);
    TrimKeeps(line, '\n');
    if t != "" && !IsNote(t) {
      if IsHeader(t) {
        var c, d := TrimSplit(t[1..|t| - 1]);
        TrimKeeps(t[1..|t| - 1], '\n');
      } else {
        var i := IndexOf(line, '=');
        if i < |line| {
          CoreOfPair(line, i);
          var c, d := TrimSplit(line[..i]);
          var e, f := TrimSplit(line[i + 1..]);
          TrimKeeps(line[..i], '\n');
          TrimKeeps(line[..i], '=');
          TrimKeeps(line[i + 1..], '\n');
        }
      }
    }
  }

  lemma FirstEquals(x: string, y: string)
    requires '=' !in x
    ensures var line := x + "=" + y;
      IndexOf(line, '=') == |x| && line[..|x|] == x && line[|x| + 1..] == y
  {
    var line := x + "=" + y;
    assert line[..|x|] == x;
    IndexIs(line, '=', |x|);
  }

  function Space(yes: bool): string
  {
    if yes then " " else ""
  }

  lemma {:induction false} SeparatorIs(key: string, left: bool, right: bool, value: string)
    requires Trimmed(key) && Trimmed(value)
    ensures Separator(key + Space(left), Space(right) + value) == Space(left) + "=" + Space(right)
  {
    var k, v := key + Space(left), Space(right) + value;
    assert left ==> k[|k| - 1] == ' ';
    assert right ==> v[0] == ' ';
    assert !left ==> k == key;
    assert !right ==> v == value;
  }

  lemma ReparsedSides(key: string, left: bool, right: bool, value: string)
    requires Trimmed(key) && Trimmed(value)
    ensures Trim(key + Space(left)) == key && Trim(Space(right) + value) == value
  {
    TrimIs("", key, Space(left));
    assert "" + key + Space(left) == key + Space(left);
    TrimIs(Space(right), value, "");
    assert Space(right) + value + "" == Space(right) + value;
  }

  lemma ParsePair(x: string, y: string)
    requires '=' !in x && !IsNote(Trim(x))
    requires Trim(x) == "" || Trim(y) == "" || Trim(x)[0] != '[' || Trim(y)[|Trim(y)| - 1] != ']'
    ensures ParseLine(x + "=" + y) == Item(Pair(Trim(x), Trim(y), Separator(x, y)))
  {
    FirstEquals(x, y);
    CoreOfPair(x + "=" + y, |x|);
  }

  lemma {:induction false} NoTrailingCR(x: string, value: string, sep: string)
    requires IsSeparator(sep) && Trimmed(value)
    ensures DropCR(x + sep + value) == x + sep + value
  {
    var line := x + sep + value;
    assert line[|line| - 1] == if value == "" then sep[|sep| - 1] else value[|value| - 1];
  }

  lemma Sides(sep: string) returns (left: bool, right: bool)
    requires IsSeparator(sep)
    ensures sep == Space(left) + "=" + Space(right)
  {
    left, right := sep == " = " || sep == " =", sep == " = " || sep == "= ";
    assert sep == Space(left) + "=" + Space(right) by {
      if left && right {
        assert Space(left) + "=" + Space(right) == " = ";
      } else if left {
        assert Space(left) + "=" + Space(right) == " =";
      } else if right {
        assert Space(left) + "=" + Space(right) == "= ";
      }
    }
  }

  lemma Regroup(key: string, a: string, b: string, value: string)
    ensures key + (a + "=" + b) + value == (key + a) + "=" + (b + value)
  {
  }

  lemma ReparsedPair(e: Element)
    requires e.Pair? && PairFits(e)
    ensures ParseLine(ElementLine(e)) == Item(e) && DropCR(ElementLine(e)) == ElementLine(e)
  {
    var left, right := Sides(e.sep);
    var x, y := e.key + Space(left), Space(right) + e.value;
    Regroup(e.key, Space(left), Space(right), e.value);
    ReparsedSides(e.key, left, right, e.value);
    SeparatorIs(e.key, left, right, e.value);
    assert '=' !in x;
    ParsePair(x, y);
    NoTrailingCR(e.key, e.value, e.sep);
  }

  lemma ReparsedComment(raw: string)
    requires Canonical(Comment(raw))
    ensures ParseLine(DropCR(raw)) == Item(Comment(DropCR(raw)))
  {
    if DropCR(raw) != raw {
      var cut := DropCR(raw);
      var a, b := TrimSplit(raw);
      var t := Trim(raw);
      var u := a + t;
      assert raw == u + b && u[|u| - 1] == t[|t| - 1];
      assert cut == a + Trim(raw) + b[..|b| - 1];
      TrimIs(a, Trim(raw), b[..|b| - 1]);
      if IndexOf(cut, '=') < |cut| {
        assert raw[..IndexOf(cut, '=')] == cut[..IndexOf(cut, '=')];
        IndexIs(raw, '=', IndexOf(cut, '='));
      }
    }
  }

  /** A printed element scans back to itself, up to the raw text of blanks and a trailing carriage return of a comment. */
  lemma Reparsed(e: Element)
    requires Canonical(e)
    ensures ParseLine(DropCR(ElementLine(e))) == Item(Cleaned(e))
  {
    match e
    case Blank(_) =>
      TrimOfTrimmed("");
    case Comment(raw) =>
      ReparsedComment(raw);
    case Pair(_, _, _) =>
      ReparsedPair(e);
  }

  lemma {:induction false} ReparsedHeader(name: string)
    requires CanonicalName(name)
    ensures ParseLine(DropCR("[" + name + "]")) == Header(name)
  {
    var line := "[" + name + "]";
    TrimOfTrimmed(line);
    TrimOfTrimmed(name);
    assert line[1..|line| - 1] == name;
  }
}
