/** Text as the scanners see it: white space and lines. */
module TextLines {
  import opened Text

  // ---- White space ----

  /** Go's unicode.IsSpace. */
  predicate IsSpace(c: char)
  {
    || '\t' <= c <= '\r' || c == ' ' || c == '\U{0085}' || c == '\U{00A0}' || c == '\U{1680}' || '\U{2000}' <= c <= '\U{200A}'
    || c == '\U{2028}' || c == '\U{2029}' || c == '\U{202F}' || c == '\U{205F}' || c == '\U{3000}'
  }

  predicate AllSpace(s: string)
  {
    forall i :: 0 <= i < |s| ==> IsSpace(s[i])
  }

  predicate Trimmed(s: string)
  {
    s == "" || (!IsSpace(s[0]) && !IsSpace(s[|s| - 1]))
  }

  function TrimLeft(s: string): string
  {
    if s != "" && IsSpace(s[0]) then TrimLeft(s[1..]) else s
  }

  function TrimRight(s: string): string
  {
    if s != "" && IsSpace(s[|s| - 1]) then TrimRight(s[..|s| - 1]) else s
  }

  /** Go's strings.TrimSpace. */
  function Trim(s: string): string
  {
    TrimRight(TrimLeft(s))
  }

  lemma {:induction false} TrimLeftSplit(s: string) returns (a: string)
    ensures s == a + TrimLeft(s) && AllSpace(a)
    ensures TrimLeft(s) == "" || !IsSpace(TrimLeft(s)[0])
  {
    a := "";
    if s != "" && IsSpace(s[0]) {
      a := TrimLeftSplit(s[1..]);
      a := [s[0]] + a;
    }
  }

  lemma {:induction false} TrimRightSplit(s: string) returns (b: string)
    ensures s == TrimRight(s) + b && AllSpace(b)
    ensures TrimRight(s) == "" || !IsSpace(TrimRight(s)[|TrimRight(s)| - 1])
  {
    b := "";
    if s != "" && IsSpace(s[|s| - 1]) {
      b := TrimRightSplit(s[..|s| - 1]);
      b := b + [s[|s| - 1]];
    }
  }

  /** Trimming removes white space at both ends, and nothing else. */
  lemma TrimSplit(s: string) returns (a: string, b: string)
    ensures s == a + Trim(s) + b && AllSpace(a) && AllSpace(b) && Trimmed(Trim(s))
  {
    a := TrimLeftSplit(s);
    b := TrimRightSplit(TrimLeft(s));
    assert Trim(s) != "" ==> Trim(s)[0] == TrimLeft(s)[0];
  }

  lemma {:induction false} TrimLeftOf(a: string, m: string)
    requires AllSpace(a) && (m == "" || !IsSpace(m[0]))
    ensures TrimLeft(a + m) == m
  {
    if a == "" {
      assert a + m == m;
    } else {
      assert (a + m)[1..] == a[1..] + m;
      TrimLeftOf(a[1..], m);
    }
  }

  lemma {:induction false} TrimRightOf(m: string, b: string)
    requires AllSpace(b) && (m == "" || !IsSpace(m[|m| - 1]))
    ensures TrimRight(m + b) == m
  {
    if b == "" {
      assert m + b == m;
    } else {
      assert (m + b)[..|m + b| - 1] == m + b[..|b| - 1];
      TrimRightOf(m, b[..|b| - 1]);
    }
  }

  /** Any way of peeling white space off down to a trimmed core is what Trim computes. */
  lemma TrimIs(a: string, m: string, b: string)
    requires AllSpace(a) && AllSpace(b) && Trimmed(m)
    ensures Trim(a + m + b) == m
  {
    if m == "" {
      assert a + m + b == (a + b) + "";
      TrimLeftOf(a + b, "");
    } else {
      assert a + m + b == a + (m + b);
      TrimLeftOf(a, m + b);
      TrimRightOf(m, b);
    }
  }

  lemma {:induction false} TrimOfTrimmed(m: string)
    requires Trimmed(m)
    ensures Trim(m) == m
  {
    TrimIs("", m, "");
    assert "" + m + "" == m;
  }

  lemma TrimKeeps(s: string, c: char)
    requires c !in s
    ensures c !in Trim(s)
  {
    var a, b := TrimSplit(s);
    assert forall x :: x in Trim(s) ==> x in a + Trim(s) + b;
  }

  // ---- Lines ----

  /** Position of the first c, or the length. */
  function IndexOf(s: string, c: char): (i: nat)
    ensures i <= |s| && c !in s[..i] && (i < |s| ==> s[i] == c)
  {
    if s == "" || s[0] == c then 0 else 1 + IndexOf(s[1..], c)
  }

  lemma {:induction false} IndexIs(s: string, c: char, i: nat)
    requires i < |s| && s[i] == c && c !in s[..i]
    ensures IndexOf(s, c) == i
  {
    assert i > 0 ==> s[0] in s[..i];
    if i > 0 {
      forall x | x in s[1..][..i - 1] ensures x in s[..i] {
        assert s[1..][..i - 1] == s[..i][1..];
      }
      IndexIs(s[1..], c, i - 1);
    }
  }

  /** The scanner drops one carriage return at the end of a line. */
  function DropCR(line: string): string
  {
    if line != "" && line[|line| - 1] == '\r' then line[..|line| - 1] else line
  }

  /** The scanner's lines: split at line feeds, one carriage return dropped from each, no line after a final line feed. */
  function Lines(t: string): seq<string>
    decreases |t|
  {
    if t == "" then [] else
      var i := IndexOf(t, '\n');
      if i == |t| then [DropCR(t)] else [DropCR(t[..i])] + Lines(t[i + 1..])
  }

  /** Each line followed by a line feed. */
  function Joined(lines: seq<string>): string
  {
    if lines == [] then "" else lines[0] + "\n" + Joined(lines[1..])
  }

  function DropCRs(lines: seq<string>): (r: seq<string>)
    ensures |r| == |lines|
  {
    if lines == [] then [] else DropCRs(lines[..|lines| - 1]) + [DropCR(lines[|lines| - 1])]
  }

  lemma {:induction false} DropCRsSum(a: seq<string>, b: seq<string>)
    ensures DropCRs(a + b) == DropCRs(a) + DropCRs(b)
  {
    if b == [] {
      assert a + b == a;
    } else {
      var n := |b| - 1;
      assert (a + b)[..|a + b| - 1] == a + b[..n];
      DropCRsSum(a, b[..n]);
    }
  }

  predicate OneLine(s: string)
  {
    '\n' !in s
  }

  lemma {:induction false} LinesOfJoined(lines: seq<string>)
    requires forall l :: l in lines ==> OneLine(l)
    ensures Lines(Joined(lines)) == DropCRs(lines)
  {
    if lines != [] {
      var l, t := lines[0], Joined(lines);
      assert l in lines;
      assert t[..|l|] == l && t[|l|] == '\n' && t[|l| + 1..] == Joined(lines[1..]);
      IndexIs(t, '\n', |l|);
      LinesOfJoined(lines[1..]);
      DropCRsSum([l], lines[1..]);
      assert [l] + lines[1..] == lines;
      assert DropCRs([l]) == [DropCR(l)];
    }
  }

  lemma {:induction false} LinesAreOneLine(t: string)
    ensures forall l :: l in Lines(t) ==> OneLine(l)
    decreases |t|
  {
    if t != "" && IndexOf(t, '\n') < |t| {
      LinesAreOneLine(t[IndexOf(t, '\n') + 1..]);
    }
  }

  lemma {:induction false} JoinedInjective(a: seq<string>, b: seq<string>)
    requires Joined(a) == Joined(b)
    requires (forall l :: l in a ==> OneLine(l)) && forall l :: l in b ==> OneLine(l)
    ensures a == b
  {
    if a != [] && b != [] {
      var t := Joined(a);
      assert a[0] in a && b[0] in b;
      assert t[..|a[0]|] == a[0] && t[|a[0]|] == '\n' && t[|a[0]| + 1..] == Joined(a[1..]);
      assert t[..|b[0]|] == b[0] && t[|b[0]|] == '\n' && t[|b[0]| + 1..] == Joined(b[1..]);
      IndexIs(t, '\n', |a[0]|);
      IndexIs(t, '\n', |b[0]|);
      JoinedInjective(a[1..], b[1..]);
    }
  }

  lemma {:induction false} JoinedSum(a: seq<string>, b: seq<string>)
    ensures Joined(a + b) == Joined(a) + Joined(b)
  {
    if a == [] {
      assert a + b == b;
    } else {
      assert (a + b)[0] == a[0] && (a + b)[1..] == a[1..] + b;
      JoinedSum(a[1..], b);
    }
  }
}
