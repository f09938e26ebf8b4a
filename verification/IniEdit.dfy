/** Editing INI documents: a section is a case-insensitive map that keeps everything else in place. */
module IniEdit {
  import opened Text
  import opened TextLines
  import opened IniLine
  import opened IniDocument

  /** Set: replace key and value where the key stands, or append a pair. */
  function SetElement(elems: seq<Element>, key: string, value: string): seq<Element>
  {
    var i := FindKey(elems, ToLower(Trim(key)));
    if i < |elems| then elems[i := Pair(Trim(key), value, elems[i].sep)] else elems + [Pair(Trim(key), value, "=")]
  }

  function DeleteElement(elems: seq<Element>, key: string): seq<Element>
  {
    var i := FindKey(elems, ToLower(Trim(key)));
    if i < |elems| then elems[..i] + elems[i + 1..] else elems
  }

  /** Everything in a section but one key: the other pairs, comments and blank lines, in order. */
  function Without(elems: seq<Element>, k: string): seq<Element>
  {
    if elems == [] then [] else
      var e := elems[|elems| - 1];
      Without(elems[..|elems| - 1], k) + if HasKey(e, k) then [] else [e]
  }

  /** The value of a lower-case key. */
  function ValueOf(elems: seq<Element>, k: string): Option<string>
  {
    var i := FindKey(elems, k);
    if i < |elems| then Some(elems[i].value) else None
  }

  lemma {:induction false} WithoutSum(a: seq<Element>, b: seq<Element>, k: string)
    ensures Without(a + b, k) == Without(a, k) + Without(b, k)
  {
    if b == [] {
      assert a + b == a;
    } else {
      assert (a + b)[..|a + b| - 1] == a + b[..|b| - 1];
      WithoutSum(a, b[..|b| - 1], k);
    }
  }

  lemma {:induction false} FindKeyIs(elems: seq<Element>, k: string, i: nat)
    requires DistinctKeys(elems)
    requires i < |elems| && HasKey(elems[i], k)
    ensures FindKey(elems, k) == i
  {
  }

  /** Setting keeps everything but this key, in place. */
  lemma {:induction false} SetKeepsOthers(elems: seq<Element>, key: string, value: string)
    ensures Without(SetElement(elems, key, value), ToLower(Trim(key))) == Without(elems, ToLower(Trim(key)))
  {
    var lower := ToLower(Trim(key));
    var i := FindKey(elems, lower);
    if i < |elems| {
      WithoutReplaced(elems, lower, i, Pair(Trim(key), value, elems[i].sep));
    } else {
      WithoutMore(elems, lower, Pair(Trim(key), value, "="));
    }
  }

  lemma WithoutReplaced(elems: seq<Element>, k: string, i: nat, e: Element)
    requires i < |elems| && HasKey(elems[i], k) && HasKey(e, k)
    ensures Without(elems[i := e], k) == Without(elems, k)
  {
    var a, b := elems[..i], elems[i + 1..];
    WithoutOne(a, elems[i], b, k);
    WithoutOne(a, e, b, k);
    assert elems == a + [elems[i]] + b && elems[i := e] == a + [e] + b;
  }

  lemma {:induction false} WithoutMore(elems: seq<Element>, k: string, e: Element)
    requires HasKey(e, k)
    ensures Without(elems + [e], k) == Without(elems, k)
  {
    WithoutOne(elems, e, [], k);
    assert elems + [e] + [] == elems + [e];
  }

  /** A pair that is set again stays where it stands, with the new casing of its key and its old separator. */
  lemma {:induction false} SetKeepsPlace(elems: seq<Element>, key: string, value: string, i: nat)
    requires DistinctKeys(elems) && i < |elems|
    ensures |SetElement(elems, key, value)| == |elems| + if ValueOf(elems, ToLower(Trim(key))).Some? then 0 else 1
    ensures SetElement(elems, key, value)[i] == if HasKey(elems[i], ToLower(Trim(key))) then Pair(Trim(key), value, elems[i].sep) else elems[i]
  {
    if HasKey(elems[i], ToLower(Trim(key))) {
      FindKeyIs(elems, ToLower(Trim(key)), i);
    }
  }

  /** Setting makes the section answer the new value for this key in any casing, and the old ones for all others. */
  lemma SetFinds(elems: seq<Element>, key: string, value: string, k: string)
    requires DistinctKeys(elems)
    ensures DistinctKeys(SetElement(elems, key, value))
    ensures ValueOf(SetElement(elems, key, value), k) == if k == ToLower(Trim(key)) then Some(value) else ValueOf(elems, k)
  {
    var r, lower := SetElement(elems, key, value), ToLower(Trim(key));
    assert DistinctKeys(r);
    var j := FindKey(elems, k);
    if k == lower {
      FindKeyIs(r, k, j);
    } else if j < |elems| {
      assert r[j] == elems[j];
      FindKeyIs(r, k, j);
    } else {
      assert forall x :: 0 <= x < |r| ==> !HasKey(r[x], k);
    }
  }

  /** Deleting leaves everything but this key, in place. */
  lemma {:induction false} DeleteKeepsOthers(elems: seq<Element>, key: string)
    requires DistinctKeys(elems)
    ensures DeleteElement(elems, key) == Without(elems, ToLower(Trim(key)))
  {
    var lower := ToLower(Trim(key));
    var i := FindKey(elems, lower);
    if i < |elems| {
      WithoutAt(elems, lower, i);
    } else {
      WithoutAbsent(elems, lower);
    }
  }

  lemma {:induction false} WithoutTheOne(a: seq<Element>, e: Element, b: seq<Element>, k: string)
    requires Free(a, k) && HasKey(e, k) && Free(b, k)
    ensures Without(a + [e] + b, k) == a + b
  {
    WithoutOne(a, e, b, k);
    WithoutAbsent(a, k);
    WithoutAbsent(b, k);
  }

  lemma {:induction false} WithoutAt(elems: seq<Element>, k: string, i: nat)
    requires DistinctKeys(elems) && i < |elems| && HasKey(elems[i], k) && Free(elems[..i], k)
    ensures Without(elems, k) == elems[..i] + elems[i + 1..]
  {
    OnlyOne(elems, k, i);
    WithoutTheOne(elems[..i], elems[i], elems[i + 1..], k);
    assert elems == elems[..i] + [elems[i]] + elems[i + 1..];
  }

  lemma OnlyOne(elems: seq<Element>, k: string, i: nat)
    requires DistinctKeys(elems) && i < |elems| && HasKey(elems[i], k)
    ensures Free(elems[i + 1..], k)
  {
  }

  lemma {:induction false} WithoutOne(a: seq<Element>, e: Element, b: seq<Element>, k: string)
    requires HasKey(e, k)
    ensures Without(a + [e] + b, k) == Without(a, k) + Without(b, k)
  {
    WithoutSum(a + [e], b, k);
    WithoutSum(a, [e], k);
    assert Without([e], k) == [];
  }

  /** Deleting makes the section forget this key in any casing. */
  lemma DeleteFinds(elems: seq<Element>, key: string, k: string)
    requires DistinctKeys(elems)
    ensures DistinctKeys(DeleteElement(elems, key))
    ensures ValueOf(DeleteElement(elems, key), k) == if k == ToLower(Trim(key)) then None else ValueOf(elems, k)
  {
    var lower := ToLower(Trim(key));
    var i := FindKey(elems, lower);
    if i < |elems| {
      DistinctWithoutOne(elems, i);
      FindWithoutOne(elems, i, k);
    }
  }

  lemma {:induction false} DistinctWithoutOne(elems: seq<Element>, i: nat)
    requires DistinctKeys(elems) && i < |elems|
    ensures DistinctKeys(elems[..i] + elems[i + 1..])
  {
    var r := elems[..i] + elems[i + 1..];
    assert forall x :: 0 <= x < |r| ==> r[x] == elems[if x < i then x else x + 1];
  }

  lemma FindWithoutOne(elems: seq<Element>, i: nat, k: string)
    requires DistinctKeys(elems) && i < |elems| && elems[i].Pair?
    ensures ValueOf(elems[..i] + elems[i + 1..], k) == if k == ToLower(elems[i].key) then None else ValueOf(elems, k)
  {
    var r := elems[..i] + elems[i + 1..];
    var j := FindKey(elems, k);
    DistinctWithoutOne(elems, i);
    if j < |elems| && j != i {
      var j' := if j < i then j else j - 1;
      assert r[j'] == elems[j];
      FindKeyIs(r, k, j');
    } else {
      forall x | 0 <= x < |r| ensures !HasKey(r[x], k) {
        assert r[x] == elems[if x < i then x else x + 1];
      }
    }
  }

  predicate Free(elems: seq<Element>, k: string)
  {
    forall i :: 0 <= i < |elems| ==> !HasKey(elems[i], k)
  }

  lemma {:induction false} WithoutAbsent(elems: seq<Element>, k: string)
    requires Free(elems, k)
    ensures Without(elems, k) == elems
  {
    if elems != [] {
      WithoutAbsent(elems[..|elems| - 1], k);
    }
  }

  /** Set on a whole document. */
  function SetIn(doc: seq<Part>, section: string, key: string, value: string): seq<Part>
  {
    var s := GoTo(doc, Trim(section));
    var p := s.doc[s.cur];
    s.doc[s.cur := Part(p.name, SetElement(p.elems, key, value))]
  }

  /** All but the element at position i, if there is one. */
  function Except<T>(list: seq<T>, i: nat): seq<T>
  {
    if i < |list| then list[..i] + list[i + 1..] else list
  }

  /** DeleteSection on a whole document. */
  function DeletePart(doc: seq<Part>, name: string): seq<Part>
  {
    Except(doc, FindPart(doc, ToLower(Trim(name))))
  }

  /** A pair that keeps its meaning when printed: a section name on one line, a trimmed one-line value, and a key that
      reads back as one. */
  predicate Settable(section: string, key: string, value: string)
  {
    OneLine(Trim(section)) && Readable(Trim(key), value)
  }

  lemma GoToIsGood(doc: seq<Part>, name: string)
    requires Good(doc) && CanonicalName(name)
    ensures Good(GoTo(doc, name).doc)
  {
  }

  lemma SetIsGood(doc: seq<Part>, section: string, key: string, value: string)
    requires Good(doc) && Settable(section, key, value)
    ensures Good(SetIn(doc, section, key, value))
  {
    var a, b := TrimSplit(section);
    GoToIsGood(doc, Trim(section));
    var s := GoTo(doc, Trim(section));
    var p := s.doc[s.cur];
    assert p in s.doc;
    SetElementIsGood(p.elems, key, value);
  }

  lemma SetElementIsGood(elems: seq<Element>, key: string, value: string)
    requires GoodElements(elems) && Readable(Trim(key), value)
    ensures GoodElements(SetElement(elems, key, value))
  {
    SetFinds(elems, key, value, "");
    var i := FindKey(elems, ToLower(Trim(key)));
    assert i < |elems| ==> elems[i] in elems;
  }

  lemma GoToFinds(doc: seq<Part>, name: string)
    ensures FindPart(GoTo(doc, name).doc, ToLower(name)) == GoTo(doc, name).cur
  {
    var r := GoTo(doc, name);
    assert forall i :: 0 <= i < |doc| ==> r.doc[i] == doc[i];
    assert ToLower(r.doc[r.cur].name) == ToLower(name);
  }

  /** In a good document a pair that was set reads back after writing and loading exactly if it is settable. */
  lemma SetSurvivesReload(doc: seq<Part>, section: string, key: string, value: string)
    requires Good(doc)
    ensures Lookup(LoadText(Printed(SetIn(doc, section, key, value))), section, key) == Some(value)
            <==> Settable(section, key, value)
  {
    var loaded := LoadText(Printed(SetIn(doc, section, key, value)));
    if Settable(section, key, value) {
      SetIsGood(doc, section, key, value);
      LookupsSurvive(SetIn(doc, section, key, value), section, key);
      SetIsFound(doc, section, key, value);
    }
    if Lookup(loaded, section, key) == Some(value) {
      LoadIsGood(Printed(SetIn(doc, section, key, value)));
      FoundIsSettable(loaded, section, key, value);
    }
  }

  /** Whatever a loaded document answers could have been set. */
  lemma FoundIsSettable(doc: seq<Part>, section: string, key: string, value: string)
    requires Good(doc) && Lookup(doc, section, key) == Some(value)
    ensures Settable(section, key, value)
  {
    var i := FindPart(doc, ToLower(Trim(section)));
    assert doc[i] in doc;
    var j := FindKey(doc[i].elems, ToLower(Trim(key)));
    var e := doc[i].elems[j];
    assert e in doc[i].elems && PairFits(e);
    OneLineFolds(doc[i].name, Trim(section));
    var a, b := TrimSplit(key);
    ReadableFolds(e.key, Trim(key), value);
  }

  lemma SameSpecial(a: string, b: string, i: nat)
    requires EqualFold(a, b) && i < |a|
    ensures i < |b| && IsSpace(a[i]) == IsSpace(b[i])
    ensures a[i] == b[i] || (a[i] !in "\n=#;[" && b[i] !in "\n=#;[")
  {
    assert LowerChar(a[i]) == ToLower(a)[i] == ToLower(b)[i] == LowerChar(b[i]);
  }

  lemma OneLineFolds(a: string, b: string)
    requires EqualFold(a, b) && OneLine(a)
    ensures OneLine(b)
  {
    forall i | 0 <= i < |b| ensures b[i] != '\n' {
      SameSpecial(b, a, i);
    }
  }

  lemma ReadableFolds(a: string, b: string, value: string)
    requires EqualFold(a, b) && Readable(a, value) && Trimmed(b)
    ensures Readable(b, value)
  {
    forall i | 0 <= i < |b| ensures b[i] != '\n' && b[i] != '=' {
      SameSpecial(b, a, i);
    }
    if b != "" {
      SameSpecial(b, a, 0);
    }
  }

  lemma SetIsFound(doc: seq<Part>, section: string, key: string, value: string)
    requires forall p :: p in doc ==> DistinctKeys(p.elems)
    ensures Lookup(SetIn(doc, section, key, value), section, key) == Some(value)
  {
    var s := GoTo(doc, Trim(section));
    FindPartSame(s.doc, SetIn(doc, section, key, value), ToLower(Trim(section)));
    GoToFinds(doc, Trim(section));
    SetFinds(s.doc[s.cur].elems, key, value, ToLower(Trim(key)));
  }

  lemma {:induction false} ElementLinesSum(a: seq<Element>, b: seq<Element>)
    ensures ElementLines(a + b) == ElementLines(a) + ElementLines(b)
  {
    if b == [] {
      assert a + b == a;
    } else {
      var n := |b| - 1;
      ElementLinesSum(a, b[..n]);
      ElementLinesStep(a + b[..n], b[n]);
      assert a + b == a + b[..n] + [b[n]];
    }
  }
}
