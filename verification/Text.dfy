/** String helpers shared by the models: ASCII case folding and decimal rendering. */
module Text {

  datatype Option<+T> = None | Some(value: T)

  function LowerChar(c: char): char
  {
    if 'A' <= c <= 'Z' then (c as int + 32) as char else c
  }

  function ToLower(s: string): (r: string)
    ensures |r| == |s|
  {
    seq(|s|, i requires 0 <= i < |s| => LowerChar(s[i]))
  }

  /** Go's strings.EqualFold. */
  predicate EqualFold(a: string, b: string)
  {
    ToLower(a) == ToLower(b)
  }

  predicate HasPrefix(s: string, p: string)
  {
    |p| <= |s| && s[..|p|] == p
  }

  predicate HasSuffix(s: string, p: string)
  {
    |p| <= |s| && s[|s| - |p|..] == p
  }

  function Digit(d: nat): (c: char)
    requires d < 10
  {
    ('0' as int + d) as char
  }

  /** Go's "%d" of a non-negative number. */
  function Decimal(n: nat): (s: string)
    ensures s != []
    ensures forall i :: 0 <= i < |s| ==> '0' <= s[i] <= '9'
  {
    if n < 10 then [Digit(n)] else Decimal(n / 10) + [Digit(n % 10)]
  }

  /** Different numbers render differently. */
  lemma {:induction false} DecimalInjective(a: nat, b: nat)
    requires Decimal(a) == Decimal(b)
    ensures a == b
  {
    var s, t := Decimal(a), Decimal(b);
    assert s[|s| - 1] == Digit(a % 10) && t[|t| - 1] == Digit(b % 10);
    if a >= 10 && b >= 10 {
      assert s[..|s| - 1] == Decimal(a / 10) && t[..|t| - 1] == Decimal(b / 10);
      DecimalInjective(a / 10, b / 10);
    }
  }

  // ---- Prefixes, for loops over sequences ----

  lemma PrefixMore<T>(before: seq<T>, list: seq<T>, j: nat)
    requires j < |list|
    ensures before + list[..j + 1] == before + list[..j] + [list[j]]
  {
  }

  lemma {:induction false} PrefixEnds<T>(before: seq<T>, list: seq<T>)
    ensures before + list[..0] == before && before + list[..|list|] == before + list
  {
    assert list[..|list|] == list;
  }

  lemma Regrouped<T>(a: seq<T>, b: seq<T>, c: seq<T>)
    ensures a + b + c == a + (b + c)
  {
  }
}
