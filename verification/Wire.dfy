/** The Protocol Buffers wire format as the manifest decoder reads it: varints, 64-bit arithmetic, fields. */
module Wire {
  import opened Text
  import opened Depot

  const TWO_TO_32: int := 0x1_0000_0000
  const TWO_TO_63: int := 0x8000_0000_0000_0000
  const TWO_TO_64: int := 0x1_0000_0000_0000_0000

  /** A conversion from uint64 to int. */
  function AsInt(v: nat): (r: int)
    ensures r == v || r == v - TWO_TO_64
    ensures v < TWO_TO_64 ==> -TWO_TO_63 <= r < TWO_TO_63
  {
    if v < TWO_TO_63 then v else v - TWO_TO_64
  }

  /** A sum of two ints, wrapped around. */
  function WrapInt(x: int): (r: int)
    ensures r == x || r == x - TWO_TO_64 || r == x + TWO_TO_64
    ensures -TWO_TO_64 <= x < TWO_TO_64 ==> -TWO_TO_63 <= r < TWO_TO_63
  {
    if x >= TWO_TO_63 then x - TWO_TO_64 else if x < -TWO_TO_63 then x + TWO_TO_64 else x
  }

  // ---- Varints ----

  /** A value and the number of bytes it took; no bytes means no varint. */
  datatype Varint = Varint(value: nat, size: nat)

  /** x, shifted left by i groups of seven bits. */
  function Shift(x: nat, i: nat): nat
  {
    if i == 0 then x else 128 * Shift(x, i - 1)
  }

  lemma {:induction false} ShiftSum(x: nat, y: nat, i: nat)
    ensures Shift(x + y, i) == Shift(x, i) + Shift(y, i)
  {
    if i > 0 {
      ShiftSum(x, y, i - 1);
    }
  }

  lemma {:induction false} ShiftMore(x: nat, i: nat)
    ensures Shift(128 * x, i) == Shift(x, i + 1)
  {
    if i > 0 {
      ShiftMore(x, i - 1);
    }
  }

  lemma {:induction false} ShiftOrdered(x: nat, y: nat, i: nat)
    requires x <= y
    ensures Shift(x, i) <= Shift(y, i)
  {
    ShiftSum(x, y - x, i);
  }

  lemma {:induction false} NineGroups()
    ensures Shift(1, 9) == TWO_TO_63
  {
    assert Shift(1, 3) == 0x20_0000;
    assert Shift(1, 6) == 0x400_0000_0000;
  }

  /** The bytes from position i on, seven bits each added above what was read; ten bytes at most, modulo 2^64. */
  function ReadVarint(data: Bytes, i: nat, value: nat): (v: Varint)
    requires i <= |data|
    ensures v.size == 0 ==> v.value == 0
    ensures v.size != 0 ==> i < v.size <= |data|
    decreases |data| - i
  {
    if i == |data| then Varint(0, 0) else
      var value' := (value + Shift(data[i] % 128, i)) % TWO_TO_64;
      if data[i] < 128 then Varint(value', i + 1)
      else if i + 1 >= 10 then Varint(0, 0)
      else ReadVarint(data, i + 1, value')
  }

  method DecodeVarint(data: Bytes) returns (v: Varint)
    ensures v == ReadVarint(data, 0, 0)
  {
    var value: nat, shift, i := 0, 0, 0;
    while i < |data|
      invariant i <= |data| && shift == 7 * i && i < 10
      invariant ReadVarint(data, i, value) == ReadVarint(data, 0, 0)
      decreases |data| - i
    {
      value := (value + Shift(data[i] % 128, i)) % TWO_TO_64;
      if data[i] < 128 {
        return Varint(value, i + 1);
      }
      shift := shift + 7;
      if shift >= 64 {
        return Varint(0, 0);
      }
      i := i + 1;
    }
    v := Varint(0, 0);
  }

  /** The first n groups of seven bits, least significant first. */
  function Groups(data: Bytes, n: nat): nat
    requires n <= |data|
  {
    if n == 0 then 0 else Groups(data, n - 1) + Shift(data[n - 1] % 128, n - 1)
  }

  predicate Continues(data: Bytes, n: nat)
    requires n <= |data|
  {
    forall j :: 0 <= j < n ==> data[j] >= 128
  }

  lemma {:induction false} ReadsGroups(data: Bytes, i: nat, value: nat, k: nat)
    requires i <= k < |data| && k < 10 && Continues(data, k) && data[k] < 128 && value == Groups(data, i) % TWO_TO_64
    ensures ReadVarint(data, i, value) == Varint(Groups(data, k + 1) % TWO_TO_64, k + 1)
    decreases k - i
  {
    var value' := (value + Shift(data[i] % 128, i)) % TWO_TO_64;
    ModSum(Groups(data, i), Shift(data[i] % 128, i));
    if i < k {
      ReadsGroups(data, i + 1, value', k);
    }
  }

  lemma ModSum(a: nat, b: nat)
    ensures (a % TWO_TO_64 + b) % TWO_TO_64 == (a + b) % TWO_TO_64
  {
    var q := a / TWO_TO_64;
    assert a + b == a % TWO_TO_64 + b + q * TWO_TO_64;
    ModTimes(a % TWO_TO_64 + b, q);
  }

  lemma {:induction false} ModTimes(a: nat, q: nat)
    ensures (a + q * TWO_TO_64) % TWO_TO_64 == a % TWO_TO_64
  {
    if q > 0 {
      ModTimes(a, q - 1);
      assert a + q * TWO_TO_64 == (a + (q - 1) * TWO_TO_64) + TWO_TO_64;
    }
  }

  lemma {:induction false} ReadsNothing(data: Bytes, i: nat, value: nat)
    requires i <= |data| && Continues(data, if |data| < 10 then |data| else 10) && (i < 10 || |data| == i)
    ensures ReadVarint(data, i, value) == Varint(0, 0)
    decreases |data| - i
  {
    if i < |data| && i + 1 < 10 {
      ReadsNothing(data, i + 1, (value + Shift(data[i] % 128, i)) % TWO_TO_64);
    }
  }

  /** A varint ends at the first byte without the continuation bit, if one of the first ten is: its value is that of all groups
      up to there modulo 2^64. Otherwise there is none. */
  lemma {:induction false} VarintExactly(data: Bytes, k: nat)
    ensures k < |data| && k < 10 && Continues(data, k) && data[k] < 128 ==>
              ReadVarint(data, 0, 0) == Varint(Groups(data, k + 1) % TWO_TO_64, k + 1)
    ensures Continues(data, if |data| < 10 then |data| else 10) ==> ReadVarint(data, 0, 0) == Varint(0, 0)
  {
    if k < |data| && k < 10 && Continues(data, k) && data[k] < 128 {
      ReadsGroups(data, 0, 0, k);
    }
    if Continues(data, if |data| < 10 then |data| else 10) {
      ReadsNothing(data, 0, 0);
    }
  }

  /** Base 128, least significant group first. */
  function VarintBytes(v: nat): (b: Bytes)
    ensures b != []
  {
    if v < 128 then [v] else [128 + v % 128] + VarintBytes(v / 128)
  }

  lemma {:induction false} ReadWritten(data: Bytes, i: nat, value: nat, w: nat, rest: Bytes)
    requires i <= |data| && data[i..] == VarintBytes(w) + rest
    requires value < Shift(1, i) && value + Shift(w, i) < TWO_TO_64 && i < 10
    ensures ReadVarint(data, i, value) == Varint(value + Shift(w, i), i + |VarintBytes(w)|)
    decreases w
  {
    var low, high := w % 128, w / 128;
    SevenBits(value, low, high, i);
    assert data[i] == VarintBytes(w)[0] && data[i] % 128 == low;
    assert (value + Shift(low, i)) % TWO_TO_64 == value + Shift(low, i);
    if w >= 128 {
      assert data[i + 1..] == VarintBytes(high) + rest;
      NineBytes(w, value, i);
      ReadWritten(data, i + 1, value + Shift(low, i), high, rest);
    } else {
      assert high == 0;
      ShiftSum(0, 0, i + 1);
    }
  }

  /** Taking seven bits off a number. */
  lemma SevenBits(value: nat, low: nat, high: nat, i: nat)
    requires value < Shift(1, i) && low < 128
    ensures value + Shift(low, i) < Shift(1, i + 1)
    ensures Shift(low, i) + Shift(high, i + 1) == Shift(low + 128 * high, i)
    ensures Shift(low, i) <= Shift(low + 128 * high, i)
  {
    ShiftOrdered(low, 127, i);
    ShiftSum(1, 127, i);
    ShiftMore(1, i);
    ShiftSum(low, 128 * high, i);
    ShiftMore(high, i);
  }

  /** A number that still needs a continuation byte after nine does not fit in 64 bits. */
  lemma NineBytes(w: nat, value: nat, i: nat)
    requires w >= 128 && i < 10 && value + Shift(w, i) < TWO_TO_64
    ensures i < 9
  {
    NineGroups();
    ShiftOrdered(128, w, i);
    ShiftMore(1, i);
  }

  /** Reading what was written gives the value back and takes exactly its bytes. */
  lemma {:induction false} VarintRoundTrip(v: nat, rest: Bytes)
    requires v < TWO_TO_64
    ensures ReadVarint(VarintBytes(v) + rest, 0, 0) == Varint(v, |VarintBytes(v)|)
  {
    var data := VarintBytes(v) + rest;
    assert data[0..] == data;
    ReadWritten(data, 0, 0, v, rest);
  }

  // ---- Fields ----

  /** One field on the wire. */
  datatype Field =
    | Number(num: nat, value: nat)
    | Long(num: nat, bytes: Bytes)
    | Blob(num: nat, bytes: Bytes)
    | Word(num: nat, bytes: Bytes)

  predicate FieldFits(f: Field)
  {
    && 8 * f.num + 5 < TWO_TO_64
    && match f
       case Number(_, value) => value < TWO_TO_64
       case Long(_, bytes) => |bytes| == 8
       case Blob(_, bytes) => |bytes| < TWO_TO_63
       case Word(_, bytes) => |bytes| == 4
  }

  function WireType(f: Field): nat
  {
    match f case Number(_, _) => 0 case Long(_, _) => 1 case Blob(_, _) => 2 case Word(_, _) => 5
  }

  function Tag(f: Field): nat
  {
    8 * f.num + WireType(f)
  }

  function Body(f: Field): Bytes
  {
    match f
    case Number(_, value) => VarintBytes(value)
    case Long(_, bytes) => bytes
    case Blob(_, bytes) => VarintBytes(|bytes|) + bytes
    case Word(_, bytes) => bytes
  }

  function FieldBytes(f: Field): (b: Bytes)
    ensures b != []
  {
    VarintBytes(Tag(f)) + Body(f)
  }

  function FieldsBytes(fields: seq<Field>): Bytes
  {
    if fields == [] then [] else FieldBytes(fields[0]) + FieldsBytes(fields[1..])
  }

  /** The varint at a position. */
  function VarintAt(data: Bytes, o: nat): (v: Varint)
    requires o <= |data|
    ensures o + v.size <= |data|
  {
    ReadVarint(data[o..], 0, 0)
  }

  /** Where `length` bytes from position o on end: in the data, past its end, or at a position no slice can have. */
  datatype Extent = Upto(end: nat) | TooLong | Wrapped

  function ExtentOf(size: nat, o: nat, length: nat): (e: Extent)
    requires o <= size < TWO_TO_63 && length < TWO_TO_64
    ensures e.Upto? ==> e.end == o + length <= size
  {
    var end := WrapInt(o + AsInt(length));
    if end > size then TooLong else if end < o then Wrapped else Upto(end)
  }

  /** Exactly the lengths that reach 2^63 wrap around. */
  lemma WrappedExactly(size: nat, o: nat, length: nat)
    requires o <= size < TWO_TO_63 && length < TWO_TO_64
    ensures ExtentOf(size, o, length).Wrapped? <==> o + length >= TWO_TO_63
    ensures ExtentOf(size, o, length).Upto? <==> o + length <= size
  {
  }

  lemma {:induction false} VarintValue(data: Bytes, i: nat, value: nat)
    requires i <= |data|
    ensures ReadVarint(data, i, value).value < TWO_TO_64
    decreases |data| - i
  {
    if i < |data| && data[i] >= 128 && i + 1 < 10 {
      VarintValue(data, i + 1, (value + Shift(data[i] % 128, i)) % TWO_TO_64);
    }
  }

  /** The varint written at a position is read there. */
  lemma {:induction false} VarintRead(data: Bytes, o: nat, v: nat, rest: Bytes)
    requires o <= |data| && data[o..] == VarintBytes(v) + rest && v < TWO_TO_64
    ensures VarintAt(data, o) == Varint(v, |VarintBytes(v)|)
    ensures data[o + |VarintBytes(v)|..] == rest
  {
    VarintRoundTrip(v, rest);
    assert data[o + |VarintBytes(v)|..] == data[o..][|VarintBytes(v)|..];
  }

  // ---- Reading one field ----

  /** What one turn of a field loop finds: nothing more; a value cut short, so that reading goes on at `next`; four bytes
      cut short; a field; or a slice that cannot be taken. */
  datatype Token = Stop | Broken(next: nat) | Short(next: nat) | Got(field: Field, next: nat) | Crash

  function Lex(data: Bytes, o: nat): (t: Token)
    requires o < |data| < TWO_TO_63
    ensures t.Broken? || t.Short? || t.Got? ==> o < t.next <= |data|
    ensures t.Got? && t.field.Blob? ==> |t.field.bytes| < |data|
    ensures t.Got? && t.field.Word? ==> |t.field.bytes| == 4
  {
    var tag := VarintAt(data, o);
    if tag.size == 0 then Stop else
      LexBody(data, tag.value / 8, tag.value % 8, o + tag.size)
  }

  /** The value of a field, behind its tag. */
  function LexBody(data: Bytes, num: nat, wireType: nat, o: nat): (t: Token)
    requires 0 < o <= |data| < TWO_TO_63
    ensures t.Broken? || t.Short? || t.Got? ==> o <= t.next <= |data|
    ensures t.Got? && t.field.Blob? ==> |t.field.bytes| < |data|
    ensures t.Got? && t.field.Word? ==> |t.field.bytes| == 4
  {
    match wireType
    case 0 =>
      var v := VarintAt(data, o);
      if v.size == 0 then Broken(o) else Got(Number(num, v.value), o + v.size)
    case 2 => LexBlob(data, num, o)
    case 5 => if o + 4 > |data| then Short(o) else Got(Word(num, data[o..o + 4]), o + 4)
    case 1 => if o + 8 > |data| then Stop else Got(Long(num, data[o..o + 8]), o + 8)
    case _ => Stop
  }

  function LexBlob(data: Bytes, num: nat, o: nat): (t: Token)
    requires 0 < o <= |data| < TWO_TO_63
    ensures !t.Stop? && !t.Short?
    ensures t.Broken? || t.Got? ==> o <= t.next <= |data|
    ensures t.Got? ==> t.field.Blob? && |t.field.bytes| < |data|
  {
    VarintValue(data[o..], 0, 0);
    var length := VarintAt(data, o);
    if length.size == 0 then Broken(o) else
      match ExtentOf(|data|, o + length.size, length.value)
      case TooLong => Broken(o + length.size)
      case Wrapped => Crash
      case Upto(end) => Got(Blob(num, data[o + length.size..end]), end)
  }

  /** A field written at a position is read there, and reading goes on right behind it. */
  lemma FieldRead(data: Bytes, o: nat, f: Field, rest: Bytes)
    requires o < |data| < TWO_TO_63 && FieldFits(f) && data[o..] == FieldBytes(f) + rest
    ensures Lex(data, o) == Got(f, o + |FieldBytes(f)|)
    ensures data[o + |FieldBytes(f)|..] == rest
  {
    TagRead(data, o, f, rest);
    BodyRead(data, o + |VarintBytes(Tag(f))|, f, rest);
  }

  lemma TagRead(data: Bytes, o: nat, f: Field, rest: Bytes)
    requires o < |data| && FieldFits(f) && data[o..] == FieldBytes(f) + rest
    ensures VarintAt(data, o) == Varint(Tag(f), |VarintBytes(Tag(f))|)
    ensures Tag(f) / 8 == f.num && Tag(f) % 8 == WireType(f)
    ensures data[o + |VarintBytes(Tag(f))|..] == Body(f) + rest
  {
    assert FieldBytes(f) + rest == VarintBytes(Tag(f)) + (Body(f) + rest);
    VarintRead(data, o, Tag(f), Body(f) + rest);
  }

  lemma BodyRead(data: Bytes, o: nat, f: Field, rest: Bytes)
    requires 0 < o <= |data| < TWO_TO_63 && FieldFits(f) && data[o..] == Body(f) + rest
    ensures LexBody(data, f.num, WireType(f), o) == Got(f, o + |Body(f)|)
    ensures data[o + |Body(f)|..] == rest
  {
    assert data[o + |Body(f)|..] == data[o..][|Body(f)|..];
    if f.Number? {
      VarintRead(data, o, f.value, rest);
    } else if f.Blob? {
      BlobRead(data, o, f, rest);
    } else {
      assert data[o..o + |f.bytes|] == data[o..][..|f.bytes|];
    }
  }

  lemma BlobRead(data: Bytes, o: nat, f: Field, rest: Bytes)
    requires 0 < o <= |data| < TWO_TO_63 && f.Blob? && FieldFits(f) && data[o..] == Body(f) + rest
    ensures LexBlob(data, f.num, o) == Got(f, o + |Body(f)|)
  {
    var head := VarintBytes(|f.bytes|);
    assert Body(f) + rest == head + (f.bytes + rest);
    VarintRead(data, o, |f.bytes|, f.bytes + rest);
    var o1 := o + |head|;
    assert data[o1..o1 + |f.bytes|] == data[o1..][..|f.bytes|] == f.bytes;
    WrappedExactly(|data|, o1, |f.bytes|);
  }
}
