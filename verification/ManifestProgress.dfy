/** When the manifest decoder gets to the end of its input, and the inputs on which it panics or goes round for ever. */
module ManifestProgress {
  import opened Text
  import opened Depot
  import opened Wire
  import opened Crypto
  import opened Proto

  /** The length written at a position, if the field there has one, ends below 2^63. */
  predicate LengthFits(data: Bytes, o: nat)
    requires o < |data|
  {
    var tag := VarintAt(data, o);
    tag.size == 0 || tag.value % 8 != 2 ||
    var o1 := o + tag.size;
    var length := VarintAt(data, o1);
    length.size == 0 || o1 + length.size + length.value < TWO_TO_63
  }

  /** Field loops of chunks and files crash exactly on lengths that do not fit. */
  lemma CrashExactly(data: Bytes, o: nat)
    requires o < |data| < TWO_TO_63
    ensures Lex(data, o).Crash? <==> !LengthFits(data, o)
  {
    var tag := VarintAt(data, o);
    if tag.size != 0 && tag.value % 8 == 2 {
      BlobCrash(data, tag.value / 8, o + tag.size);
    }
  }

  lemma BlobCrash(data: Bytes, num: nat, o: nat)
    requires 0 < o <= |data| < TWO_TO_63
    ensures LexBlob(data, num, o).Crash? <==> VarintAt(data, o).size != 0 && o + VarintAt(data, o).size + VarintAt(data, o).value >= TWO_TO_63
  {
    VarintValue(data[o..], 0, 0);
    var length := VarintAt(data, o);
    WrappedExactly(|data|, o + length.size, length.value);
  }

  /** With a length that fits the cursor moves on. With one that does not, a file mapping panics and
      any other field sends the cursor back before its end. */
  lemma TurnAdvances(data: Bytes, o: nat)
    requires o < |data| < TWO_TO_63
    ensures LengthFits(data, o) ==> !Turn(data, o).Blowup? && (Turn(data, o).Jump? ==> Turn(data, o).to > o)
    ensures !LengthFits(data, o) ==>
              var o1 := o + VarintAt(data, o).size;
              if VarintAt(data, o).value / 8 == 1 then Turn(data, o).Blowup?
              else Turn(data, o).Jump? && Turn(data, o).to < o1 + VarintAt(data, o1).size
  {
    var tag := VarintAt(data, o);
    var o1 := o + tag.size;
    if tag.size != 0 {
      BlobCrash(data, 1, o1);
      SkipAdvances(data, tag.value % 8, o1);
    }
  }

  lemma SkipAdvances(data: Bytes, wireType: nat, o: nat)
    requires 0 < o <= |data| < TWO_TO_63
    ensures var length := VarintAt(data, o);
      if wireType == 2 && length.size != 0 && o + length.size + length.value >= TWO_TO_63
      then SkipTo(data, wireType, o) < o + length.size
      else SkipTo(data, wireType, o) >= o
  {
    VarintValue(data[o..], 0, 0);
  }

  // ---- Inputs that are decoded ----

  /** Every length the field loop of a chunk comes to fits. */
  ghost predicate ChunkFits(data: Bytes, o: nat)
    requires |data| < TWO_TO_63
    decreases |data| - o
  {
    o < |data| ==> LengthFits(data, o) && (NextField(Lex(data, o)) ==> ChunkFits(data, Lex(data, o).next))
  }

  /** The loop goes on behind this token. */
  predicate NextField(t: Token)
  {
    t.Got? || t.Broken? || t.Short?
  }

  /** Every length the field loop of a file comes to fits, those in its chunks included. */
  ghost predicate FileFits(data: Bytes, o: nat)
    requires |data| < TWO_TO_63
    decreases |data| - o
  {
    o < |data| ==>
      && LengthFits(data, o) && ChunkFieldFits(Lex(data, o), |data|)
      && (Lex(data, o).Got? || Lex(data, o).Broken? ==> FileFits(data, Lex(data, o).next))
  }

  ghost predicate ChunkFieldFits(t: Token, n: nat)
    requires n < TWO_TO_63
  {
    t.Got? && t.field.Blob? && t.field.num == 6 && |t.field.bytes| < n ==> ChunkFits(t.field.bytes, 0)
  }

  /** The chunk decoder panics exactly when it comes to a length that does not fit. */
  lemma {:induction false} ChunkPanicsExactly(data: Bytes, o: nat, c: ChunkInfo)
    requires |data| < TWO_TO_63
    ensures if ChunkFits(data, o) then ParseChunk(data, o, c).Value? else ParseChunk(data, o, c) == Panics
    decreases |data| - o
  {
    if o < |data| {
      CrashExactly(data, o);
      var t := Lex(data, o);
      if NextField(t) {
        ChunkPanicsExactly(data, t.next, ChunkAfter(c, t));
      }
    }
  }

  lemma {:induction false} FieldPanicsExactly(path: Bytes -> string, e: FileEntry, t: Token, n: nat)
    requires n < TWO_TO_63 && !t.Crash? && (t.Got? && t.field.Blob? ==> |t.field.bytes| < n)
    ensures if ChunkFieldFits(t, n) then FileAfter(path, e, t).Value? else FileAfter(path, e, t) == Panics
  {
    if t.Got? && t.field.Blob? && t.field.num == 6 {
      ChunkPanicsExactly(t.field.bytes, 0, NO_CHUNK);
    }
  }

  /** So does the file decoder. */
  lemma {:induction false} FilePanicsExactly(path: Bytes -> string, data: Bytes, o: nat, e: FileEntry)
    requires |data| < TWO_TO_63
    ensures if FileFits(data, o) then ParseFile(path, data, o, e).Value? else ParseFile(path, data, o, e) == Panics
    decreases |data| - o
  {
    if o < |data| {
      CrashExactly(data, o);
      var t := Lex(data, o);
      if !t.Crash? {
        FieldPanicsExactly(path, e, t, |data|);
        if FileAfter(path, e, t).Value? && (t.Got? || t.Broken?) {
          FilePanicsExactly(path, data, t.next, FileAfter(path, e, t).value);
        }
      }
    }
  }

  function Remaining(data: Bytes, o: nat): nat
  {
    if o < |data| then |data| - o else 0
  }

  /** Every length the payload loop comes to fits, those in its files included. */
  ghost predicate PayloadFits(data: Bytes, o: nat)
    requires |data| < TWO_TO_63
    decreases Remaining(data, o)
  {
    o < |data| ==>
      && LengthFits(data, o) && MappingFits(Turn(data, o), |data|)
      && (TurnAdvances(data, o);
          Turn(data, o).Finish? || PayloadFits(data, CursorAfter(Turn(data, o))))
  }

  ghost predicate MappingFits(m: Move, n: nat)
    requires n < TWO_TO_63
  {
    m.Mapping? && |m.bytes| < n ==> FileFits(m.bytes, 0)
  }

  /** Before anything panics, the payload loop comes to an unknown field whose length does not fit: the cursor goes back. */
  ghost predicate GoesBack(data: Bytes, o: nat)
    requires |data| < TWO_TO_63
    decreases Remaining(data, o)
  {
    && o < |data|
    && if !LengthFits(data, o) then Turn(data, o).Jump? else
       && MappingFits(Turn(data, o), |data|)
       && (TurnAdvances(data, o);
           !Turn(data, o).Finish? && GoesBack(data, CursorAfter(Turn(data, o))))
  }

  lemma {:induction false} TurnPanicsExactly(path: Bytes -> string, files: seq<FileEntry>, m: Move, n: nat)
    requires n < TWO_TO_63 && !m.Blowup? && (m.Mapping? ==> |m.bytes| < n)
    ensures if MappingFits(m, n) then FilesAfter(path, files, m).Value? else FilesAfter(path, files, m) == Panics
  {
    if m.Mapping? {
      FilePanicsExactly(path, m.bytes, 0, NO_FILE);
    }
  }

  /** Unless the cursor is sent back, it strictly increases, and decoding comes to an end exactly when every length
      it comes to fits; otherwise it panics. */
  lemma {:induction false} PayloadComesToAnEnd(path: Bytes -> string, data: Bytes, o: nat, seen: set<int>, files: seq<FileEntry>)
    requires |data| < TWO_TO_63 && !GoesBack(data, o)
    requires forall i :: i in seen ==> i < o
    ensures if PayloadFits(data, o) then Run(path, data, o, seen, files).Value? else Run(path, data, o, seen, files) == Panics
    decreases Remaining(data, o)
  {
    if o < |data| {
      TurnAdvances(data, o);
      var m := Turn(data, o);
      if LengthFits(data, o) {
        TurnPanicsExactly(path, files, m, |data|);
        if FilesAfter(path, files, m).Value? && !m.Finish? {
          PayloadComesToAnEnd(path, data, CursorAfter(m), seen + {o}, FilesAfter(path, files, m).value);
        }
      }
    }
  }

  /** Where every length fits the cursor is never sent back. */
  lemma {:induction false} FittingGoesOn(data: Bytes, o: nat)
    requires |data| < TWO_TO_63 && PayloadFits(data, o)
    ensures !GoesBack(data, o)
    decreases Remaining(data, o)
  {
    if o < |data| {
      TurnAdvances(data, o);
      if !Turn(data, o).Finish? {
        FittingGoesOn(data, CursorAfter(Turn(data, o)));
      }
    }
  }

  // ---- Inputs that are not ----

  lemma {:induction false} SizeIs(v: nat, n: nat)
    requires Shift(1, n) <= v < Shift(1, n + 1)
    ensures |VarintBytes(v)| == n + 1
  {
    if n == 0 {
      assert Shift(1, 1) == 128 * Shift(1, 0);
    } else {
      SizeIs(v / 128, n - 1);
    }
  }

  /** Numbers of 64 bits take ten bytes. */
  lemma {:induction false} TenBytes(v: nat)
    requires TWO_TO_63 <= v < TWO_TO_64
    ensures |VarintBytes(v)| == 10
  {
    NineGroups();
    SizeIs(v, 9);
  }

  /** Tag and length of a length-delimited field. */
  function Head(num: nat, length: nat): Bytes
  {
    VarintBytes(8 * num + 2) + VarintBytes(length)
  }

  lemma {:induction false} HeadRead(num: nat, length: nat, rest: Bytes)
    requires 8 * num + 2 < TWO_TO_64 && length < TWO_TO_64
    ensures var data, o := Head(num, length) + rest, |VarintBytes(8 * num + 2)|;
      && VarintAt(data, 0) == Varint(8 * num + 2, o)
      && VarintAt(data, o) == Varint(length, |VarintBytes(length)|)
  {
    var data, o := Head(num, length) + rest, |VarintBytes(8 * num + 2)|;
    assert data[0..] == VarintBytes(8 * num + 2) + (VarintBytes(length) + rest);
    VarintRead(data, 0, 8 * num + 2, VarintBytes(length) + rest);
    assert data[o..] == VarintBytes(length) + rest;
    VarintRead(data, o, length, rest);
  }

  /** An unknown field with a length that is minus its own header size, as a 64-bit number, is read again and again. */
  lemma {:induction false} NegativeLengthHangs(path: Bytes -> string, num: nat, rest: Bytes)
    requires num != 1 && 8 * num + 2 < TWO_TO_64 && |rest| < 0x1_0000_0000
    ensures |VarintBytes(8 * num + 2)| <= 10
    ensures var data := Head(num, TWO_TO_64 - |VarintBytes(8 * num + 2)| - 10) + rest;
      |data| < TWO_TO_63 && Run(path, data, 0, {}, []) == Hangs
  {
    AtMostTen(8 * num + 2);
    var o := |VarintBytes(8 * num + 2)|;
    var length := TWO_TO_64 - o - 10;
    var data := Head(num, length) + rest;
    TenBytes(length);
    HeadRead(num, length, rest);
    assert Turn(data, 0) == Jump(0);
    assert Run(path, data, 0, {0}, []) == Hangs;
    assert {} + {0} == {0};
  }

  lemma {:induction false} AtMostTen(v: nat)
    requires v < TWO_TO_64
    ensures |VarintBytes(v)| <= 10
  {
    VarintRoundTrip(v, []);
    ReadsAtMostTen(VarintBytes(v) + [], 0, 0);
  }

  lemma {:induction false} ReadsAtMostTen(data: Bytes, i: nat, value: nat)
    requires i <= |data| && i < 10
    ensures ReadVarint(data, i, value).size <= 10
    decreases |data| - i
  {
    if i < |data| && data[i] >= 128 && i + 1 < 10 {
      ReadsAtMostTen(data, i + 1, (value + Shift(data[i] % 128, i)) % TWO_TO_64);
    }
  }

  /** A file mapping whose length does not fit panics. */
  lemma {:induction false} HugeMappingPanics(path: Bytes -> string, length: nat, rest: Bytes)
    requires length < TWO_TO_64 && |Head(1, length)| + length >= TWO_TO_63 && |rest| < 0x1_0000_0000
    ensures |Head(1, length) + rest| < TWO_TO_63
    ensures Run(path, Head(1, length) + rest, 0, {}, []) == Panics
  {
    AtMostTen(10);
    AtMostTen(length);
    HeadRead(1, length, rest);
    TurnAdvances(Head(1, length) + rest, 0);
  }

  /** What comes of the payload. */
  function Finished(r: Outcome<seq<FileEntry>>): Outcome<Parsed>
  {
    match r
    case Value(files) => Value(if files == [] then Failed(NoEntries) else Files(files))
    case Panics => Panics
    case Hangs => Hangs
  }

  /** Sum and size are both compared modulo 2^32. A length within eight of 2^32 panics, unless the size modulo 2^32 is
      smaller still; every other length is refused exactly when its end lies behind the size modulo 2^32. */
  lemma HeaderLengths(path: Bytes -> string, data: Bytes)
    requires 8 <= |data| < TWO_TO_63 && LittleEndian(data[0..4]) == PAYLOAD_MAGIC
    ensures var n := LittleEndian(data[4..8]);
      var end := if 8 + n < TWO_TO_32 then 8 + n else 8 + n - TWO_TO_32;
      && (Decoded(path, data) == Value(Failed(LengthOverflow)) <==> end > |data| % TWO_TO_32)
      && (end <= |data| % TWO_TO_32 && 8 + n >= TWO_TO_32 ==> Decoded(path, data) == Panics)
      && (end <= |data| % TWO_TO_32 && 8 + n < TWO_TO_32 ==>
            8 + n <= |data| && Decoded(path, data) == Finished(Run(path, data[8..8 + n], 0, {}, [])))
  {
    var n := LittleEndian(data[4..8]);
    Reduced(8 + n);
    NoMoreThan(|data|);
  }

  /** Data below 4 GiB: refused exactly when the payload does not end in it, panics exactly on the lengths above. */
  lemma {:induction false} SmallHeaderLengths(path: Bytes -> string, data: Bytes)
    requires 8 <= |data| < TWO_TO_32 && LittleEndian(data[0..4]) == PAYLOAD_MAGIC
    ensures var n := LittleEndian(data[4..8]);
      && (n >= TWO_TO_32 - 8 ==> Decoded(path, data) == Panics)
      && (Decoded(path, data) == Value(Failed(LengthOverflow)) <==> |data| < 8 + n < TWO_TO_32)
  {
    HeaderLengths(path, data);
    Reduced(|data|);
  }

  /** Data of 4 GiB or more is refused although its payload ends in it. */
  lemma {:induction false} LargePayloadRefused(path: Bytes -> string, data: Bytes)
    requires TWO_TO_32 <= |data| < TWO_TO_63 && LittleEndian(data[0..4]) == PAYLOAD_MAGIC
    requires |data| % TWO_TO_32 < 8 + LittleEndian(data[4..8]) < TWO_TO_32
    ensures 8 + LittleEndian(data[4..8]) <= |data| && Decoded(path, data) == Value(Failed(LengthOverflow))
  {
    HeaderLengths(path, data);
  }

  lemma NoMoreThan(n: nat)
    ensures 0 <= n % TWO_TO_32 <= n
  {
  }

  lemma Reduced(n: nat)
    requires n < 2 * TWO_TO_32
    ensures n % TWO_TO_32 == if n < TWO_TO_32 then n else n - TWO_TO_32
  {
  }
}
