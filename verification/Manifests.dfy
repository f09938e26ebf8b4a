/** What the manifest decoder guarantees: it inverts the encoding, it always moves on, and where it does not. */
module Manifests {
  import opened Text
  import opened Depot
  import opened Octets
  import opened Wire
  import opened Crypto
  import opened Proto

  predicate AllFit(fields: seq<Field>)
  {
    forall i :: 0 <= i < |fields| ==> FieldFits(fields[i])
  }

  // ---- Any list of fields decodes to its fields ----

  /** From position o on, a field loop reads these fields and then is at the end. */
  predicate Lexes(data: Bytes, o: nat, fields: seq<Field>)
    requires |data| < TWO_TO_63
    decreases |fields|
  {
    if fields == [] then o == |data| else
      && o < |data| && Lex(data, o).Got? && Lex(data, o).field == fields[0]
      && Lexes(data, Lex(data, o).next, fields[1..])
  }

  lemma {:induction false} FieldsLex(data: Bytes, o: nat, fields: seq<Field>)
    requires o <= |data| < TWO_TO_63 && AllFit(fields) && data[o..] == FieldsBytes(fields)
    ensures Lexes(data, o, fields)
    decreases |fields|
  {
    if fields == [] {
      assert data[o..] == [];
    } else {
      var next := o + |FieldBytes(fields[0])|;
      FirstFieldRead(data, o, fields);
      FieldsLex(data, next, fields[1..]);
      LexesOn(data, o, fields, next);
    }
  }

  lemma {:induction false} LexesOn(data: Bytes, o: nat, fields: seq<Field>, next: nat)
    requires o < |data| < TWO_TO_63 && fields != [] && Lex(data, o) == Got(fields[0], next) && Lexes(data, next, fields[1..])
    ensures Lexes(data, o, fields)
  {
  }

  lemma {:induction false} FirstFieldRead(data: Bytes, o: nat, fields: seq<Field>)
    requires o <= |data| < TWO_TO_63 && fields != [] && FieldFits(fields[0]) && data[o..] == FieldsBytes(fields)
    ensures o < |data| && Lex(data, o) == Got(fields[0], o + |FieldBytes(fields[0])|)
    ensures data[o + |FieldBytes(fields[0])|..] == FieldsBytes(fields[1..])
  {
    FieldRead(data, o, fields[0], FieldsBytes(fields[1..]));
  }

  function ChunkOf(c: ChunkInfo, fields: seq<Field>): ChunkInfo
    decreases |fields|
  {
    if fields == [] then c else ChunkOf(ChunkWith(c, fields[0]), fields[1..])
  }

  lemma {:induction false} ChunkOfLexed(data: Bytes, o: nat, fields: seq<Field>, c: ChunkInfo)
    requires |data| < TWO_TO_63 && Lexes(data, o, fields)
    ensures ParseChunk(data, o, c) == Value(ChunkOf(c, fields))
    decreases |fields|
  {
    if fields != [] {
      ChunkOfLexed(data, Lex(data, o).next, fields[1..], ChunkWith(c, fields[0]));
    }
  }

  /** Fields in any order, repeated or unknown: the chunk is what they make of it one after the other. */
  lemma {:induction false} ChunkFieldsDecode(data: Bytes, o: nat, fields: seq<Field>, c: ChunkInfo)
    requires o <= |data| < TWO_TO_63 && AllFit(fields) && data[o..] == FieldsBytes(fields)
    ensures ParseChunk(data, o, c) == Value(ChunkOf(c, fields))
  {
    FieldsLex(data, o, fields);
    ChunkOfLexed(data, o, fields, c);
  }

  ghost function FileOf(path: Bytes -> string, e: FileEntry, fields: seq<Field>): Outcome<FileEntry>
    requires AllFit(fields)
    decreases |fields|
  {
    if fields == [] then Value(e) else
      var r := FileWith(path, e, fields[0]);
      if r.Value? then FileOf(path, r.value, fields[1..]) else Panics
  }

  lemma {:induction false} FileOfLexed(path: Bytes -> string, data: Bytes, o: nat, fields: seq<Field>, e: FileEntry)
    requires |data| < TWO_TO_63 && AllFit(fields) && Lexes(data, o, fields)
    ensures ParseFile(path, data, o, e) == FileOf(path, e, fields)
    decreases |fields|
  {
    if fields != [] {
      var r := FileWith(path, e, fields[0]);
      OnlyPanics(path, e, fields[0]);
      if r.Value? {
        FileOfLexed(path, data, Lex(data, o).next, fields[1..], r.value);
      }
    }
  }

  lemma OnlyPanics(path: Bytes -> string, e: FileEntry, f: Field)
    requires f.Blob? ==> |f.bytes| < TWO_TO_63
    ensures FileWith(path, e, f).Value? || FileWith(path, e, f) == Panics
  {
  }

  lemma {:induction false} FileFieldsDecode(path: Bytes -> string, data: Bytes, o: nat, fields: seq<Field>, e: FileEntry)
    requires o <= |data| < TWO_TO_63 && AllFit(fields) && data[o..] == FieldsBytes(fields)
    ensures ParseFile(path, data, o, e) == FileOf(path, e, fields)
  {
    FieldsLex(data, o, fields);
    FileOfLexed(path, data, o, fields, e);
  }

  /** What the payload loop does with a field that ends at `next`. */
  function MoveOf(f: Field, next: nat): Move
  {
    if f.Blob? && f.num == 1 then Mapping(f.bytes, next) else Jump(next)
  }

  /** The files of a payload: its mappings with a path, other fields passed over. */
  ghost function FilesOf(path: Bytes -> string, files: seq<FileEntry>, fields: seq<Field>): Outcome<seq<FileEntry>>
    requires AllFit(fields)
    decreases |fields|
  {
    if fields == [] then Value(files) else
      var r := FilesAfter(path, files, MoveOf(fields[0], 0));
      if r.Value? then FilesOf(path, r.value, fields[1..]) else Panics
  }

  /** The payload loop passes over the fields it does not know as the other loops do. */
  lemma {:induction false} TurnReads(data: Bytes, o: nat)
    requires o < |data| < TWO_TO_63 && Lex(data, o).Got?
    ensures Turn(data, o) == MoveOf(Lex(data, o).field, Lex(data, o).next)
  {
    var tag := VarintAt(data, o);
    BodyMove(data, tag.value / 8, tag.value % 8, o + tag.size);
  }

  lemma {:induction false} BodyMove(data: Bytes, num: nat, wireType: nat, o: nat)
    requires 0 < o <= |data| < TWO_TO_63 && LexBody(data, num, wireType, o).Got?
    ensures TurnBody(data, num, wireType, o) == MoveOf(LexBody(data, num, wireType, o).field, LexBody(data, num, wireType, o).next)
  {
    VarintValue(data[o..], 0, 0);
  }

  lemma {:induction false} RunTurn(path: Bytes -> string, data: Bytes, o: nat, seen: set<int>, files: seq<FileEntry>, f: Field, next: nat)
    requires o < |data| < TWO_TO_63 && o !in seen && Turn(data, o) == MoveOf(f, next) && (f.Blob? ==> |f.bytes| < TWO_TO_63)
    ensures var r := FilesAfter(path, files, MoveOf(f, 0));
      if r.Value? then Run(path, data, o, seen, files) == Run(path, data, next, seen + {o}, r.value)
      else Run(path, data, o, seen, files) == Panics
  {
  }

  lemma {:induction false} FilesOfLexed(path: Bytes -> string, data: Bytes, o: nat, fields: seq<Field>, seen: set<int>, files: seq<FileEntry>)
    requires |data| < TWO_TO_63 && AllFit(fields) && Lexes(data, o, fields) && forall i :: i in seen ==> i < o
    ensures Run(path, data, o, seen, files) == FilesOf(path, files, fields)
    decreases |fields|
  {
    if fields != [] {
      var r := FilesAfter(path, files, MoveOf(fields[0], 0));
      TurnReads(data, o);
      RunTurn(path, data, o, seen, files, fields[0], Lex(data, o).next);
      if r.Value? {
        FilesOfLexed(path, data, Lex(data, o).next, fields[1..], seen + {o}, r.value);
      }
    }
  }

  /** A payload decodes to the files of its fields, whatever else it contains. */
  lemma {:induction false} PayloadDecodes(path: Bytes -> string, data: Bytes, o: nat, fields: seq<Field>, seen: set<int>, files: seq<FileEntry>)
    requires AllFit(fields) && o <= |data| < TWO_TO_63 && data[o..] == FieldsBytes(fields)
    requires forall i :: i in seen ==> i < o
    ensures Run(path, data, o, seen, files) == FilesOf(path, files, fields)
  {
    FieldsLex(data, o, fields);
    FilesOfLexed(path, data, o, fields, seen, files);
  }

  // ---- Entries and back ----

  predicate EncodableChunk(c: ChunkInfo)
  {
    LowerHex(c.id) && (c.checksum == "" || (LowerHex(c.checksum) && |c.checksum| == 8))
    && c.offset < TWO_TO_64 && c.size < TWO_TO_32 && c.compressed < TWO_TO_32
  }

  function ChecksumFields(c: ChunkInfo): seq<Field>
    requires EncodableChunk(c)
  {
    if c.checksum == "" then [] else [Word(2, Reversed(FromHex(c.checksum)))]
  }

  function ChunkFields(c: ChunkInfo): seq<Field>
    requires EncodableChunk(c)
  {
    [Blob(1, FromHex(c.id))] + ChecksumFields(c) + [Number(3, c.offset), Number(4, c.size), Number(5, c.compressed)]
  }

  lemma {:induction false} ChunkOfSum(c: ChunkInfo, a: seq<Field>, b: seq<Field>)
    ensures ChunkOf(c, a + b) == ChunkOf(ChunkOf(c, a), b)
    decreases |a|
  {
    if a == [] {
      assert a + b == b;
    } else {
      assert (a + b)[0] == a[0] && (a + b)[1..] == a[1..] + b;
      ChunkOfSum(ChunkWith(c, a[0]), a[1..], b);
    }
  }

  lemma {:induction false} ChunkOfOne(c: ChunkInfo, f: Field)
    ensures ChunkOf(c, [f]) == ChunkWith(c, f)
  {
    assert [f][1..] == [];
  }

  lemma {:induction false} NumbersDecode(c: ChunkInfo, offset: nat, size: nat, compressed: nat)
    requires size < TWO_TO_32 && compressed < TWO_TO_32
    ensures ChunkOf(c, [Number(3, offset), Number(4, size), Number(5, compressed)]) ==
              c.(offset := offset, size := size, compressed := compressed)
  {
    var a, b, d := Number(3, offset), Number(4, size), Number(5, compressed);
    assert [a, b, d] == [a] + ([b] + [d]);
    ChunkOfSum(c, [a], [b] + [d]);
    ChunkOfOne(c, a);
    ChunkOfSum(c.(offset := offset), [b], [d]);
    ChunkOfOne(c.(offset := offset), b);
    ChunkOfOne(c.(offset := offset, size := size), d);
  }

  /** The fields of a chunk make that chunk. */
  lemma ChunkBack(c: ChunkInfo)
    requires EncodableChunk(c)
    ensures ChunkOf(NO_CHUNK, ChunkFields(c)) == c
  {
    var id, sum := [Blob(1, FromHex(c.id))], ChecksumFields(c);
    HexFromHex(c.id);
    ChunkOfSum(NO_CHUNK, id + sum, [Number(3, c.offset), Number(4, c.size), Number(5, c.compressed)]);
    ChunkOfSum(NO_CHUNK, id, sum);
    ChunkOfOne(NO_CHUNK, id[0]);
    if c.checksum != "" {
      HexFromHex(c.checksum);
      assert Reversed(Reversed(FromHex(c.checksum))) == FromHex(c.checksum);
      ChunkOfOne(NO_CHUNK.(id := c.id), sum[0]);
    }
    NumbersDecode(NO_CHUNK.(id := c.id, checksum := c.checksum), c.offset, c.size, c.compressed);
  }

  /** All a field needs to fit besides a length below 2^63. */
  predicate Sized(f: Field)
  {
    8 * f.num + 5 < TWO_TO_64 && (f.Number? ==> f.value < TWO_TO_64) && (f.Long? ==> |f.bytes| == 8) && (f.Word? ==> |f.bytes| == 4)
  }

  lemma {:induction false} FitsBySize(fields: seq<Field>)
    requires |FieldsBytes(fields)| < TWO_TO_63 && forall i :: 0 <= i < |fields| ==> Sized(fields[i])
    ensures AllFit(fields)
  {
    if fields != [] {
      assert |FieldBytes(fields[0])| <= |FieldsBytes(fields)|;
      FitsBySize(fields[1..]);
      forall i | 0 <= i < |fields| ensures FieldFits(fields[i]) {
        if i > 0 {
          assert fields[i] == fields[1..][i - 1];
        }
      }
    }
  }

  lemma ChunkBytesDecode(c: ChunkInfo)
    requires EncodableChunk(c) && |FieldsBytes(ChunkFields(c))| < TWO_TO_63
    ensures ParseChunk(FieldsBytes(ChunkFields(c)), 0, NO_CHUNK) == Value(c)
  {
    var fields := ChunkFields(c);
    FitsBySize(fields);
    assert FieldsBytes(fields)[0..] == FieldsBytes(fields);
    ChunkFieldsDecode(FieldsBytes(fields), 0, fields, NO_CHUNK);
    ChunkBack(c);
  }

  predicate Encodable(e: FileEntry)
  {
    e.path != "" && e.size < TWO_TO_64 && e.flags < TWO_TO_32 && LowerHex(e.sha1)
    && forall i :: 0 <= i < |e.chunks| ==> EncodableChunk(e.chunks[i])
  }

  function ChunkBlobs(chunks: seq<ChunkInfo>): (r: seq<Field>)
    requires forall i :: 0 <= i < |chunks| ==> EncodableChunk(chunks[i])
    ensures forall i :: 0 <= i < |r| ==> Sized(r[i])
  {
    if chunks == [] then [] else [Blob(6, FieldsBytes(ChunkFields(chunks[0])))] + ChunkBlobs(chunks[1..])
  }

  function FileHead(e: FileEntry, name: Bytes): seq<Field>
    requires Encodable(e)
  {
    [Blob(1, name), Number(2, e.size), Number(3, e.flags), Blob(5, FromHex(e.sha1))]
  }

  /** The fields of a file whose name is written as `name`. */
  function FileFields(e: FileEntry, name: Bytes): seq<Field>
    requires Encodable(e)
  {
    FileHead(e, name) + ChunkBlobs(e.chunks)
  }

  lemma {:induction false} TakeChunk(path: Bytes -> string, e: FileEntry, c: ChunkInfo)
    requires EncodableChunk(c) && |FieldsBytes(ChunkFields(c))| < TWO_TO_63
    ensures FileWith(path, e, Blob(6, FieldsBytes(ChunkFields(c)))) == Value(e.(chunks := e.chunks + [c]))
  {
    ChunkBytesDecode(c);
    BlobTaken(path, e, FieldsBytes(ChunkFields(c)), c);
  }

  lemma BlobTaken(path: Bytes -> string, e: FileEntry, bytes: Bytes, c: ChunkInfo)
    requires |bytes| < TWO_TO_63 && ParseChunk(bytes, 0, NO_CHUNK) == Value(c)
    ensures FileWith(path, e, Blob(6, bytes)) == Value(e.(chunks := e.chunks + [c]))
  {
  }

  lemma {:induction false} BlobStep(path: Bytes -> string, e: FileEntry, c: ChunkInfo, rest: seq<Field>)
    requires EncodableChunk(c) && |FieldsBytes(ChunkFields(c))| < TWO_TO_63 && AllFit(rest)
    ensures AllFit([Blob(6, FieldsBytes(ChunkFields(c)))] + rest)
    ensures FileOf(path, e, [Blob(6, FieldsBytes(ChunkFields(c)))] + rest) == FileOf(path, e.(chunks := e.chunks + [c]), rest)
  {
    TakeChunk(path, e, c);
    FileOfStep(path, e, Blob(6, FieldsBytes(ChunkFields(c))), rest);
  }

  lemma {:induction false} BlobsDecode(path: Bytes -> string, e: FileEntry, chunks: seq<ChunkInfo>)
    requires forall i :: 0 <= i < |chunks| ==> EncodableChunk(chunks[i])
    requires AllFit(ChunkBlobs(chunks))
    ensures FileOf(path, e, ChunkBlobs(chunks)) == Value(e.(chunks := e.chunks + chunks))
    decreases |chunks|
  {
    if chunks == [] {
      assert e.chunks + chunks == e.chunks;
    } else {
      var c, rest := chunks[0], chunks[1..];
      NextBlob(path, e, chunks);
      BlobsDecode(path, e.(chunks := e.chunks + [c]), rest);
      TogetherAgain(e.chunks, chunks);
    }
  }

  lemma TogetherAgain(done: seq<ChunkInfo>, chunks: seq<ChunkInfo>)
    requires chunks != []
    ensures done + [chunks[0]] + chunks[1..] == done + chunks
  {
  }

  lemma {:induction false} NextBlob(path: Bytes -> string, e: FileEntry, chunks: seq<ChunkInfo>)
    requires chunks != [] && forall i :: 0 <= i < |chunks| ==> EncodableChunk(chunks[i])
    requires AllFit(ChunkBlobs(chunks))
    ensures AllFit(ChunkBlobs(chunks[1..]))
    ensures FileOf(path, e, ChunkBlobs(chunks)) == FileOf(path, e.(chunks := e.chunks + [chunks[0]]), ChunkBlobs(chunks[1..]))
  {
    FirstBlob(chunks);
    BlobStep(path, e, chunks[0], ChunkBlobs(chunks[1..]));
  }

  lemma {:induction false} FirstBlob(chunks: seq<ChunkInfo>)
    requires chunks != [] && forall i :: 0 <= i < |chunks| ==> EncodableChunk(chunks[i])
    requires AllFit(ChunkBlobs(chunks))
    ensures ChunkBlobs(chunks) == [Blob(6, FieldsBytes(ChunkFields(chunks[0])))] + ChunkBlobs(chunks[1..])
    ensures |FieldsBytes(ChunkFields(chunks[0]))| < TWO_TO_63 && AllFit(ChunkBlobs(chunks[1..]))
  {
    HeadFits(Blob(6, FieldsBytes(ChunkFields(chunks[0]))), ChunkBlobs(chunks[1..]));
  }

  lemma {:induction false} HeadDecodes(path: Bytes -> string, e: FileEntry, name: Bytes, blobs: seq<Field>)
    requires Encodable(e) && path(name) == e.path
    requires AllFit(FileHead(e, name) + blobs) && AllFit(blobs)
    ensures FileOf(path, NO_FILE, FileHead(e, name) + blobs) == FileOf(path, e.(chunks := []), blobs)
  {
    HexFromHex(e.sha1);
    var a, b, c, d := Blob(1, name), Number(2, e.size), Number(3, e.flags), Blob(5, FromHex(e.sha1));
    var three := [d] + blobs;
    var two := [c] + three;
    var one := [b] + two;
    assert FileHead(e, name) + blobs == [a] + one;
    HeadFits(a, one);
    HeadFits(b, two);
    HeadFits(c, three);
    HeadFits(d, blobs);
    FileOfStep(path, NO_FILE, a, one);
    FileOfStep(path, NO_FILE.(path := e.path), b, two);
    FileOfStep(path, NO_FILE.(path := e.path, size := e.size), c, three);
    FileOfStep(path, NO_FILE.(path := e.path, size := e.size, flags := e.flags), d, blobs);
  }

  lemma HeadFits(f: Field, rest: seq<Field>)
    requires AllFit([f] + rest)
    ensures FieldFits(f) && AllFit(rest)
  {
    var all := [f] + rest;
    assert FieldFits(all[0]);
    forall i | 0 <= i < |rest| ensures FieldFits(rest[i]) {
      assert all[i + 1] == rest[i];
    }
  }

  lemma {:induction false} FileOfStep(path: Bytes -> string, e: FileEntry, f: Field, rest: seq<Field>)
    requires FieldFits(f) && AllFit(rest)
    ensures AllFit([f] + rest)
    ensures FileWith(path, e, f).Value? ==> FileOf(path, e, [f] + rest) == FileOf(path, FileWith(path, e, f).value, rest)
  {
    assert ([f] + rest)[1..] == rest;
  }

  /** The fields of a file make that file. */
  lemma FileBack(path: Bytes -> string, e: FileEntry, name: Bytes)
    requires Encodable(e) && path(name) == e.path
    requires |FieldsBytes(FileFields(e, name))| < TWO_TO_63
    ensures ParseFile(path, FieldsBytes(FileFields(e, name)), 0, NO_FILE) == Value(e)
  {
    var fields, blobs := FileFields(e, name), ChunkBlobs(e.chunks);
    FieldsSized(e, name);
    FitsBySize(fields);
    TailFits(FileHead(e, name), blobs);
    assert FieldsBytes(fields)[0..] == FieldsBytes(fields);
    FileFieldsDecode(path, FieldsBytes(fields), 0, fields, NO_FILE);
    HeadDecodes(path, e, name, blobs);
    BlobsDecode(path, e.(chunks := []), e.chunks);
    assert [] + e.chunks == e.chunks;
  }

  lemma {:induction false} FieldsSized(e: FileEntry, name: Bytes)
    requires Encodable(e)
    ensures forall i :: 0 <= i < |FileFields(e, name)| ==> Sized(FileFields(e, name)[i])
  {
    var head, blobs := FileHead(e, name), ChunkBlobs(e.chunks);
    forall i | 0 <= i < |head + blobs| ensures Sized((head + blobs)[i]) {
      assert (head + blobs)[i] == if i < 4 then head[i] else blobs[i - 4];
    }
  }

  lemma TailFits(a: seq<Field>, b: seq<Field>)
    requires AllFit(a + b)
    ensures AllFit(b)
  {
    forall i | 0 <= i < |b| ensures FieldFits(b[i]) {
      assert (a + b)[|a| + i] == b[i];
    }
  }

  /** One mapping per file. */
  function Mappings(entries: seq<FileEntry>, names: seq<Bytes>): seq<Field>
    requires |names| == |entries| && forall i :: 0 <= i < |entries| ==> Encodable(entries[i])
    decreases |entries|
  {
    if entries == [] then [] else [MappingOf(entries[0], names[0])] + Mappings(entries[1..], names[1..])
  }

  function MappingOf(e: FileEntry, name: Bytes): Field
    requires Encodable(e)
  {
    Blob(1, FieldsBytes(FileFields(e, name)))
  }

  lemma {:induction false} MappingsDecode(path: Bytes -> string, entries: seq<FileEntry>, names: seq<Bytes>, files: seq<FileEntry>)
    requires |names| == |entries|
    requires forall i :: 0 <= i < |entries| ==> Encodable(entries[i]) && path(names[i]) == entries[i].path
    requires |FieldsBytes(Mappings(entries, names))| < TWO_TO_63
    ensures AllFit(Mappings(entries, names))
    ensures FilesOf(path, files, Mappings(entries, names)) == Value(files + entries)
    decreases |entries|
  {
    if entries == [] {
      assert files + entries == files;
    } else {
      var e, rest := entries[0], Mappings(entries[1..], names[1..]);
      OneMapping(path, entries, names);
      MappingsDecode(path, entries[1..], names[1..], files + [e]);
      ConsFits(MappingOf(e, names[0]), rest);
      FilesOfCons(path, files, MappingOf(e, names[0]), rest, e);
      Regrouped(files, [e], entries[1..]);
      assert [e] + entries[1..] == entries;
    }
  }

  lemma {:induction false} OneMapping(path: Bytes -> string, entries: seq<FileEntry>, names: seq<Bytes>)
    requires |names| == |entries| && entries != []
    requires forall i :: 0 <= i < |entries| ==> Encodable(entries[i]) && path(names[i]) == entries[i].path
    requires |FieldsBytes(Mappings(entries, names))| < TWO_TO_63
    ensures FieldFits(MappingOf(entries[0], names[0])) && |FieldsBytes(Mappings(entries[1..], names[1..]))| < TWO_TO_63
    ensures ParseFile(path, MappingOf(entries[0], names[0]).bytes, 0, NO_FILE) == Value(entries[0])
  {
    FieldsBytesCons(MappingOf(entries[0], names[0]), Mappings(entries[1..], names[1..]));
    FileBack(path, entries[0], names[0]);
  }

  lemma {:induction false} FieldsBytesCons(f: Field, rest: seq<Field>)
    ensures FieldsBytes([f] + rest) == FieldBytes(f) + FieldsBytes(rest)
  {
    assert ([f] + rest)[1..] == rest;
  }

  lemma ConsFits(f: Field, rest: seq<Field>)
    requires FieldFits(f) && AllFit(rest)
    ensures AllFit([f] + rest)
  {
  }

  lemma {:induction false} FilesOfCons(path: Bytes -> string, files: seq<FileEntry>, f: Field, rest: seq<Field>, e: FileEntry)
    requires AllFit([f] + rest) && AllFit(rest) && FieldFits(f)
    requires f.Blob? && f.num == 1 && ParseFile(path, f.bytes, 0, NO_FILE) == Value(e) && e.path != ""
    ensures FilesOf(path, files, [f] + rest) == FilesOf(path, files + [e], rest)
  {
    assert ([f] + rest)[1..] == rest;
  }

  // ---- The container ----

  function LeBytes(n: nat): (b: Bytes)
    requires n < TWO_TO_32
    ensures |b| == 4
  {
    [n % 0x100, n / 0x100 % 0x100, n / 0x1_0000 % 0x100, n / 0x100_0000]
  }

  lemma {:induction false} LittleEndianBack(n: nat)
    requires n < TWO_TO_32
    ensures LittleEndian(LeBytes(n)) == n
  {
    var a := n / 0x100;
    var b := a / 0x100;
    assert n / 0x1_0000 == b && n / 0x100_0000 == b / 0x100;
  }

  /** A payload in its container; what follows it is not looked at. */
  function Container(payload: Bytes, trailer: Bytes): Bytes
    requires 8 + |payload| < TWO_TO_32
  {
    LeBytes(PAYLOAD_MAGIC) + LeBytes(|payload|) + payload + trailer
  }

  lemma ContainerParts(payload: Bytes, trailer: Bytes)
    requires 8 + |payload| < TWO_TO_32
    ensures var data := Container(payload, trailer);
      && |data| == 8 + |payload| + |trailer|
      && data[0..4] == LeBytes(PAYLOAD_MAGIC) && data[4..8] == LeBytes(|payload|) && data[8..8 + |payload|] == payload
  {
  }

  lemma BelowTwoTo32(n: nat)
    requires n < TWO_TO_32
    ensures n % TWO_TO_32 == n
  {
  }

  /** The container hands its payload to the payload loop. */
  lemma {:induction false} ContainerDecodes(path: Bytes -> string, payload: Bytes, trailer: Bytes, files: seq<FileEntry>)
    requires 8 + |payload| + |trailer| < TWO_TO_32
    requires Run(path, payload, 0, {}, []) == Value(files) && files != []
    ensures |Container(payload, trailer)| < TWO_TO_63
    ensures Decoded(path, Container(payload, trailer)) == Value(Files(files))
  {
    var data := Container(payload, trailer);
    LittleEndianBack(PAYLOAD_MAGIC);
    LittleEndianBack(|payload|);
    ContainerParts(payload, trailer);
    var end := 8 + LittleEndian(data[4..8]);
    BelowTwoTo32(end);
    BelowTwoTo32(|data|);
    assert LittleEndian(data[0..4]) == PAYLOAD_MAGIC && data[8..end] == payload;
  }

  /** Decoding a written manifest gives its files back. */
  lemma {:induction false} ManifestRoundTrip(path: Bytes -> string, entries: seq<FileEntry>, names: seq<Bytes>, trailer: Bytes)
    requires entries != [] && |names| == |entries|
    requires forall i :: 0 <= i < |entries| ==> Encodable(entries[i]) && path(names[i]) == entries[i].path
    requires 8 + |FieldsBytes(Mappings(entries, names))| + |trailer| < TWO_TO_32
    ensures Decoded(path, Container(FieldsBytes(Mappings(entries, names)), trailer)) == Value(Files(entries))
  {
    var payload := FieldsBytes(Mappings(entries, names));
    MappingsDecode(path, entries, names, []);
    assert payload[0..] == payload;
    PayloadDecodes(path, payload, 0, Mappings(entries, names), {}, []);
    assert [] + entries == entries;
    ContainerDecodes(path, payload, trailer, entries);
  }

  function PlainNames(entries: seq<FileEntry>): (names: seq<Bytes>)
    requires forall i :: 0 <= i < |entries| ==> ByteText(entries[i].path)
    ensures |names| == |entries|
  {
    seq(|entries|, i requires 0 <= i < |entries| => AsBytes(entries[i].path))
  }

  /** Without a key: every list of entries with normalised paths. */
  lemma {:induction false} PlainManifestRoundTrip(env: Env, entries: seq<FileEntry>, trailer: Bytes)
    requires BlockCiphers(env.lib) && entries != [] && env.hexKey == ""
    requires forall i :: 0 <= i < |entries| ==> Encodable(entries[i]) && ByteText(entries[i].path)
    requires forall i :: 0 <= i < |entries| ==> env.norm(entries[i].path) == entries[i].path
    requires 8 + |FieldsBytes(Mappings(entries, PlainNames(entries)))| + |trailer| < TWO_TO_32
    ensures Decoded(Paths(env), Container(FieldsBytes(Mappings(entries, PlainNames(entries))), trailer)) == Value(Files(entries))
  {
    ManifestRoundTrip(Paths(env), entries, PlainNames(entries), trailer);
  }

  ghost function SecretNames(env: Env, c: Cipher, iv: Bytes, entries: seq<FileEntry>): (names: seq<Bytes>)
    requires |iv| == 16 && Permutes(c) && forall b: Bytes :: ByteText(env.lib.b64encode(b))
    requires forall i :: 0 <= i < |entries| ==> ByteText(entries[i].path)
    ensures |names| == |entries|
    ensures forall i :: 0 <= i < |names| ==> names[i] == AsBytes(EncryptName(env.lib, c, iv, entries[i].path))
  {
    seq(|entries|, i requires 0 <= i < |entries| => AsBytes(EncryptName(env.lib, c, iv, entries[i].path)))
  }

  /** With the depot key: the same through encrypted names, as long as no path ends in a NUL. */
  lemma {:induction false} EncryptedManifestRoundTrip(env: Env, iv: Bytes, entries: seq<FileEntry>, trailer: Bytes)
    requires BlockCiphers(env.lib) && Base64(env.lib) && (forall b: Bytes :: ByteText(env.lib.b64encode(b))) && |iv| == 16
    requires env.hexKey != "" && Unhex(env.hexKey).Some? && |Unhex(env.hexKey).value| == 32
    requires Permutes(env.lib.aes(Unhex(env.hexKey).value)) && entries != []
    requires forall i :: 0 <= i < |entries| ==> Encodable(entries[i]) && ByteText(entries[i].path)
    requires forall i :: 0 <= i < |entries| ==> env.norm(entries[i].path) == entries[i].path && TrimNul(entries[i].path) == entries[i].path
    requires 8 + |FieldsBytes(Mappings(entries, SecretNames(env, env.lib.aes(Unhex(env.hexKey).value), iv, entries)))| + |trailer| < TWO_TO_32
    ensures var names := SecretNames(env, env.lib.aes(Unhex(env.hexKey).value), iv, entries);
      Decoded(Paths(env), Container(FieldsBytes(Mappings(entries, names)), trailer)) == Value(Files(entries))
  {
    var c := env.lib.aes(Unhex(env.hexKey).value);
    var names := SecretNames(env, c, iv, entries);
    forall i | 0 <= i < |entries| ensures Paths(env)(names[i]) == entries[i].path {
      NameRoundTrip(env.lib, env.hexKey, iv, entries[i].path);
    }
    ManifestRoundTrip(Paths(env), entries, names, trailer);
  }
}
