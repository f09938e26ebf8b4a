/** The binary depot manifest: chunk, file and payload decoders, and what they decode. */
module Proto {
  import opened Text
  import opened Depot
  import opened Octets
  import opened Wire
  import opened Crypto

  datatype ChunkInfo = ChunkInfo(id: string, checksum: string, offset: nat, size: nat, compressed: nat)

  datatype FileEntry = FileEntry(path: string, size: nat, flags: nat, sha1: string, chunks: seq<ChunkInfo>)

  const NO_CHUNK := ChunkInfo("", "", 0, 0, 0)

  const NO_FILE := FileEntry("", 0, 0, "", [])

  /** A slice expression out of range panics; a cursor that comes back to where it was never ends. */
  datatype Outcome<+T> = Value(value: T) | Panics | Hangs

  /** What decoding depends on: libraries, path normalisation and the depot key. */
  datatype Env = Env(lib: Library, norm: string -> string, hexKey: string)

  // ---- Chunks ----

  function Reversed(b: Bytes): (r: Bytes)
    ensures |r| == |b| && forall i :: 0 <= i < |b| ==> r[i] == b[|b| - 1 - i]
  {
    seq(|b|, i requires 0 <= i < |b| => b[|b| - 1 - i])
  }

  /** The effect of a field on a chunk. A little-endian word prints as the hexadecimal text of its bytes reversed. */
  function ChunkWith(c: ChunkInfo, f: Field): ChunkInfo
  {
    match f
    case Number(num, value) =>
      if num == 3 then c.(offset := value)
      else if num == 4 then c.(size := value % TWO_TO_32)
      else if num == 5 then c.(compressed := value % TWO_TO_32)
      else c
    case Blob(num, bytes) => if num == 1 then c.(id := Hex(bytes)) else c
    case Word(num, bytes) => if num == 2 then c.(checksum := Hex(Reversed(bytes))) else c
    case Long(_, _) => c
  }

  /** A chunk after one turn of its field loop; only a whole field changes it. */
  function ChunkAfter(c: ChunkInfo, t: Token): ChunkInfo
  {
    if t.Got? then ChunkWith(c, t.field) else c
  }

  function ParseChunk(data: Bytes, o: nat, c: ChunkInfo): Outcome<ChunkInfo>
    requires |data| < TWO_TO_63
    decreases |data| - o
  {
    if o >= |data| then Value(c) else
      var t := Lex(data, o);
      if t.Crash? then Panics else if t.Stop? then Value(c) else ParseChunk(data, t.next, ChunkAfter(c, t))
  }

  /** One turn of a field loop: the tag, then the value its wire type calls for. */
  method ReadField(data: Bytes, start: nat) returns (t: Token)
    requires start < |data| < TWO_TO_63
    ensures t == Lex(data, start)
  {
    var tag := DecodeVarint(data[start..]);
    if tag.size == 0 {
      return Stop;
    }
    var offset := start + tag.size;
    var num := tag.value / 8;
    match tag.value % 8 {
      case 0 =>
        var v := DecodeVarint(data[offset..]);
        t := if v.size == 0 then Broken(offset) else Got(Number(num, v.value), offset + v.size);
      case 2 =>
        t := ReadBlob(data, num, offset);
      case 5 =>
        t := if offset + 4 > |data| then Short(offset) else Got(Word(num, data[offset..offset + 4]), offset + 4);
      case 1 =>
        t := if offset + 8 > |data| then Stop else Got(Long(num, data[offset..offset + 8]), offset + 8);
      case _ =>
        t := Stop;
    }
  }

  method ReadBlob(data: Bytes, num: nat, start: nat) returns (t: Token)
    requires 0 < start <= |data| < TWO_TO_63
    ensures t == LexBlob(data, num, start)
  {
    VarintValue(data[start..], 0, 0);
    var length := DecodeVarint(data[start..]);
    if length.size == 0 {
      return Broken(start);
    }
    var offset := start + length.size;
    var end := WrapInt(offset + AsInt(length.value));
    if end > |data| {
      return Broken(offset);
    }
    if end < offset {
      return Crash;
    }
    t := Got(Blob(num, data[offset..end]), end);
  }

  method ParseChunkInfo(data: Bytes) returns (r: Outcome<ChunkInfo>)
    requires |data| < TWO_TO_63
    ensures r == ParseChunk(data, 0, NO_CHUNK)
  {
    var chunk := NO_CHUNK;
    var offset := 0;
    while offset < |data|
      invariant ParseChunk(data, offset, chunk) == ParseChunk(data, 0, NO_CHUNK)
      decreases |data| - offset
    {
      var token := ReadField(data, offset);
      match token {
        case Stop =>
          break;
        case Broken(next) =>
          offset := next;
        case Short(next) =>
          offset := next;
        case Crash =>
          return Panics;
        case Got(f, next) =>
          chunk := ChunkWith(chunk, f);
          offset := next;
      }
    }
    r := Value(chunk);
  }

  // ---- Files ----

  /** The path a name field gives: decrypted if there is a key and that yields a name, then normalised. */
  ghost function PathOf(env: Env, bytes: Bytes): string
    requires BlockCiphers(env.lib)
  {
    var name := AsText(bytes);
    var r := NameOf(env.lib, name, env.hexKey);
    env.norm(if env.hexKey != "" && !r.failed && r.name != "" then r.name else name)
  }

  /** Without a key, under a key that is refused, and where nothing is left after decryption, the name counts as it stands. */
  lemma {:induction false} NameAsItStands(env: Env, bytes: Bytes)
    requires BlockCiphers(env.lib)
    ensures Unhex(env.hexKey).None? || env.hexKey == "" ==> PathOf(env, bytes) == env.norm(AsText(bytes))
    ensures NameOf(env.lib, AsText(bytes), env.hexKey).name == "" ==> PathOf(env, bytes) == env.norm(AsText(bytes))
  {
    PlainNameStays(env.lib, AsText(bytes), env.hexKey);
  }

  /** How the paths of one manifest are read from its name fields. */
  ghost function Paths(env: Env): Bytes -> string
    requires BlockCiphers(env.lib)
  {
    (bytes: Bytes) => PathOf(env, bytes)
  }

  function FileWith(path: Bytes -> string, e: FileEntry, f: Field): Outcome<FileEntry>
    requires f.Blob? ==> |f.bytes| < TWO_TO_63
  {
    match f
    case Number(num, value) =>
      if num == 2 then Value(e.(size := value))
      else if num == 3 then Value(e.(flags := value % TWO_TO_32))
      else Value(e)
    case Blob(num, bytes) =>
      if num == 1 then Value(e.(path := path(bytes)))
      else if num == 5 then Value(e.(sha1 := Hex(bytes)))
      else if num == 6 then
        match ParseChunk(bytes, 0, NO_CHUNK) {
          case Value(c) => Value(e.(chunks := e.chunks + [c]))
          case _ => Panics
        }
      else Value(e)
    case Word(_, _) => Value(e)
    case Long(_, _) => Value(e)
  }

  function FileAfter(path: Bytes -> string, e: FileEntry, t: Token): Outcome<FileEntry>
    requires t.Got? && t.field.Blob? ==> |t.field.bytes| < TWO_TO_63
  {
    if t.Got? then FileWith(path, e, t.field) else if t.Crash? then Panics else Value(e)
  }

  function ParseFile(path: Bytes -> string, data: Bytes, o: nat, e: FileEntry): Outcome<FileEntry>
    requires |data| < TWO_TO_63
    decreases |data| - o
  {
    if o >= |data| then Value(e) else
      var t := Lex(data, o);
      var after := FileAfter(path, e, t);
      if !after.Value? || t.Stop? || t.Short? then after else ParseFile(path, data, t.next, after.value)
  }

  /** The name field. */
  method ReadPath(env: Env, bytes: Bytes) returns (path: string)
    requires BlockCiphers(env.lib)
    ensures path == PathOf(env, bytes)
  {
    var name := AsText(bytes);
    if env.hexKey != "" {
      var r := DecryptFilename(env.lib, name, env.hexKey);
      if !r.failed && r.name != "" {
        name := r.name;
      }
    }
    path := env.norm(name);
  }

  method ParseFileEntry(env: Env, data: Bytes) returns (r: Outcome<FileEntry>)
    requires |data| < TWO_TO_63 && BlockCiphers(env.lib)
    ensures r == ParseFile(Paths(env), data, 0, NO_FILE)
  {
    var entry := NO_FILE;
    var offset := 0;
    while offset < |data|
      invariant ParseFile(Paths(env), data, offset, entry) == ParseFile(Paths(env), data, 0, NO_FILE)
      decreases |data| - offset
    {
      var token := ReadField(data, offset);
      match token {
        case Stop =>
          break;
        case Broken(next) =>
          offset := next;
        case Short(_) =>
          break;
        case Crash =>
          return Panics;
        case Got(f, next) =>
          var more := TakeField(env, entry, f);
          if !more.Value? {
            return Panics;
          }
          entry := more.value;
          offset := next;
      }
    }
    r := Value(entry);
  }

  method TakeField(env: Env, e: FileEntry, f: Field) returns (r: Outcome<FileEntry>)
    requires BlockCiphers(env.lib) && (f.Blob? ==> |f.bytes| < TWO_TO_63)
    ensures r == FileWith(Paths(env), e, f)
  {
    match f {
      case Number(num, value) =>
        r := Value(if num == 2 then e.(size := value) else if num == 3 then e.(flags := value % TWO_TO_32) else e);
      case Blob(num, bytes) =>
        if num == 1 {
          var path := ReadPath(env, bytes);
          r := Value(e.(path := path));
        } else if num == 5 {
          r := Value(e.(sha1 := Hex(bytes)));
        } else if num == 6 {
          var c := ParseChunkInfo(bytes);
          r := if c.Value? then Value(e.(chunks := e.chunks + [c.value])) else Panics;
        } else {
          r := Value(e);
        }
      case Word(_, _) =>
        r := Value(e);
      case Long(_, _) =>
        r := Value(e);
    }
  }

  // ---- The payload ----

  /** What one turn of the payload loop does: end, take a file mapping, move the cursor, or fail on a slice. */
  datatype Move = Finish | Mapping(bytes: Bytes, next: nat) | Jump(to: int) | Blowup

  function Turn(data: Bytes, o: nat): (m: Move)
    requires o < |data| < TWO_TO_63
    ensures m.Mapping? ==> o < m.next <= |data| && |m.bytes| < |data|
  {
    var tag := VarintAt(data, o);
    if tag.size == 0 then Finish else
      TurnBody(data, tag.value / 8, tag.value % 8, o + tag.size)
  }

  function TurnBody(data: Bytes, num: nat, wireType: nat, o: nat): (m: Move)
    requires 0 < o <= |data| < TWO_TO_63
    ensures m.Mapping? ==> o <= m.next <= |data| && |m.bytes| < |data|
  {
    if num == 1 && wireType == 2 then TakeMapping(data, o) else Jump(SkipTo(data, wireType, o))
  }

  function TakeMapping(data: Bytes, o: nat): (m: Move)
    requires 0 < o <= |data| < TWO_TO_63
    ensures m.Mapping? ==> o <= m.next <= |data| && |m.bytes| < |data|
    ensures !m.Jump?
  {
    match LexBlob(data, 1, o)
    case Got(f, next) => Mapping(f.bytes, next)
    case Crash => Blowup
    case _ => Finish
  }

  /** Where an unknown field ends. A length is added to the cursor unchecked. */
  function SkipTo(data: Bytes, wireType: nat, o: nat): int
    requires o <= |data| < TWO_TO_63
  {
    match wireType
    case 0 => o + VarintAt(data, o).size
    case 2 =>
      var length := VarintAt(data, o);
      if length.size == 0 then o else WrapInt(o + length.size + AsInt(length.value))
    case 5 => o + 4
    case 1 => o + 8
    case _ => o + 1
  }

  ghost function Unseen(data: Bytes, seen: set<int>): set<int>
  {
    Offsets(|data|) - seen
  }

  function Offsets(n: nat): (s: set<int>)
    ensures forall i :: i in s <==> 0 <= i < n
  {
    if n == 0 then {} else Offsets(n - 1) + {n - 1}
  }

  /** Entries without a path are dropped. */
  function WithFile(files: seq<FileEntry>, e: FileEntry): seq<FileEntry>
  {
    if e.path != "" then files + [e] else files
  }

  /** The payload loop from position o on, with the files so far. It depends on the cursor only, so a position
      seen before means it goes on for ever. */
  ghost function Run(path: Bytes -> string, data: Bytes, o: int, seen: set<int>, files: seq<FileEntry>): Outcome<seq<FileEntry>>
    requires |data| < TWO_TO_63
    decreases Unseen(data, seen)
  {
    if o >= |data| then Value(files)
    else if o < 0 then Panics
    else if o in seen then Hangs
    else
      assert o in Unseen(data, seen) && o !in Unseen(data, seen + {o});
      var m := Turn(data, o);
      var after := FilesAfter(path, files, m);
      if !after.Value? || m.Finish? then after else Run(path, data, CursorAfter(m), seen + {o}, after.value)
  }

  /** The files after one turn of the payload loop. */
  function FilesAfter(path: Bytes -> string, files: seq<FileEntry>, m: Move): Outcome<seq<FileEntry>>
    requires m.Mapping? ==> |m.bytes| < TWO_TO_63
  {
    match m
    case Finish => Value(files)
    case Blowup => Panics
    case Jump(_) => Value(files)
    case Mapping(bytes, _) =>
      match ParseFile(path, bytes, 0, NO_FILE)
      case Value(e) => Value(WithFile(files, e))
      case _ => Panics
  }

  function CursorAfter(m: Move): int
    requires m.Jump? || m.Mapping?
  {
    if m.Jump? then m.to else m.next
  }

  method SkipField(data: Bytes, wireType: nat, start: nat) returns (offset: int)
    requires start <= |data| < TWO_TO_63
    ensures offset == SkipTo(data, wireType, start)
  {
    offset := start;
    match wireType {
      case 0 =>
        var v := DecodeVarint(data[start..]);
        if v.size != 0 {
          offset := offset + v.size;
        }
      case 2 =>
        var length := DecodeVarint(data[start..]);
        if length.size != 0 {
          offset := WrapInt(offset + length.size + AsInt(length.value));
        }
      case 5 =>
        offset := offset + 4;
      case 1 =>
        offset := offset + 8;
      case _ =>
        offset := offset + 1;
    }
  }

  method ReadTurn(data: Bytes, start: nat) returns (m: Move)
    requires start < |data| < TWO_TO_63
    ensures m == Turn(data, start)
  {
    var tag := DecodeVarint(data[start..]);
    if tag.size == 0 {
      return Finish;
    }
    var offset := start + tag.size;
    if tag.value / 8 == 1 && tag.value % 8 == 2 {
      var token := ReadBlob(data, 1, offset);
      match token {
        case Got(f, next) => m := Mapping(f.bytes, next);
        case Crash => m := Blowup;
        case _ => m := Finish;
      }
    } else {
      var next := SkipField(data, tag.value % 8, offset);
      m := Jump(next);
    }
  }

  method ParsePayload(env: Env, data: Bytes) returns (r: Outcome<seq<FileEntry>>)
    requires |data| < TWO_TO_63 && BlockCiphers(env.lib)
    ensures r == Run(Paths(env), data, 0, {}, [])
  {
    var files: seq<FileEntry> := [];
    var offset := 0;
    var seen: set<int> := {};
    while offset < |data|
      invariant Run(Paths(env), data, offset, seen, files) == Run(Paths(env), data, 0, {}, [])
      decreases Unseen(data, seen)
    {
      if offset < 0 {
        return Panics;
      }
      if offset in seen {
        return Hangs;
      }
      assert offset in Unseen(data, seen) && offset !in Unseen(data, seen + {offset});
      var move := ReadTurn(data, offset);
      seen := seen + {offset};
      match move {
        case Finish =>
          break;
        case Blowup =>
          return Panics;
        case Jump(next) =>
          offset := next;
        case Mapping(bytes, next) =>
          var entry := ParseFileEntry(env, bytes);
          if !entry.Value? {
            return Panics;
          }
          if entry.value.path != "" {
            files := files + [entry.value];
          }
          offset := next;
      }
    }
    r := Value(files);
  }

  // ---- The container ----

  datatype Reason = Empty | TooShort | BadMagic | LengthOverflow | NoEntries

  datatype Parsed = Files(files: seq<FileEntry>) | Failed(reason: Reason)

  const PAYLOAD_MAGIC: int := 0x71F617D0

  function LittleEndian(b: Bytes): (n: nat)
    requires |b| == 4
    ensures n < TWO_TO_32
  {
    b[0] + 0x100 * (b[1] as int) + 0x1_0000 * (b[2] as int) + 0x100_0000 * (b[3] as int)
  }

  /** The first stream of a zip container, if the data is one. */
  function Unzipped(data: Bytes, unzip: Bytes -> Option<Bytes>): (r: Bytes)
    ensures r == data || (|data| >= 4 && AsText(data[..4]) == "PK\U{0003}\U{0004}" && unzip(data) == Some(r))
    ensures |data| >= 4 && AsText(data[..4]) == "PK\U{0003}\U{0004}" && unzip(data).Some? ==> unzip(data) == Some(r)
  {
    assert |data| >= 4 && AsText(data[..4]) == "PK\U{0003}\U{0004}" ==>
        AsText(data[..4])[0] as int == data[0] && AsText(data[..4])[1] as int == data[1]
        && AsText(data[..4])[2] as int == data[2] && AsText(data[..4])[3] as int == data[3];
    if |data| >= 4 && data[..4] == [0x50, 0x4B, 3, 4] && unzip(data).Some? then unzip(data).value else data
  }

  /** Header checks. The sum 8 + length is taken modulo 2^32. */
  ghost function Decoded(path: Bytes -> string, data: Bytes): Outcome<Parsed>
    requires |data| < TWO_TO_63
  {
    if |data| < 8 then Value(Failed(TooShort))
    else if LittleEndian(data[0..4]) != PAYLOAD_MAGIC then Value(Failed(BadMagic))
    else
      var end := (8 + LittleEndian(data[4..8])) % TWO_TO_32;
      if end > |data| % TWO_TO_32 then Value(Failed(LengthOverflow))
      else if end < 8 then Panics
      else
        match Run(path, data[8..end], 0, {}, [])
        case Value(files) => Value(if files == [] then Failed(NoEntries) else Files(files))
        case Panics => Panics
        case Hangs => Hangs
  }

  method ParseBinaryManifestWithKey(env: Env, data: Bytes, unzip: Bytes -> Option<Bytes>) returns (r: Outcome<Parsed>)
    requires |Unzipped(data, unzip)| < TWO_TO_63 && BlockCiphers(env.lib)
    ensures r == if data == [] then Value(Failed(Empty)) else Decoded(Paths(env), Unzipped(data, unzip))
  {
    if |data| == 0 {
      return Value(Failed(Empty));
    }
    var plain := Unzipped(data, unzip);
    if |plain| < 8 {
      return Value(Failed(TooShort));
    }
    if LittleEndian(plain[0..4]) != PAYLOAD_MAGIC {
      return Value(Failed(BadMagic));
    }
    var end := (8 + LittleEndian(plain[4..8])) % TWO_TO_32;
    if end > |plain| % TWO_TO_32 {
      return Value(Failed(LengthOverflow));
    }
    if end < 8 {
      return Panics;
    }
    var files := ParsePayload(env, plain[8..end]);
    match files {
      case Value(list) => r := Value(if |list| == 0 then Failed(NoEntries) else Files(list));
      case Panics => r := Panics;
      case Hangs => r := Hangs;
    }
  }
}
