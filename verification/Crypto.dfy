/** Steam's encrypted file names, chunk payloads and manifest payloads, over any 16-byte block cipher. */
module Crypto {
  import opened Text
  import opened Depot
  import opened Octets

  /** A block cipher under one key. */
  datatype Cipher = Cipher(encrypt: Bytes -> Bytes, decrypt: Bytes -> Bytes)

  /** What the code takes from libraries: the cipher of a 32-byte key, and base64. */
  datatype Library = Library(aes: Bytes -> Cipher, b64encode: Bytes -> string, b64decode: string -> Option<Bytes>)

  /** Decryption takes blocks to blocks and undoes encryption. */
  ghost predicate Permutes(c: Cipher)
  {
    && (forall b: Bytes :: |b| == 16 ==> |c.decrypt(b)| == 16)
    && (forall b: Bytes :: |b| == 16 ==> |c.encrypt(b)| == 16 && c.decrypt(c.encrypt(b)) == b)
  }

  ghost predicate Base64(lib: Library)
  {
    forall b: Bytes :: lib.b64decode(lib.b64encode(b)) == Some(b)
  }

  // ---- Cipher block chaining (section 6.2 of NIST SP 800-38A) ----

  predicate WholeBlocks(b: Bytes)
  {
    |b| % 16 == 0
  }

  /** Each block decrypted and combined with the cipher block before it; the first with the initialization vector. */
  function CbcDecrypt(c: Cipher, iv: Bytes, text: Bytes): (r: Bytes)
    requires |iv| == 16 && WholeBlocks(text)
    requires forall b: Bytes :: |b| == 16 ==> |c.decrypt(b)| == 16
    ensures |r| == |text|
    decreases |text|
  {
    if text == [] then [] else
      XorBytes(c.decrypt(text[..16]), iv) + CbcDecrypt(c, text[..16], text[16..])
  }

  function CbcEncrypt(c: Cipher, iv: Bytes, text: Bytes): (r: Bytes)
    requires |iv| == 16 && WholeBlocks(text)
    requires forall b: Bytes :: |b| == 16 ==> |c.encrypt(b)| == 16
    ensures |r| == |text|
    decreases |text|
  {
    if text == [] then [] else
      var first := c.encrypt(XorBytes(text[..16], iv));
      first + CbcEncrypt(c, first, text[16..])
  }

  /** Any number of blocks. */
  lemma {:induction false} CbcRoundTrip(c: Cipher, iv: Bytes, text: Bytes)
    requires Permutes(c) && |iv| == 16 && WholeBlocks(text)
    ensures CbcDecrypt(c, iv, CbcEncrypt(c, iv, text)) == text
    decreases |text|
  {
    if text != [] {
      var r := CbcEncrypt(c, iv, text);
      var first := c.encrypt(XorBytes(text[..16], iv));
      assert r[..16] == first && r[16..] == CbcEncrypt(c, first, text[16..]);
      XorBytesTwice(text[..16], iv);
      CbcRoundTrip(c, first, text[16..]);
      assert text == text[..16] + text[16..];
    }
  }

  // ---- Padding (section 6.3 of RFC 5652) ----

  function Repeat(b: Byte, n: nat): (r: Bytes)
    ensures |r| == n && forall i :: 0 <= i < n ==> r[i] == b
  {
    seq(n, i => b)
  }

  function Padding(n: nat): (p: nat)
    ensures 1 <= p <= 16
  {
    16 - n % 16
  }

  function Pad(m: Bytes): (r: Bytes)
    ensures WholeBlocks(r) && |r| > |m|
  {
    m + Repeat(Padding(|m|), Padding(|m|))
  }

  /** The last byte says how many bytes of its own value end the data. */
  predicate Padded(d: Bytes)
  {
    d != [] && 0 < d[|d| - 1] <= 16 && d[|d| - 1] <= |d|
    && forall i :: |d| - d[|d| - 1] <= i < |d| ==> d[i] == d[|d| - 1]
  }

  function Unpad(d: Bytes): Bytes
  {
    if Padded(d) then d[..|d| - d[|d| - 1]] else d
  }

  lemma {:induction false} UnpadPad(m: Bytes)
    ensures Unpad(Pad(m)) == m
  {
    var d := Pad(m);
    assert d[|d| - 1] == Padding(|m|);
    assert d[..|m|] == m;
  }

  /** Padding of any length goes, and what goes is padding: equal bytes that each say how many they are. */
  lemma {:induction false} UnpadExactly(d: Bytes)
    ensures Unpad(d) != d ==> exists k: Byte :: 1 <= k <= 16 && d == Unpad(d) + Repeat(k, k)
    ensures Unpad(d) == d ==> forall m: Bytes, k: Byte :: 1 <= k <= 16 ==> d != m + Repeat(k, k)
  {
    if Padded(d) {
      var k := d[|d| - 1];
      assert d == Unpad(d) + Repeat(k, k);
    }
    forall m: Bytes, k: Byte | 1 <= k <= 16 ensures d == m + Repeat(k, k) ==> Padded(d) {
      EndsPadded(m, k);
    }
  }

  lemma EndsPadded(m: Bytes, k: Byte)
    requires 1 <= k <= 16
    ensures Padded(m + Repeat(k, k))
  {
  }

  /** The padding scan. */
  method RemovePadding(d: Bytes) returns (r: Bytes)
    ensures r == Unpad(d)
  {
    r := d;
    if |d| > 0 {
      var padding := d[|d| - 1];
      if padding > 0 && padding <= 16 && padding <= |d| {
        var valid := true;
        var i := |d| - padding;
        while i < |d|
          invariant |d| - padding <= i <= |d|
          invariant valid && forall j :: |d| - padding <= j < i ==> d[j] == padding
          decreases |d| - i
        {
          if d[i] != padding {
            valid := false;
            break;
          }
          i := i + 1;
        }
        if valid {
          r := d[..|d| - padding];
        }
      }
    }
  }

  // ---- File names ----

  /** Drop NULs at the end. */
  function TrimNul(s: string): string
  {
    if s != "" && s[|s| - 1] == '\0' then TrimNul(s[..|s| - 1]) else s
  }

  lemma {:induction false} TrimNulIs(s: string)
    ensures TrimNul(s) == s <==> s == "" || s[|s| - 1] != '\0'
    ensures |TrimNul(s)| <= |s| && TrimNul(s) == s[..|TrimNul(s)|]
    ensures TrimNul(s) == "" || TrimNul(s)[|TrimNul(s)| - 1] != '\0'
    ensures forall i :: |TrimNul(s)| <= i < |s| ==> s[i] == '\0'
  {
    if s != "" && s[|s| - 1] == '\0' {
      TrimNulIs(s[..|s| - 1]);
    }
  }

  /** A name, and whether the key was refused. */
  datatype Named = Named(name: string, failed: bool)

  /** The initialization vector travels encrypted in the first block. */
  function DecryptBlocks(c: Cipher, data: Bytes): Bytes
    requires |data| >= 16 && WholeBlocks(data) && forall b: Bytes :: |b| == 16 ==> |c.decrypt(b)| == 16
  {
    CbcDecrypt(c, c.decrypt(data[..16]), data[16..])
  }

  function EncryptBlocks(c: Cipher, iv: Bytes, text: Bytes): (r: Bytes)
    requires |iv| == 16 && WholeBlocks(text) && forall b: Bytes :: |b| == 16 ==> |c.encrypt(b)| == 16
    ensures WholeBlocks(r) && |r| == 16 + |text|
  {
    c.encrypt(iv) + CbcEncrypt(c, iv, text)
  }

  lemma BlocksRoundTrip(c: Cipher, iv: Bytes, text: Bytes)
    requires Permutes(c) && |iv| == 16 && WholeBlocks(text)
    ensures DecryptBlocks(c, EncryptBlocks(c, iv, text)) == text
  {
    var r := EncryptBlocks(c, iv, text);
    assert r[..16] == c.encrypt(iv) && r[16..] == CbcEncrypt(c, iv, text);
    CbcRoundTrip(c, iv, text);
  }

  /** Every key gives a cipher that takes blocks to blocks. */
  ghost predicate BlockCiphers(lib: Library)
  {
    forall key: Bytes, b: Bytes :: |b| == 16 ==> |lib.aes(key).decrypt(b)| == 16
  }

  /** The name a manifest entry stands for under a depot key; names that are not encrypted are returned as they are. */
  ghost function NameOf(lib: Library, name: string, hexKey: string): Named
    requires BlockCiphers(lib)
  {
    var key, data := Unhex(hexKey), lib.b64decode(name);
    if hexKey == "" then Named(name, false)
    else if key.None? then Named(name, true)
    else if |key.value| != 32 || data.None? || |data.value| <= 16 || !WholeBlocks(data.value) then Named(name, false)
    else Named(TrimNul(AsText(Unpad(DecryptBlocks(lib.aes(key.value), data.value)))), false)
  }

  lemma WithoutFirstBlock(data: Bytes)
    requires |data| >= 16
    ensures WholeBlocks(data[16..]) <==> WholeBlocks(data)
  {
  }

  method DecryptFilename(lib: Library, name: string, hexKey: string) returns (r: Named)
    requires BlockCiphers(lib)
    ensures r == NameOf(lib, name, hexKey)
  {
    if hexKey == "" {
      return Named(name, false);
    }
    var key := Unhex(hexKey);
    if key.None? || |key.value| != 32 {
      return Named(name, key.None?);
    }
    var data := lib.b64decode(name);
    if data.None? || |data.value| < 16 {
      return Named(name, false);
    }
    var block := lib.aes(key.value);
    var iv := block.decrypt(data.value[..16]);
    var ciphertext := data.value[16..];
    WithoutFirstBlock(data.value);
    if |ciphertext| == 0 || |ciphertext| % 16 != 0 {
      return Named(name, false);
    }
    var plain := RemovePadding(CbcDecrypt(block, iv, ciphertext));
    r := Named(TrimNul(AsText(plain)), false);
  }

  /** Text that may be an encrypted name: base64 of whole blocks, the vector and more. */
  predicate HoldsBlocks(lib: Library, name: string)
  {
    var data := lib.b64decode(name);
    data.Some? && |data.value| >= 32 && |data.value| % 16 == 0
  }

  /** A name is left as it is without a key, and whenever key, encoding or length are not those of an encrypted name; only a
      key that is no hexadecimal text is reported. */
  lemma {:induction false} PlainNameStays(lib: Library, name: string, hexKey: string)
    requires BlockCiphers(lib)
    ensures NameOf(lib, name, hexKey).failed <==> hexKey != "" && Unhex(hexKey).None?
    ensures hexKey == "" || Unhex(hexKey).None? || |Unhex(hexKey).value| != 32 || !HoldsBlocks(lib, name) ==>
              NameOf(lib, name, hexKey).name == name
  {
    var key := Unhex(hexKey);
    if hexKey != "" && key.Some? && |key.value| == 32 && !HoldsBlocks(lib, name) {
      assert NameOf(lib, name, hexKey) == Named(name, false);
    }
  }

  /** A name encrypted the way Steam does: padded, chained, the vector wrapped, base64. */
  ghost function EncryptName(lib: Library, c: Cipher, iv: Bytes, name: string): string
    requires |iv| == 16 && ByteText(name) && Permutes(c)
  {
    lib.b64encode(EncryptBlocks(c, iv, Pad(AsBytes(name))))
  }

  /** Decrypting an encrypted name gives it back without NULs at its end: exactly it, if and only if it has none. */
  lemma {:induction false} NameRoundTrip(lib: Library, hexKey: string, iv: Bytes, name: string)
    requires BlockCiphers(lib) && Base64(lib)
    requires Unhex(hexKey).Some? && |Unhex(hexKey).value| == 32 && Permutes(lib.aes(Unhex(hexKey).value))
    requires |iv| == 16 && ByteText(name)
    ensures var r := NameOf(lib, EncryptName(lib, lib.aes(Unhex(hexKey).value), iv, name), hexKey);
      && r == Named(TrimNul(name), false)
      && (r.name == name <==> name == "" || name[|name| - 1] != '\0')
  {
    var c := lib.aes(Unhex(hexKey).value);
    BlocksRoundTrip(c, iv, Pad(AsBytes(name)));
    UnpadPad(AsBytes(name));
    TrimNulIs(name);
  }

  // ---- Payloads ----

  datatype Payload = Data(bytes: Bytes) | Refused

  /** DecryptChunkPayload: no padding is removed; data that is not whole blocks passes through. */
  method DecryptChunkPayload(lib: Library, data: Bytes, hexKey: string) returns (r: Payload)
    requires BlockCiphers(lib)
    ensures r == ChunkPlain(lib, data, hexKey)
  {
    if hexKey == "" || |data| < 16 {
      return Data(data);
    }
    var key := Unhex(hexKey);
    if key.None? || |key.value| != 32 {
      return Refused;
    }
    var block := lib.aes(key.value);
    var iv := block.decrypt(data[..16]);
    var ciphertext := data[16..];
    if |ciphertext| == 0 || |ciphertext| % 16 != 0 {
      return Data(data);
    }
    r := Data(CbcDecrypt(block, iv, ciphertext));
  }

  ghost function ChunkPlain(lib: Library, data: Bytes, hexKey: string): Payload
    requires BlockCiphers(lib)
  {
    var key := Unhex(hexKey);
    if hexKey == "" || |data| < 16 then Data(data)
    else if key.None? || |key.value| != 32 then Refused
    else if |data| == 16 || !WholeBlocks(data) then Data(data)
    else Data(DecryptBlocks(lib.aes(key.value), data))
  }

  /** Without a key data passes through unchanged, whatever it is; with a key that is none nothing is given out, unless there
      is nothing to decrypt. */
  lemma {:induction false} ChunkWithoutKey(lib: Library, data: Bytes, hexKey: string)
    requires BlockCiphers(lib)
    ensures hexKey == "" ==> ChunkPlain(lib, data, hexKey) == Data(data)
    ensures |data| < 16 ==> ChunkPlain(lib, data, hexKey) == Data(data)
    ensures ChunkPlain(lib, data, hexKey) == Refused <==>
              hexKey != "" && |data| >= 16 && (Unhex(hexKey).None? || |Unhex(hexKey).value| != 32)
    ensures |data| % 16 != 0 && ChunkPlain(lib, data, hexKey) != Refused ==> ChunkPlain(lib, data, hexKey) == Data(data)
  {
  }

  lemma {:induction false} ChunkRoundTrip(lib: Library, hexKey: string, iv: Bytes, plain: Bytes)
    requires BlockCiphers(lib) && |iv| == 16 && plain != [] && WholeBlocks(plain)
    requires Unhex(hexKey).Some? && |Unhex(hexKey).value| == 32 && Permutes(lib.aes(Unhex(hexKey).value))
    ensures ChunkPlain(lib, EncryptBlocks(lib.aes(Unhex(hexKey).value), iv, plain), hexKey) == Data(plain)
  {
    BlocksRoundTrip(lib.aes(Unhex(hexKey).value), iv, plain);
  }

  /** DecryptManifestPayload: here the vector is sent in the clear, and padding is removed. */
  method DecryptManifestPayload(lib: Library, data: Bytes, hexKey: string) returns (r: Payload)
    requires BlockCiphers(lib)
    ensures r == ManifestPlain(lib, data, hexKey)
  {
    var key := Unhex(hexKey);
    if key.None? || |key.value| != 32 {
      return Refused;
    }
    if |data| < 16 || |data| % 16 != 0 {
      return Refused;
    }
    var plain := CbcDecrypt(lib.aes(key.value), data[..16], data[16..]);
    plain := RemovePadding(plain);
    r := Data(plain);
  }

  ghost function ManifestPlain(lib: Library, data: Bytes, hexKey: string): Payload
    requires BlockCiphers(lib)
  {
    var key := Unhex(hexKey);
    if key.None? || |key.value| != 32 || |data| < 16 || !WholeBlocks(data) then Refused
    else Data(Unpad(CbcDecrypt(lib.aes(key.value), data[..16], data[16..])))
  }

  /** The vector in the clear, then the chained blocks. */
  function EncryptClear(c: Cipher, iv: Bytes, text: Bytes): (r: Bytes)
    requires |iv| == 16 && WholeBlocks(text) && forall b: Bytes :: |b| == 16 ==> |c.encrypt(b)| == 16
    ensures WholeBlocks(r) && |r| == 16 + |text|
    ensures r[..16] == iv && r[16..] == CbcEncrypt(c, iv, text)
  {
    iv + CbcEncrypt(c, iv, text)
  }

  lemma {:induction false} ManifestPayloadRoundTrip(lib: Library, hexKey: string, iv: Bytes, plain: Bytes)
    requires BlockCiphers(lib) && |iv| == 16
    requires Unhex(hexKey).Some? && |Unhex(hexKey).value| == 32 && Permutes(lib.aes(Unhex(hexKey).value))
    ensures ManifestPlain(lib, EncryptClear(lib.aes(Unhex(hexKey).value), iv, Pad(plain)), hexKey) == Data(plain)
  {
    CbcRoundTrip(lib.aes(Unhex(hexKey).value), iv, Pad(plain));
    UnpadPad(plain);
  }

  /** Unlike a chunk, a manifest payload is refused without a key and when it is not whole blocks. */
  lemma {:induction false} ManifestRefused(lib: Library, data: Bytes, hexKey: string)
    requires BlockCiphers(lib)
    ensures ManifestPlain(lib, data, hexKey) == Refused <==>
              Unhex(hexKey).None? || |Unhex(hexKey).value| != 32 || data == [] || |data| % 16 != 0
    ensures hexKey == "" ==> ManifestPlain(lib, data, hexKey) == Refused
  {
  }
}
