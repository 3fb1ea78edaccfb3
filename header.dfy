/** `DexHeader`: the fixed-layout header at the start of the buffer. Every
    field is a truncating read at a fixed offset; nothing is validated (the
    magic, the checksum, the signature and the section bounds are taken as
    they come). */
module Header {
  import opened ByteReader

  datatype Header = Header(
    magic: Bytes,        // raw, 8 bytes at 0x0
    checksum: nat,       // 0x8, Adler-32 as stored
    signature: nat,      // 20 bytes at 0xC, big-endian
    fileSize: nat,       // 0x20
    headerSize: nat,     // 0x24
    endianTag: Bytes,    // raw, 4 bytes at 0x28
    linkSize: nat,       // 0x2C
    linkOff: nat,        // 0x30
    mapOff: nat,         // 0x34
    stringIdsSize: nat,  // 0x38
    stringIdsOff: nat,   // 0x3C
    typeIdsSize: nat,    // 0x40
    typeIdsOff: nat,     // 0x44
    protoIdsSize: nat,   // 0x48
    protoIdsOff: nat,    // 0x4C
    fieldIdsSize: nat,   // 0x50
    fieldIdsOff: nat,    // 0x54
    methodIdsSize: nat,  // 0x58
    methodIdsOff: nat,   // 0x5C
    classDefsSize: nat,  // 0x60
    classDefsOff: nat,   // 0x64
    dataSize: nat,       // 0x68
    dataOff: nat         // 0x6C
  )

  const HeaderSize: nat := 0x70
  const U32: nat := 0x1_0000_0000

  /** The seventeen 4-byte little-endian words from 0x2C to 0x6C. */
  function Words(h: Header): seq<nat> {
    [h.linkSize, h.linkOff, h.mapOff, h.stringIdsSize, h.stringIdsOff,
     h.typeIdsSize, h.typeIdsOff, h.protoIdsSize, h.protoIdsOff,
     h.fieldIdsSize, h.fieldIdsOff, h.methodIdsSize, h.methodIdsOff,
     h.classDefsSize, h.classDefsOff, h.dataSize, h.dataOff]
  }

  /** The values a header can hold: raw fields no longer than their slots,
      numbers no wider than theirs. */
  ghost predicate InRange(h: Header) {
    && |h.magic| <= 8 && |h.endianTag| <= 4
    && h.checksum < U32 && h.signature < Pow256(20)
    && h.fileSize < U32 && h.headerSize < U32
    && h.linkSize < U32 && h.linkOff < U32 && h.mapOff < U32
    && h.stringIdsSize < U32 && h.stringIdsOff < U32
    && h.typeIdsSize < U32 && h.typeIdsOff < U32
    && h.protoIdsSize < U32 && h.protoIdsOff < U32
    && h.fieldIdsSize < U32 && h.fieldIdsOff < U32
    && h.methodIdsSize < U32 && h.methodIdsOff < U32
    && h.classDefsSize < U32 && h.classDefsOff < U32
    && h.dataSize < U32 && h.dataOff < U32
  }

  /** `DexHeader.__init__(buf)`. */
  function DecodeHeader(buf: Bytes): (h: Header)
    ensures InRange(h)
    ensures |buf| >= HeaderSize ==> |h.magic| == 8 && |h.endianTag| == 4
  {
    var h := Header(
      Dd(buf, 0x0, 0x8), Le(buf, 0x8, 0x4), Be(buf, 0xC, 0x14),
      Le(buf, 0x20, 0x4), Le(buf, 0x24, 0x4), Dd(buf, 0x28, 0x4),
      Le(buf, 0x2C, 0x4), Le(buf, 0x30, 0x4), Le(buf, 0x34, 0x4),
      Le(buf, 0x38, 0x4), Le(buf, 0x3C, 0x4),
      Le(buf, 0x40, 0x4), Le(buf, 0x44, 0x4),
      Le(buf, 0x48, 0x4), Le(buf, 0x4C, 0x4),
      Le(buf, 0x50, 0x4), Le(buf, 0x54, 0x4),
      Le(buf, 0x58, 0x4), Le(buf, 0x5C, 0x4),
      Le(buf, 0x60, 0x4), Le(buf, 0x64, 0x4),
      Le(buf, 0x68, 0x4), Le(buf, 0x6C, 0x4));
    assert Pow256(4) == U32;
    h
  }

  /** The little-endian encoding of a list of 4-byte words. */
  function EncodeWords(ws: seq<nat>): (r: Bytes)
    ensures |r| == 4 * |ws|
  {
    if ws == [] then [] else LeEncode(ws[0], 4) + EncodeWords(ws[1..])
  }

  lemma {:induction false} EncodeWordsAt(ws: seq<nat>, k: nat)
    requires k < |ws|
    ensures EncodeWords(ws)[4 * k..4 * k + 4] == LeEncode(ws[k], 4)
  {
    if k > 0 {
      EncodeWordsAt(ws[1..], k - 1);
      var e := EncodeWords(ws);
      assert e == LeEncode(ws[0], 4) + EncodeWords(ws[1..]);
      assert e[4 * k..4 * k + 4] == EncodeWords(ws[1..])[4 * (k - 1)..4 * (k - 1) + 4];
    }
  }

  /** The 0x70 bytes of a header laid out as the Dex format prescribes. */
  function EncodeHeader(h: Header): (r: Bytes)
    requires |h.magic| == 8 && |h.endianTag| == 4
    ensures |r| == HeaderSize
  {
    Prefix(h) + EncodeWords(Words(h))
  }

  /** The first 0x2C bytes: magic up to the endian tag. */
  function Prefix(h: Header): (r: Bytes)
    requires |h.magic| == 8 && |h.endianTag| == 4
    ensures |r| == 0x2C
  {
    h.magic + (LeEncode(h.checksum, 4) + (BeEncode(h.signature, 20)
      + (LeEncode(h.fileSize, 4) + (LeEncode(h.headerSize, 4) + h.endianTag))))
  }

  /** Word `k` of an encoded word list is read back from offset 4k. */
  lemma {:induction false} WordAt(ws: seq<nat>, k: nat, at: nat)
    requires k < |ws| && ws[k] < U32 && at == 4 * k
    ensures Le(EncodeWords(ws), at, 4) == ws[k]
  {
    var w := EncodeWords(ws);
    var x := LeEncode(ws[k], 4);
    EncodeWordsAt(ws, k);
    var post := w[4 * k + 4..];
    assert w == w[..4 * k] + (x + post);
    ReadSkip(w[..4 * k], x + post, 0, at, 4);
    ReadHead(x, post, 4);
    assert Pow256(4) == U32;
    LeRoundTrip(ws[k], 4);
  }

  /** Word `k` of the header is read back from offset 0x2C + 4k. */
  lemma {:induction false} WordReadBack(h: Header, rest: Bytes, k: nat, at: nat)
    requires |h.magic| == 8 && |h.endianTag| == 4 && k < 17
    requires Words(h)[k] < U32 && at == 0x2C + 4 * k
    ensures Le(EncodeHeader(h) + rest, at, 4) == Words(h)[k]
  {
    var w := EncodeWords(Words(h));
    ReadFront(EncodeHeader(h), rest, at, 4);
    ReadSkip(Prefix(h), w, 4 * k, at, 4);
    WordAt(Words(h), k, 4 * k);
  }

  /** A read of the first 0x2C bytes of an encoded header, whatever
      follows it, is a read of Prefix. */
  lemma {:induction false} PrefixRead(h: Header, rest: Bytes, at: nat, size: nat)
    requires |h.magic| == 8 && |h.endianTag| == 4 && at + size <= 0x2C
    ensures Le(EncodeHeader(h) + rest, at, size) == Le(Prefix(h), at, size)
    ensures Be(EncodeHeader(h) + rest, at, size) == Be(Prefix(h), at, size)
    ensures Dd(EncodeHeader(h) + rest, at, size) == Dd(Prefix(h), at, size)
  {
    ReadFront(EncodeHeader(h), rest, at, size);
    ReadFront(Prefix(h), EncodeWords(Words(h)), at, size);
  }

  /** The magic and the checksum are read back from 0x0 and 0x8. */
  lemma {:induction false} MagicChecksumReadBack(h: Header, rest: Bytes)
    requires |h.magic| == 8 && |h.endianTag| == 4
    requires h.checksum < U32
    ensures Dd(EncodeHeader(h) + rest, 0x0, 0x8) == h.magic
    ensures Le(EncodeHeader(h) + rest, 0x8, 0x4) == h.checksum
  {
    var c := LeEncode(h.checksum, 4);
    var t1 := Prefix(h)[8..];
    assert Prefix(h) == h.magic + t1;
    assert t1 == c + t1[4..];
    PrefixRead(h, rest, 0x0, 0x8);
    ReadHead(h.magic, t1, 8);
    PrefixRead(h, rest, 0x8, 0x4);
    ReadSkip(h.magic, t1, 0, 0x8, 4);
    ReadHead(c, t1[4..], 4);
    assert Pow256(4) == U32;
    LeRoundTrip(h.checksum, 4);
  }

  /** The signature is read back, big-endian, from 0xC. */
  lemma {:induction false} SignatureReadBack(h: Header, rest: Bytes)
    requires |h.magic| == 8 && |h.endianTag| == 4
    requires h.signature < Pow256(20)
    ensures Be(EncodeHeader(h) + rest, 0xC, 0x14) == h.signature
  {
    var s := BeEncode(h.signature, 20);
    var t2 := Prefix(h)[0xC..];
    assert Prefix(h) == Prefix(h)[..0xC] + t2;
    assert t2 == s + t2[20..];
    PrefixRead(h, rest, 0xC, 0x14);
    ReadSkip(Prefix(h)[..0xC], t2, 0, 0xC, 20);
    ReadHead(s, t2[20..], 20);
    BeRoundTrip(h.signature, 20);
  }

  /** The file size, the header size and the endian tag are read back from
      0x20, 0x24 and 0x28. */
  lemma {:induction false} SizesTagReadBack(h: Header, rest: Bytes)
    requires |h.magic| == 8 && |h.endianTag| == 4
    requires h.fileSize < U32 && h.headerSize < U32
    ensures Le(EncodeHeader(h) + rest, 0x20, 0x4) == h.fileSize
    ensures Le(EncodeHeader(h) + rest, 0x24, 0x4) == h.headerSize
    ensures Dd(EncodeHeader(h) + rest, 0x28, 0x4) == h.endianTag
  {
    var f := LeEncode(h.fileSize, 4);
    var z := LeEncode(h.headerSize, 4);
    var t3 := Prefix(h)[0x20..];
    assert Prefix(h) == Prefix(h)[..0x20] + t3;
    assert t3 == f + (z + h.endianTag);
    PrefixRead(h, rest, 0x20, 0x4);
    ReadSkip(Prefix(h)[..0x20], t3, 0, 0x20, 4);
    ReadHead(f, z + h.endianTag, 4);
    PrefixRead(h, rest, 0x24, 0x4);
    ReadSkip(Prefix(h)[..0x20], t3, 4, 0x24, 4);
    ReadSkip(f, z + h.endianTag, 0, 4, 4);
    ReadHead(z, h.endianTag, 4);
    PrefixRead(h, rest, 0x28, 0x4);
    ReadSkip(Prefix(h)[..0x20], t3, 8, 0x28, 4);
    ReadSkip(f, z + h.endianTag, 4, 8, 4);
    ReadSkip(z, h.endianTag, 0, 4, 4);
    ReadHead(h.endianTag, [], 4);
    assert h.endianTag + [] == h.endianTag;
    assert Pow256(4) == U32;
    LeRoundTrip(h.fileSize, 4);
    LeRoundTrip(h.headerSize, 4);
  }

  /** The words from 0x2C to 0x3C are read back from where they were put. */
  lemma {:induction false} LinkMapStringWordsReadBack(h: Header, rest: Bytes)
    requires |h.magic| == 8 && |h.endianTag| == 4
    requires h.linkSize < U32 && h.linkOff < U32 && h.mapOff < U32
    requires h.stringIdsSize < U32 && h.stringIdsOff < U32
    ensures Le(EncodeHeader(h) + rest, 0x2C, 4) == h.linkSize
    ensures Le(EncodeHeader(h) + rest, 0x30, 4) == h.linkOff
    ensures Le(EncodeHeader(h) + rest, 0x34, 4) == h.mapOff
    ensures Le(EncodeHeader(h) + rest, 0x38, 4) == h.stringIdsSize
    ensures Le(EncodeHeader(h) + rest, 0x3C, 4) == h.stringIdsOff
  {
    WordReadBack(h, rest, 0, 0x2C);
    WordReadBack(h, rest, 1, 0x30);
    WordReadBack(h, rest, 2, 0x34);
    WordReadBack(h, rest, 3, 0x38);
    WordReadBack(h, rest, 4, 0x3C);
  }

  /** The words from 0x40 to 0x4C are read back from where they were put. */
  lemma {:induction false} TypeProtoWordsReadBack(h: Header, rest: Bytes)
    requires |h.magic| == 8 && |h.endianTag| == 4
    requires h.typeIdsSize < U32 && h.typeIdsOff < U32
    requires h.protoIdsSize < U32 && h.protoIdsOff < U32
    ensures Le(EncodeHeader(h) + rest, 0x40, 4) == h.typeIdsSize
    ensures Le(EncodeHeader(h) + rest, 0x44, 4) == h.typeIdsOff
    ensures Le(EncodeHeader(h) + rest, 0x48, 4) == h.protoIdsSize
    ensures Le(EncodeHeader(h) + rest, 0x4C, 4) == h.protoIdsOff
  {
    WordReadBack(h, rest, 5, 0x40);
    WordReadBack(h, rest, 6, 0x44);
    WordReadBack(h, rest, 7, 0x48);
    WordReadBack(h, rest, 8, 0x4C);
  }

  /** The words from 0x50 to 0x5C are read back from where they were put. */
  lemma {:induction false} FieldMethodWordsReadBack(h: Header, rest: Bytes)
    requires |h.magic| == 8 && |h.endianTag| == 4
    requires h.fieldIdsSize < U32 && h.fieldIdsOff < U32
    requires h.methodIdsSize < U32 && h.methodIdsOff < U32
    ensures Le(EncodeHeader(h) + rest, 0x50, 4) == h.fieldIdsSize
    ensures Le(EncodeHeader(h) + rest, 0x54, 4) == h.fieldIdsOff
    ensures Le(EncodeHeader(h) + rest, 0x58, 4) == h.methodIdsSize
    ensures Le(EncodeHeader(h) + rest, 0x5C, 4) == h.methodIdsOff
  {
    WordReadBack(h, rest, 9, 0x50);
    WordReadBack(h, rest, 10, 0x54);
    WordReadBack(h, rest, 11, 0x58);
    WordReadBack(h, rest, 12, 0x5C);
  }

  /** The words from 0x60 to 0x6C are read back from where they were put. */
  lemma {:induction false} ClassDataWordsReadBack(h: Header, rest: Bytes)
    requires |h.magic| == 8 && |h.endianTag| == 4
    requires h.classDefsSize < U32 && h.classDefsOff < U32
    requires h.dataSize < U32 && h.dataOff < U32
    ensures Le(EncodeHeader(h) + rest, 0x60, 4) == h.classDefsSize
    ensures Le(EncodeHeader(h) + rest, 0x64, 4) == h.classDefsOff
    ensures Le(EncodeHeader(h) + rest, 0x68, 4) == h.dataSize
    ensures Le(EncodeHeader(h) + rest, 0x6C, 4) == h.dataOff
  {
    WordReadBack(h, rest, 13, 0x60);
    WordReadBack(h, rest, 14, 0x64);
    WordReadBack(h, rest, 15, 0x68);
    WordReadBack(h, rest, 16, 0x6C);
  }

  /** Decoding an encoded header gives it back, whatever follows it. */
  lemma {:induction false} HeaderRoundTrip(h: Header, rest: Bytes)
    requires InRange(h) && |h.magic| == 8 && |h.endianTag| == 4
    ensures DecodeHeader(EncodeHeader(h) + rest) == h
  {
    MagicChecksumReadBack(h, rest);
    SignatureReadBack(h, rest);
    SizesTagReadBack(h, rest);
    LinkMapStringWordsReadBack(h, rest);
    TypeProtoWordsReadBack(h, rest);
    FieldMethodWordsReadBack(h, rest);
    ClassDataWordsReadBack(h, rest);
  }
}
