/** `DexStringIds`: the string-id table is `size` 4-byte offsets; at each
    offset a ULEB128 length precedes the string's bytes. The length is the
    Dex `utf16_size`, and the decoder uses it as a byte count. */
module StringIds {
  import opened ByteReader
  import opened Records
  import opened Results
  import opened Leb128

  /** The string stored at `soff`: the ULEB128 read from the five bytes
      there, then that many bytes right after the prefix. */
  function StringData(buf: Bytes, soff: nat): Result<Bytes> {
    match DecodeUleb128(Slice(buf, soff, soff + 5))
    case Failure(e) => Failure(e)
    case Success((n, pt)) => Success(Slice(buf, soff + 1 + pt, soff + 1 + pt + n))
  }

  /** Entry `k`: the string at the offset held at `4k` in the table. */
  function StringAt(buf: Bytes, off: nat, size: nat, k: nat): Result<Bytes> {
    StringData(buf, Le(Slice(buf, off, off + size * 4), 4 * k, 4))
  }

  function StringEntries(buf: Bytes, off: nat, size: nat): nat -> Result<Bytes> {
    k => StringAt(buf, off, size, k)
  }

  /** One pass of the loop of `DexStringIds.__init__`, from the offset on. */
  method ReadString(buf: Bytes, soff: nat) returns (r: Result<Bytes>)
    ensures r == StringData(buf, soff)
  {
    var u := Uleb128(Slice(buf, soff, soff + 5));
    if u.Failure? {
      return Failure(u.error);
    }
    var (stringSize, pt) := u.value;
    return Success(Slice(buf, soff + 1 + pt, soff + 1 + pt + stringSize));
  }

  /** `DexStringIds.__init__`: `string_list`, in table order. */
  method DecodeStringIds(buf: Bytes, off: nat, size: nat) returns (r: Result<seq<Bytes>>)
    ensures Tabulates(r, size, StringEntries(buf, off, size))
  {
    ghost var f := StringEntries(buf, off, size);
    var table := Slice(buf, off, off + size * 4);
    var stringList: seq<Bytes> := [];
    for i := 0 to size
      invariant Tabulate(i, f) == Success(stringList)
    {
      var soff := Le(table, 4 * i, 4);
      var s := ReadString(buf, soff);
      assert f(i) == s;
      if s.Failure? {
        TabulateStops(i, size, f, stringList, s.error);
        return Failure(s.error);
      }
      TabulateStep(i, f, stringList, s.value);
      stringList := stringList + [s.value];
    }
    TabulateSound(size, f);
    return Success(stringList);
  }

  /** The five bytes `uleb128` is handed at `soff` are the prefix `e` and
      the first bytes after it. */
  lemma {:induction false} PrefixWindow(buf: Bytes, soff: nat, e: Bytes, tail: Bytes)
    requires |e| <= 5 && soff <= |buf| && buf[soff..] == e + tail
    ensures Slice(buf, soff, soff + 5) == e + Slice(tail, 0, 5 - |e|)
  {
    var five := Slice(buf, soff, soff + 5);
    var pre := e + Slice(tail, 0, 5 - |e|);
    SliceAt(buf, soff, soff + 5);
    SliceAt(tail, 0, 5 - |e|);
    assert forall j :: 0 <= j < |five| ==> five[j] == buf[soff..][j] == pre[j];
  }

  /** The bytes after the prefix `e` are the payload. */
  lemma {:induction false} PayloadWindow(buf: Bytes, soff: nat, e: Bytes, payload: Bytes, rest: Bytes)
    requires soff <= |buf| && buf[soff..] == e + payload + rest
    ensures Slice(buf, soff + |e|, soff + |e| + |payload|) == payload
  {
    var tail := payload + rest;
    assert buf[soff..] == e + tail;
    SliceTail(buf, soff, |e|, |payload|);
    SliceAfter(e, tail, |payload|);
    SliceHead(payload, rest);
  }

  /** A string whose length prefix `e` decodes, whatever follows it, to
      the length of the payload decodes to the payload. */
  lemma {:induction false} StringDataAt(buf: Bytes, soff: nat, e: Bytes, payload: Bytes, rest: Bytes)
    requires 1 <= |e| <= 5
    requires soff <= |buf| && buf[soff..] == e + payload + rest
    requires DecodeUleb128(e + Slice(payload + rest, 0, 5 - |e|)) == Success((|payload|, |e| - 1))
    ensures StringData(buf, soff) == Success(payload)
  {
    assert buf[soff..] == e + (payload + rest);
    PrefixWindow(buf, soff, e, payload + rest);
    PayloadWindow(buf, soff, e, payload, rest);
  }

  /** A string stored as the shortest ULEB128 of its length followed by its
      bytes decodes to those bytes. */
  lemma {:induction false} StringDataEncoded(buf: Bytes, soff: nat, payload: Bytes, rest: Bytes)
    requires |payload| < 0x1_0000_0000
    requires soff <= |buf| && buf[soff..] == EncodeUleb128(|payload|) + payload + rest
    ensures StringData(buf, soff) == Success(payload)
  {
    var e := EncodeUleb128(|payload|);
    assert Pow128(5) == 0x8_0000_0000;
    EncodeLength(|payload|, 5);
    Uleb128RoundTrip(|payload|, Slice(payload + rest, 0, 5 - |e|));
    StringDataAt(buf, soff, e, payload, rest);
  }

  /** A string stored that way at the offset held in slot `k` of the table
      is entry `k` of `string_list`. */
  lemma {:induction false} StringAtEncoded(buf: Bytes, off: nat, size: nat, k: nat, payload: Bytes, rest: Bytes)
    requires k < size && |payload| < 0x1_0000_0000
    requires var soff := Le(buf, off + 4 * k, 4);
      soff <= |buf| && buf[soff..] == EncodeUleb128(|payload|) + payload + rest
    ensures StringAt(buf, off, size, k) == Success(payload)
  {
    WordSlot(buf, off, size, k);
    StringDataEncoded(buf, Le(buf, off + 4 * k, 4), payload, rest);
  }
}
