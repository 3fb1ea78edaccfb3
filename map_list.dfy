/** `DexMapList`: the map list at `map_off` is a 4-byte count followed by
    12-byte entries (`type` u16, `unused` u16, `size` u32, `offset` u32).
    The decoder rebinds its buffer to everything from `map_off` on and
    names each entry's type through `gMapTypeCode`, a dictionary lookup
    that raises KeyError for a code it does not hold. */
module MapList {
  import opened ByteReader
  import opened Results

  /** `gMapTypeCode`: the eighteen item type codes and their names. */
  const MapTypeCode: map<nat, Bytes> := map[
    0x0000 := Ascii("kDexTypeHeaderItem"),
    0x0001 := Ascii("kDexTypeStringIdItem"),
    0x0002 := Ascii("kDexTypeTypeIdItem"),
    0x0003 := Ascii("kDexTypeProtoIdItem"),
    0x0004 := Ascii("kDexTypeFieldIdItem"),
    0x0005 := Ascii("kDexTypeMethodIdItem"),
    0x0006 := Ascii("kDexTypeClassDefItem"),
    0x1000 := Ascii("kDexTypeMapList"),
    0x1001 := Ascii("kDexTypeTypeList"),
    0x1002 := Ascii("kDexTypeAnnotationSetRefList"),
    0x1003 := Ascii("kDexTypeAnnotationSetItem"),
    0x2000 := Ascii("kDexTypeClassDataItem"),
    0x2001 := Ascii("kDexTypeCodeItem"),
    0x2002 := Ascii("kDexTypeStringDataItem"),
    0x2003 := Ascii("kDexTypeDebugInfoItem"),
    0x2004 := Ascii("kDexTypeAnnotationItem"),
    0x2005 := Ascii("kDexTypeEncodedArrayItem"),
    0x2006 := Ascii("kDexTypeAnnotationsDirectoryItem")
  ]

  /** An entry of `map_list`: `(type name, unused, size, offset)`. */
  datatype MapItem = MapItem(typeName: Bytes, unused: nat, size: nat, offset: nat)

  /** The four fields of entry `i` as the decoder's lists hold them, read
      relative to `map_off`: `(type code, unused, size, offset)`. */
  function RowAt(table: Bytes, i: nat): (nat, nat, nat, nat) {
    (Le(table, 12 * i + 4, 2), Le(table, 12 * i + 6, 2), Le(table, 12 * i + 8, 4), Le(table, 12 * i + 12, 4))
  }

  /** One pass of the loop: the row with its type code named. */
  function MapRow(row: (nat, nat, nat, nat)): Result<MapItem> {
    var (code, unused, size, offset) := row;
    if code in MapTypeCode then Success(MapItem(MapTypeCode[code], unused, size, offset)) else Failure(KeyError)
  }

  /** The buffer the decoder rebinds to: `dex_bytes[map_off:]`. */
  function MapTable(buf: Bytes, off: nat): Bytes {
    Slice(buf, off, |buf|)
  }

  /** `map_size`: the count at the start of the map list. */
  function MapCount(buf: Bytes, off: nat): nat {
    Le(MapTable(buf, off), 0, 4)
  }

  function MapEntries(buf: Bytes, off: nat): nat -> Result<MapItem> {
    (i: nat) => MapRow(RowAt(MapTable(buf, off), i))
  }

  /** The four lists `map_type_list`, `map_unused_list`, `map_size_list`
      and `map_offset_list`, read before the loop, as one list of rows. */
  method ReadRows(table: Bytes, count: nat) returns (rows: seq<(nat, nat, nat, nat)>)
    ensures |rows| == count && forall i :: 0 <= i < count ==> rows[i] == RowAt(table, i)
  {
    rows := [];
    for i := 0 to count
      invariant |rows| == i && forall k :: 0 <= k < i ==> rows[k] == RowAt(table, k)
    {
      var b := 12 * i + 4;
      rows := rows + [(Le(table, b, 2), Le(table, b + 2, 2), Le(table, b + 4, 4), Le(table, b + 8, 4))];
    }
  }

  /** `DexMapList.__init__`: `map_list`, in order, as many entries as the
      count says. */
  method DecodeMapList(buf: Bytes, off: nat) returns (r: Result<seq<MapItem>>)
    ensures Tabulates(r, MapCount(buf, off), MapEntries(buf, off))
  {
    ghost var f := MapEntries(buf, off);
    var table := Slice(buf, off, |buf|);
    var mapSize := Le(table, 0, 4);
    var rows := ReadRows(table, mapSize);
    var mapList: seq<MapItem> := [];
    for i := 0 to mapSize
      invariant Tabulate(i, f) == Success(mapList)
    {
      var (code, unused, size, offset) := rows[i];
      assert f(i) == MapRow(rows[i]);
      if code !in MapTypeCode {
        TabulateStops(i, mapSize, f, mapList, KeyError);
        return Failure(KeyError);
      }
      var item := MapItem(MapTypeCode[code], unused, size, offset);
      TabulateStep(i, f, mapList, item);
      mapList := mapList + [item];
    }
    TabulateSound(mapSize, f);
    return Success(mapList);
  }

  /** The codes `gMapTypeCode` holds: 0x0–0x6, 0x1000–0x1003 and
      0x2000–0x2006. */
  lemma {:induction false} MapTypeCodeKeys(code: nat)
    ensures code in MapTypeCode <==> code <= 0x6 || 0x1000 <= code <= 0x1003 || 0x2000 <= code <= 0x2006
  {
  }

  /** The count is the word at `map_off` of the buffer. */
  lemma {:induction false} MapCountAbsolute(buf: Bytes, off: nat)
    ensures MapCount(buf, off) == Le(buf, off, 4)
  {
    TailLe(buf, off, 0, 4);
  }

  /** Entry `i` is the row at `map_off + 12i + 4` of the buffer. */
  lemma {:induction false} RowAtAbsolute(buf: Bytes, off: nat, i: nat)
    ensures RowAt(MapTable(buf, off), i) ==
      (Le(buf, off + (12 * i + 4), 2), Le(buf, off + (12 * i + 6), 2),
       Le(buf, off + (12 * i + 8), 4), Le(buf, off + (12 * i + 12), 4))
  {
    var r4, r6, r8, r12 := 12 * i + 4, 12 * i + 6, 12 * i + 8, 12 * i + 12;
    TailLe(buf, off, r4, 2);
    TailLe(buf, off, r6, 2);
    TailLe(buf, off, r8, 4);
    TailLe(buf, off, r12, 4);
  }

  /** A decoded `map_list` has as many entries as the count at `map_off`;
      entry `i` names the known type code at `map_off + 12i + 4` and
      carries the three numbers after it. */
  lemma {:induction false} MapListEntries(buf: Bytes, off: nat, r: Result<seq<MapItem>>)
    requires Tabulates(r, MapCount(buf, off), MapEntries(buf, off)) && r.Success?
    ensures |r.value| == Le(buf, off, 4)
    ensures forall i :: 0 <= i < |r.value| ==>
      && Le(buf, off + (12 * i + 4), 2) in MapTypeCode
      && r.value[i] == MapItem(MapTypeCode[Le(buf, off + (12 * i + 4), 2)], Le(buf, off + (12 * i + 6), 2),
                               Le(buf, off + (12 * i + 8), 4), Le(buf, off + (12 * i + 12), 4))
  {
    MapCountAbsolute(buf, off);
    forall i | 0 <= i < |r.value|
      ensures && Le(buf, off + (12 * i + 4), 2) in MapTypeCode
              && r.value[i] == MapItem(MapTypeCode[Le(buf, off + (12 * i + 4), 2)], Le(buf, off + (12 * i + 6), 2),
                                       Le(buf, off + (12 * i + 8), 4), Le(buf, off + (12 * i + 12), 4))
    {
      assert MapEntries(buf, off)(i) == Success(r.value[i]);
      RowAtAbsolute(buf, off, i);
    }
  }

  /** The map list raises exactly when one of its entries has a type code
      `gMapTypeCode` does not hold, and then it raises KeyError. */
  lemma {:induction false} MapListFails(buf: Bytes, off: nat, r: Result<seq<MapItem>>)
    requires Tabulates(r, MapCount(buf, off), MapEntries(buf, off))
    ensures r.Failure? <==> exists i :: 0 <= i < Le(buf, off, 4) && Le(buf, off + (12 * i + 4), 2) !in MapTypeCode
    ensures r.Failure? ==> r.error == KeyError
  {
    MapCountAbsolute(buf, off);
    var n := MapCount(buf, off);
    var f := MapEntries(buf, off);
    TabulatesSucceedsIff(r, n, f);
    if r.Failure? {
      var k: nat :| FailsFirstAt(n, f, k, r.error);
      RowAtAbsolute(buf, off, k);
      assert Le(buf, off + (12 * k + 4), 2) !in MapTypeCode;
    } else {
      forall i | 0 <= i < n
        ensures Le(buf, off + (12 * i + 4), 2) in MapTypeCode
      {
        assert f(i).Success?;
        RowAtAbsolute(buf, off, i);
      }
    }
  }
}
