/** `DexFieldIds`: the field-id table is `size` 8-byte records
    (`class_idx` u16, `type_idx` u16, `name_idx` u32). Each entry of
    `field_list` is the readable name of the declaring class, the readable
    name of the field's type and the field's name. */
module FieldIds {
  import opened ByteReader
  import opened Records
  import opened Results
  import opened Descriptors

  /** An entry of `field_list`: `(true_type(class), true_type(type), name)`;
      a type `true_type` does not know is Python's `None`. */
  datatype FieldItem = FieldItem(classType: Option<Bytes>, fieldType: Option<Bytes>, name: Bytes)

  /** Record with its three indices read: what one pass of the loop
      appends, or the exception it raises. The tuple is built left to
      right: the class first, then the type, then the name. */
  function FieldRecord(strings: seq<Bytes>, types: seq<Bytes>, classIdx: nat, typeIdx: nat, nameIdx: nat): Result<FieldItem> {
    var c :- ResolveAt(types, classIdx);
    var t :- ResolveAt(types, typeIdx);
    var n :- Lookup(strings, nameIdx);
    Success(FieldItem(c, t, n))
  }

  /** Entry `i`: record `i`, its fields read relative to the table slice. */
  function FieldAt(buf: Bytes, off: nat, size: nat, strings: seq<Bytes>, types: seq<Bytes>, i: nat): Result<FieldItem> {
    var table := Slice(buf, off, off + size * 8);
    FieldRecord(strings, types, Le(table, 8 * i, 2), Le(table, 8 * i + 2, 2), Le(table, 8 * i + 4, 4))
  }

  function FieldEntries(buf: Bytes, off: nat, size: nat, strings: seq<Bytes>, types: seq<Bytes>): nat -> Result<FieldItem> {
    (i: nat) => FieldAt(buf, off, size, strings, types, i)
  }

  /** One pass of the loop of `DexFieldIds.__init__`, from the three
      indices on. */
  method ReadField(strings: seq<Bytes>, types: seq<Bytes>, classIdx: nat, typeIdx: nat, nameIdx: nat)
    returns (r: Result<FieldItem>)
    ensures r == FieldRecord(strings, types, classIdx, typeIdx, nameIdx)
  {
    var c := ResolveIndex(types, classIdx);
    if c.Failure? {
      return Failure(c.error);
    }
    var t := ResolveIndex(types, typeIdx);
    if t.Failure? {
      return Failure(t.error);
    }
    if nameIdx >= |strings| {
      return Failure(IndexError);
    }
    return Success(FieldItem(c.value, t.value, strings[nameIdx]));
  }

  /** `DexFieldIds.__init__`: `field_list`, in table order. */
  method DecodeFieldIds(buf: Bytes, off: nat, size: nat, strings: seq<Bytes>, types: seq<Bytes>)
    returns (r: Result<seq<FieldItem>>)
    ensures Tabulates(r, size, FieldEntries(buf, off, size, strings, types))
  {
    ghost var f := FieldEntries(buf, off, size, strings, types);
    var table := Slice(buf, off, off + size * 8);
    var fieldList: seq<FieldItem> := [];
    for i := 0 to size
      invariant Tabulate(i, f) == Success(fieldList)
    {
      var classIdx := Le(table, 8 * i, 2);
      var typeIdx := Le(table, 8 * i + 2, 2);
      var nameIdx := Le(table, 8 * i + 4, 4);
      var item := ReadField(strings, types, classIdx, typeIdx, nameIdx);
      assert f(i) == item;
      if item.Failure? {
        TabulateStops(i, size, f, fieldList, item.error);
        return Failure(item.error);
      }
      TabulateStep(i, f, fieldList, item.value);
      fieldList := fieldList + [item.value];
    }
    TabulateSound(size, f);
    return Success(fieldList);
  }

  /** Entry `i` is record `i` as the whole buffer holds it. */
  lemma {:induction false} FieldAtRecord(buf: Bytes, off: nat, size: nat, strings: seq<Bytes>, types: seq<Bytes>, i: nat)
    requires i < size
    ensures FieldAt(buf, off, size, strings, types, i) ==
      FieldRecord(strings, types, Le(buf, off + 8 * i, 2), Le(buf, off + (8 * i + 2), 2), Le(buf, off + (8 * i + 4), 4))
  {
    IdRecordSlots(buf, off, size, i);
  }

  /** A record reads exactly when both type indices are in range and
      resolve and the name index is in range; the entry is then the two
      resolved names and the name string. Otherwise it raises what the
      first bad lookup raises. */
  lemma {:induction false} FieldRecordSpec(strings: seq<Bytes>, types: seq<Bytes>, classIdx: nat, typeIdx: nat, nameIdx: nat)
    ensures var r := FieldRecord(strings, types, classIdx, typeIdx, nameIdx);
      r.Success? <==>
        && classIdx < |types| && Resolve(types[classIdx]).Success?
        && typeIdx < |types| && Resolve(types[typeIdx]).Success?
        && nameIdx < |strings|
    ensures var r := FieldRecord(strings, types, classIdx, typeIdx, nameIdx);
      r.Success? ==>
        r.value == FieldItem(Resolve(types[classIdx]).value, Resolve(types[typeIdx]).value, strings[nameIdx])
    ensures classIdx >= |types| ==> FieldRecord(strings, types, classIdx, typeIdx, nameIdx) == Failure(IndexError)
    ensures classIdx < |types| && Resolve(types[classIdx]).Failure? ==>
      FieldRecord(strings, types, classIdx, typeIdx, nameIdx) == Failure(TypeError)
  {
  }

  /** A decoded `field_list` has `size` entries, entry `i` made of the
      indices the buffer holds at `off + 8i`, `off + 8i + 2` and
      `off + 8i + 4`. */
  lemma {:induction false} FieldListEntries(buf: Bytes, off: nat, size: nat, strings: seq<Bytes>, types: seq<Bytes>,
                                            r: Result<seq<FieldItem>>)
    requires Tabulates(r, size, FieldEntries(buf, off, size, strings, types)) && r.Success?
    ensures |r.value| == size
    ensures forall i :: 0 <= i < size ==>
      FieldRecord(strings, types, Le(buf, off + 8 * i, 2), Le(buf, off + (8 * i + 2), 2), Le(buf, off + (8 * i + 4), 4))
        == Success(r.value[i])
  {
    forall i | 0 <= i < size
      ensures FieldRecord(strings, types, Le(buf, off + 8 * i, 2), Le(buf, off + (8 * i + 2), 2), Le(buf, off + (8 * i + 4), 4))
        == Success(r.value[i])
    {
      assert FieldEntries(buf, off, size, strings, types)(i) == Success(r.value[i]);
      FieldAtRecord(buf, off, size, strings, types, i);
    }
  }
}
