/** `DexMethodIds`: the method-id table is `size` 8-byte records
    (`class_idx` u16, `proto_idx` u16, `name_idx` u32). Each entry of
    `method_list` is the readable name of the declaring class, the
    prototype's readable signature from `proto_meaning`, and the method's
    name. */
module MethodIds {
  import opened ByteReader
  import opened Records
  import opened Results
  import opened Descriptors

  /** An entry of `method_list`: `(true_type(class), proto_meaning[p], name)`. */
  datatype MethodItem = MethodItem(classType: Option<Bytes>, proto: Bytes, name: Bytes)

  /** Record with its three indices read: what one pass of the loop
      appends, or the exception it raises. The tuple is built left to
      right: the class first, then the prototype, then the name. */
  function MethodRecord(strings: seq<Bytes>, types: seq<Bytes>, meanings: seq<Bytes>,
                        classIdx: nat, protoIdx: nat, nameIdx: nat): Result<MethodItem> {
    var c :- ResolveAt(types, classIdx);
    var p :- Lookup(meanings, protoIdx);
    var n :- Lookup(strings, nameIdx);
    Success(MethodItem(c, p, n))
  }

  /** Entry `i`: record `i`, its fields read relative to the table slice. */
  function MethodAt(buf: Bytes, off: nat, size: nat, strings: seq<Bytes>, types: seq<Bytes>, meanings: seq<Bytes>, i: nat): Result<MethodItem> {
    var table := Slice(buf, off, off + size * 8);
    MethodRecord(strings, types, meanings, Le(table, 8 * i, 2), Le(table, 8 * i + 2, 2), Le(table, 8 * i + 4, 4))
  }

  function MethodEntries(buf: Bytes, off: nat, size: nat, strings: seq<Bytes>, types: seq<Bytes>, meanings: seq<Bytes>): nat -> Result<MethodItem> {
    (i: nat) => MethodAt(buf, off, size, strings, types, meanings, i)
  }

  /** The three index lists the decoder reads before its loop:
      `method_class_idx_list`, `method_proto_idx_list` and
      `method_name_idx_list`, as one list of triples. */
  method ReadIndexLists(table: Bytes, size: nat) returns (idx: seq<(nat, nat, nat)>)
    ensures |idx| == size
    ensures forall i :: 0 <= i < size ==>
      idx[i] == (Le(table, 8 * i, 2), Le(table, 8 * i + 2, 2), Le(table, 8 * i + 4, 4))
  {
    idx := [];
    for i := 0 to size
      invariant |idx| == i
      invariant forall k :: 0 <= k < i ==>
        idx[k] == (Le(table, 8 * k, 2), Le(table, 8 * k + 2, 2), Le(table, 8 * k + 4, 4))
    {
      idx := idx + [(Le(table, 8 * i, 2), Le(table, 8 * i + 2, 2), Le(table, 8 * i + 4, 4))];
    }
  }

  /** One pass of the loop of `DexMethodIds.__init__`, from the three
      indices on. */
  method ReadMethod(strings: seq<Bytes>, types: seq<Bytes>, meanings: seq<Bytes>,
                    classIdx: nat, protoIdx: nat, nameIdx: nat) returns (r: Result<MethodItem>)
    ensures r == MethodRecord(strings, types, meanings, classIdx, protoIdx, nameIdx)
  {
    var c := ResolveIndex(types, classIdx);
    if c.Failure? {
      return Failure(c.error);
    }
    if protoIdx >= |meanings| {
      return Failure(IndexError);
    }
    if nameIdx >= |strings| {
      return Failure(IndexError);
    }
    return Success(MethodItem(c.value, meanings[protoIdx], strings[nameIdx]));
  }

  /** `DexMethodIds.__init__`: `method_list`, in table order. The module
      that assembles the tables hands it `proto_meaning` as `meanings`. */
  method DecodeMethodIds(buf: Bytes, off: nat, size: nat, strings: seq<Bytes>, types: seq<Bytes>, meanings: seq<Bytes>)
    returns (r: Result<seq<MethodItem>>)
    ensures Tabulates(r, size, MethodEntries(buf, off, size, strings, types, meanings))
  {
    ghost var f := MethodEntries(buf, off, size, strings, types, meanings);
    var table := Slice(buf, off, off + size * 8);
    var idx := ReadIndexLists(table, size);
    var methodList: seq<MethodItem> := [];
    for i := 0 to size
      invariant Tabulate(i, f) == Success(methodList)
    {
      var (classIdx, protoIdx, nameIdx) := idx[i];
      var item := ReadMethod(strings, types, meanings, classIdx, protoIdx, nameIdx);
      assert f(i) == item;
      if item.Failure? {
        TabulateStops(i, size, f, methodList, item.error);
        return Failure(item.error);
      }
      TabulateStep(i, f, methodList, item.value);
      methodList := methodList + [item.value];
    }
    TabulateSound(size, f);
    return Success(methodList);
  }

  /** Entry `i` is record `i` as the whole buffer holds it. */
  lemma {:induction false} MethodAtRecord(buf: Bytes, off: nat, size: nat, strings: seq<Bytes>, types: seq<Bytes>, meanings: seq<Bytes>, i: nat)
    requires i < size
    ensures MethodAt(buf, off, size, strings, types, meanings, i) ==
      MethodRecord(strings, types, meanings, Le(buf, off + 8 * i, 2), Le(buf, off + (8 * i + 2), 2), Le(buf, off + (8 * i + 4), 4))
  {
    IdRecordSlots(buf, off, size, i);
  }

  /** A record reads exactly when the class index is in range and resolves
      and the prototype and name indices are in range; the entry is then
      the resolved class, the prototype's signature and the name string.
      Otherwise it raises what the first bad lookup raises. */
  lemma {:induction false} MethodRecordSpec(strings: seq<Bytes>, types: seq<Bytes>, meanings: seq<Bytes>,
                                            classIdx: nat, protoIdx: nat, nameIdx: nat)
    ensures var r := MethodRecord(strings, types, meanings, classIdx, protoIdx, nameIdx);
      r.Success? <==>
        && classIdx < |types| && Resolve(types[classIdx]).Success?
        && protoIdx < |meanings| && nameIdx < |strings|
    ensures var r := MethodRecord(strings, types, meanings, classIdx, protoIdx, nameIdx);
      r.Success? ==> r.value == MethodItem(Resolve(types[classIdx]).value, meanings[protoIdx], strings[nameIdx])
    ensures classIdx >= |types| ==> MethodRecord(strings, types, meanings, classIdx, protoIdx, nameIdx) == Failure(IndexError)
    ensures classIdx < |types| && Resolve(types[classIdx]).Failure? ==>
      MethodRecord(strings, types, meanings, classIdx, protoIdx, nameIdx) == Failure(TypeError)
  {
  }

  /** A decoded `method_list` has `size` entries, entry `i` made of the
      indices the buffer holds at `off + 8i`, `off + 8i + 2` and
      `off + 8i + 4`. */
  lemma {:induction false} MethodListEntries(buf: Bytes, off: nat, size: nat, strings: seq<Bytes>, types: seq<Bytes>,
                                             meanings: seq<Bytes>, r: Result<seq<MethodItem>>)
    requires Tabulates(r, size, MethodEntries(buf, off, size, strings, types, meanings)) && r.Success?
    ensures |r.value| == size
    ensures forall i :: 0 <= i < size ==>
      MethodRecord(strings, types, meanings, Le(buf, off + 8 * i, 2), Le(buf, off + (8 * i + 2), 2), Le(buf, off + (8 * i + 4), 4))
        == Success(r.value[i])
  {
    forall i | 0 <= i < size
      ensures MethodRecord(strings, types, meanings, Le(buf, off + 8 * i, 2), Le(buf, off + (8 * i + 2), 2), Le(buf, off + (8 * i + 4), 4))
        == Success(r.value[i])
    {
      assert MethodEntries(buf, off, size, strings, types, meanings)(i) == Success(r.value[i]);
      MethodAtRecord(buf, off, size, strings, types, meanings, i);
    }
  }
}
