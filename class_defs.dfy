/** `DexClassDefs`: the class-def table is `size` 32-byte records of
    eight 4-byte fields. The decoder first reads each field into a list of
    its own; then, class by class, it replaces a non-zero interfaces offset
    in its list by the resolved interface list found there, and appends the
    tuple of the class. Two things it does differently from the Dex format:
    interface `j` is read at `interfaces_off + 2j`, without skipping the
    4-byte count, and no index gets the 0xFFFFFFFF "no index" treatment. */
module ClassDefs {
  import opened ByteReader
  import opened Records
  import opened Results
  import opened Descriptors

  /** An element of the `interfaces_off` list: the offset as read, or the
      interface list the decoder put in its place. A zero offset stays. */
  datatype Interfaces = Offset(off: nat) | Listed(names: seq<Option<Bytes>>)

  /** The eight fields of a class-def record, as the decoder's lists hold
      them (`access_flags` as its four raw bytes). */
  datatype ClassDefRecord = ClassDefRecord(
    classIdx: nat, accessFlags: Bytes, superclassIdx: nat, interfacesOff: nat,
    sourceFileIdx: nat, annotationsOff: nat, classDataOff: nat, staticValuesOff: nat)

  /** An entry of `class_refs`. */
  datatype ClassDef = ClassDef(
    classType: Option<Bytes>, accessFlags: Bytes, superclass: Option<Bytes>, interfaces: Interfaces,
    sourceFile: Bytes, annotationsOff: nat, classDataOff: nat, staticValuesOff: nat)

  /** Record `i` of the table slice: the fields at `0x20*i + 0x0, 0x4, …, 0x1C`. */
  function RecordAt(table: Bytes, i: nat): ClassDefRecord {
    ClassDefRecord(
      Le(table, 32 * i, 4), Dd(table, 32 * i + 4, 4), Le(table, 32 * i + 8, 4), Le(table, 32 * i + 12, 4),
      Le(table, 32 * i + 16, 4), Le(table, 32 * i + 20, 4), Le(table, 32 * i + 24, 4), Le(table, 32 * i + 28, 4))
  }

  /** Interface `j` of the list at `ioff`: `true_type(type_list[gle(ioff + 2j, 2)])`. */
  function InterfaceAt(buf: Bytes, ioff: nat, types: seq<Bytes>, j: nat): Result<Option<Bytes>> {
    ResolveAt(types, Le(buf, ioff + 2 * j, 2))
  }

  function InterfaceEntries(buf: Bytes, ioff: nat, types: seq<Bytes>): nat -> Result<Option<Bytes>> {
    (j: nat) => InterfaceAt(buf, ioff, types, j)
  }

  /** The interface list at `ioff`: as many entries as the count there. */
  function InterfaceList(buf: Bytes, ioff: nat, types: seq<Bytes>): Result<seq<Option<Bytes>>> {
    Tabulate(Le(buf, ioff, 4), InterfaceEntries(buf, ioff, types))
  }

  /** What `interfaces_off[i]` holds once the pass for the class is done. */
  function InterfacesOf(buf: Bytes, types: seq<Bytes>, ioff: nat): Result<Interfaces> {
    if ioff == 0 then Success(Offset(0))
    else
      var names :- InterfaceList(buf, ioff, types);
      Success(Listed(names))
  }

  /** The tuple of a class whose interfaces are settled, built left to
      right: the class, its superclass, then its source file. */
  function ClassTuple(strings: seq<Bytes>, types: seq<Bytes>, rec: ClassDefRecord, ifs: Interfaces): (r: Result<ClassDef>)
    ensures r.Success? ==> r.value.interfaces == ifs && r.value.accessFlags == rec.accessFlags
  {
    var c :- ResolveAt(types, rec.classIdx);
    var s :- ResolveAt(types, rec.superclassIdx);
    var src :- Lookup(strings, rec.sourceFileIdx);
    Success(ClassDef(c, rec.accessFlags, s, ifs, src, rec.annotationsOff, rec.classDataOff, rec.staticValuesOff))
  }

  /** One pass of the loop of `DexClassDefs.__init__`: the interfaces
      first, then the tuple. */
  function ClassRecord(buf: Bytes, strings: seq<Bytes>, types: seq<Bytes>, rec: ClassDefRecord): Result<ClassDef> {
    var ifs :- InterfacesOf(buf, types, rec.interfacesOff);
    ClassTuple(strings, types, rec, ifs)
  }

  /** Entry `i`: record `i`, its fields read relative to the table slice. */
  function ClassAt(buf: Bytes, off: nat, size: nat, strings: seq<Bytes>, types: seq<Bytes>, i: nat): Result<ClassDef> {
    ClassRecord(buf, strings, types, RecordAt(Slice(buf, off, off + size * 32), i))
  }

  function ClassEntries(buf: Bytes, off: nat, size: nat, strings: seq<Bytes>, types: seq<Bytes>): nat -> Result<ClassDef> {
    (i: nat) => ClassAt(buf, off, size, strings, types, i)
  }

  /** The eight field lists, read before the loop, as one list of records. */
  method ReadRecords(table: Bytes, size: nat) returns (recs: seq<ClassDefRecord>)
    ensures |recs| == size && forall i :: 0 <= i < size ==> recs[i] == RecordAt(table, i)
  {
    recs := [];
    for i := 0 to size
      invariant |recs| == i && forall k :: 0 <= k < i ==> recs[k] == RecordAt(table, k)
    {
      var b := 32 * i;
      var rec := ClassDefRecord(
        Le(table, b, 4), Dd(table, b + 4, 4), Le(table, b + 8, 4), Le(table, b + 12, 4),
        Le(table, b + 16, 4), Le(table, b + 20, 4), Le(table, b + 24, 4), Le(table, b + 28, 4));
      recs := recs + [rec];
    }
  }

  /** The list comprehension over the interfaces at `ioff`. */
  method ReadInterfaces(buf: Bytes, ioff: nat, types: seq<Bytes>) returns (r: Result<seq<Option<Bytes>>>)
    ensures r == InterfaceList(buf, ioff, types)
  {
    ghost var f := InterfaceEntries(buf, ioff, types);
    var interfacesSize := Le(buf, ioff, 4);
    var names: seq<Option<Bytes>> := [];
    for j := 0 to interfacesSize
      invariant Tabulate(j, f) == Success(names)
    {
      var name := ResolveIndex(types, Le(buf, ioff + 2 * j, 2));
      assert f(j) == name;
      if name.Failure? {
        TabulateStops(j, interfacesSize, f, names, name.error);
        TabulatesUnique(Failure(name.error), interfacesSize, f);
        return Failure(name.error);
      }
      TabulateStep(j, f, names, name.value);
      names := names + [name.value];
    }
    return Success(names);
  }

  /** Building the tuple of a class whose interfaces are settled. */
  method ReadClassTuple(strings: seq<Bytes>, types: seq<Bytes>, rec: ClassDefRecord, ifs: Interfaces)
    returns (r: Result<ClassDef>)
    ensures r == ClassTuple(strings, types, rec, ifs)
  {
    var c := ResolveIndex(types, rec.classIdx);
    if c.Failure? {
      return Failure(c.error);
    }
    var s := ResolveIndex(types, rec.superclassIdx);
    if s.Failure? {
      return Failure(s.error);
    }
    if rec.sourceFileIdx >= |strings| {
      return Failure(IndexError);
    }
    return Success(ClassDef(c.value, rec.accessFlags, s.value, ifs, strings[rec.sourceFileIdx],
                            rec.annotationsOff, rec.classDataOff, rec.staticValuesOff));
  }

  /** `DexClassDefs.__init__`: `class_refs`, in table order. Element `i`
      of the offsets list is overwritten with the interface list before
      class `i`'s tuple takes it. */
  method DecodeClassDefs(buf: Bytes, off: nat, size: nat, strings: seq<Bytes>, types: seq<Bytes>)
    returns (r: Result<seq<ClassDef>>)
    ensures Tabulates(r, size, ClassEntries(buf, off, size, strings, types))
  {
    ghost var f := ClassEntries(buf, off, size, strings, types);
    var table := Slice(buf, off, off + size * 32);
    var recs := ReadRecords(table, size);
    var interfacesOff := seq(size, i requires 0 <= i < size => Offset(recs[i].interfacesOff));
    var classRefs: seq<ClassDef> := [];
    for i := 0 to size
      invariant Tabulate(i, f) == Success(classRefs)
      invariant |interfacesOff| == size
      invariant forall k :: i <= k < size ==> interfacesOff[k] == Offset(recs[k].interfacesOff)
    {
      var ioff := interfacesOff[i].off;
      if ioff != 0 {
        var names := ReadInterfaces(buf, ioff, types);
        if names.Failure? {
          assert f(i) == Failure(names.error);
          TabulateStops(i, size, f, classRefs, names.error);
          return Failure(names.error);
        }
        interfacesOff := interfacesOff[i := Listed(names.value)];
      }
      assert InterfacesOf(buf, types, ioff) == Success(interfacesOff[i]);
      var item := ReadClassTuple(strings, types, recs[i], interfacesOff[i]);
      assert f(i) == item;
      if item.Failure? {
        TabulateStops(i, size, f, classRefs, item.error);
        return Failure(item.error);
      }
      TabulateStep(i, f, classRefs, item.value);
      classRefs := classRefs + [item.value];
    }
    TabulateSound(size, f);
    return Success(classRefs);
  }

  /** The first four fields of record `i` are those the buffer holds at
      `off + 32i + 0x0 … 0xC`. */
  lemma {:induction false} ClassDefSlotsLow(buf: Bytes, off: nat, size: nat, i: nat)
    requires i < size
    ensures var t := Slice(buf, off, off + size * 32);
      && Le(t, 32 * i, 4) == Le(buf, off + 32 * i, 4)
      && Dd(t, 32 * i + 4, 4) == Dd(buf, off + (32 * i + 4), 4)
      && Le(t, 32 * i + 8, 4) == Le(buf, off + (32 * i + 8), 4)
      && Le(t, 32 * i + 12, 4) == Le(buf, off + (32 * i + 12), 4)
  {
    var len := size * 32;
    var r0, r4, r8, r12 := 32 * i, 32 * i + 4, 32 * i + 8, 32 * i + 12;
    MulMonotone(i + 1, size, 32);
    assert r12 + 4 <= len;
    TableLe(buf, off, len, r0, 4);
    TableDd(buf, off, len, r4, 4);
    TableLe(buf, off, len, r8, 4);
    TableLe(buf, off, len, r12, 4);
  }

  /** The last four fields of record `i` are those the buffer holds at
      `off + 32i + 0x10 … 0x1C`. */
  lemma {:induction false} ClassDefSlotsHigh(buf: Bytes, off: nat, size: nat, i: nat)
    requires i < size
    ensures var t := Slice(buf, off, off + size * 32);
      && Le(t, 32 * i + 16, 4) == Le(buf, off + (32 * i + 16), 4)
      && Le(t, 32 * i + 20, 4) == Le(buf, off + (32 * i + 20), 4)
      && Le(t, 32 * i + 24, 4) == Le(buf, off + (32 * i + 24), 4)
      && Le(t, 32 * i + 28, 4) == Le(buf, off + (32 * i + 28), 4)
  {
    var len := size * 32;
    var r16, r20, r24, r28 := 32 * i + 16, 32 * i + 20, 32 * i + 24, 32 * i + 28;
    MulMonotone(i + 1, size, 32);
    assert r28 + 4 <= len;
    TableLe(buf, off, len, r16, 4);
    TableLe(buf, off, len, r20, 4);
    TableLe(buf, off, len, r24, 4);
    TableLe(buf, off, len, r28, 4);
  }

  /** Record `i` as the whole buffer holds it: eight fields at
      `off + 0x20*i + {0x0, 0x4, …, 0x1C}`, the access flags raw. */
  function AbsoluteRecord(buf: Bytes, off: nat, i: nat): ClassDefRecord {
    var b := off + 32 * i;
    ClassDefRecord(
      Le(buf, b, 4), Dd(buf, b + 4, 4), Le(buf, b + 8, 4), Le(buf, b + 12, 4),
      Le(buf, b + 16, 4), Le(buf, b + 20, 4), Le(buf, b + 24, 4), Le(buf, b + 28, 4))
  }

  /** Record `i` of the table slice is record `i` of the buffer. */
  lemma {:induction false} RecordAtAbsolute(buf: Bytes, off: nat, size: nat, i: nat)
    requires i < size
    ensures RecordAt(Slice(buf, off, off + size * 32), i) == AbsoluteRecord(buf, off, i)
  {
    ClassDefSlotsLow(buf, off, size, i);
    ClassDefSlotsHigh(buf, off, size, i);
  }

  /** A zero offset is kept as the number 0; a non-zero one is replaced by
      the list at that offset, which has as many entries as the count there,
      entry `j` resolved from the u16 at `ioff + 2j`. */
  lemma {:induction false} InterfacesOfSpec(buf: Bytes, types: seq<Bytes>, ioff: nat)
    ensures ioff == 0 ==> InterfacesOf(buf, types, ioff) == Success(Offset(0))
    ensures ioff != 0 && InterfacesOf(buf, types, ioff).Success? ==>
      var ifs := InterfacesOf(buf, types, ioff).value;
      && ifs.Listed?
      && |ifs.names| == Le(buf, ioff, 4)
      && forall j :: 0 <= j < |ifs.names| ==>
           Le(buf, ioff + 2 * j, 2) < |types| && Resolve(types[Le(buf, ioff + 2 * j, 2)]) == Success(ifs.names[j])
  {
    if ioff != 0 && InterfacesOf(buf, types, ioff).Success? {
      var count := Le(buf, ioff, 4);
      var f := InterfaceEntries(buf, ioff, types);
      var names := InterfaceList(buf, ioff, types).value;
      TabulateSound(count, f);
      forall j | 0 <= j < count
        ensures Le(buf, ioff + 2 * j, 2) < |types| && Resolve(types[Le(buf, ioff + 2 * j, 2)]) == Success(names[j])
      {
        assert f(j) == Success(names[j]);
      }
    }
  }

  /** Because the list is read from `ioff` itself, without skipping the
      count, its first two entries are resolved from the low and the high
      half of the count. */
  lemma {:induction false} InterfacesOverlapCount(buf: Bytes, ioff: nat, types: seq<Bytes>)
    ensures InterfaceAt(buf, ioff, types, 0) == ResolveAt(types, Le(buf, ioff, 4) % 0x1_0000)
    ensures InterfaceAt(buf, ioff, types, 1) == ResolveAt(types, Le(buf, ioff, 4) / 0x1_0000)
  {
    LeSplit(buf, ioff);
    assert Pow256(2) == 0x1_0000;
    var lo := Le(buf, ioff, 2);
    var hi := Le(buf, ioff + 2, 2);
    assert Le(buf, ioff, 4) == lo + 0x1_0000 * hi;
    assert ioff + 2 * 0 == ioff && ioff + 2 * 1 == ioff + 2;
  }

  /** A class reads exactly when its interfaces read, its class and
      superclass indices are in range and resolve, and its source-file
      index is in range; the entry then carries the resolved names, the
      raw access flags, the interfaces and the three offsets as read. */
  lemma {:induction false} ClassRecordSpec(buf: Bytes, strings: seq<Bytes>, types: seq<Bytes>, rec: ClassDefRecord)
    ensures var r := ClassRecord(buf, strings, types, rec);
      r.Success? <==>
        && InterfacesOf(buf, types, rec.interfacesOff).Success?
        && rec.classIdx < |types| && Resolve(types[rec.classIdx]).Success?
        && rec.superclassIdx < |types| && Resolve(types[rec.superclassIdx]).Success?
        && rec.sourceFileIdx < |strings|
    ensures var r := ClassRecord(buf, strings, types, rec);
      r.Success? ==>
        r.value == ClassDef(Resolve(types[rec.classIdx]).value, rec.accessFlags,
                            Resolve(types[rec.superclassIdx]).value,
                            InterfacesOf(buf, types, rec.interfacesOff).value,
                            strings[rec.sourceFileIdx], rec.annotationsOff, rec.classDataOff, rec.staticValuesOff)
  {
  }

  /** The "no index" value 0xFFFFFFFF as a superclass is an index like any
      other: with fewer types than that, the class raises IndexError once
      its interfaces and its own type have been read. */
  lemma {:induction false} NoIndexSuperclassRaises(buf: Bytes, strings: seq<Bytes>, types: seq<Bytes>, rec: ClassDefRecord)
    requires rec.superclassIdx == 0xFFFF_FFFF && |types| <= 0xFFFF_FFFF
    requires InterfacesOf(buf, types, rec.interfacesOff).Success? && ResolveAt(types, rec.classIdx).Success?
    ensures ClassRecord(buf, strings, types, rec) == Failure(IndexError)
  {
  }

  /** A decoded `class_refs` has `size` entries, entry `i` made of record
      `i` as the buffer holds it at `off + 0x20*i`. */
  lemma {:induction false} ClassListEntries(buf: Bytes, off: nat, size: nat, strings: seq<Bytes>, types: seq<Bytes>,
                                            r: Result<seq<ClassDef>>)
    requires Tabulates(r, size, ClassEntries(buf, off, size, strings, types)) && r.Success?
    ensures |r.value| == size
    ensures forall i :: 0 <= i < size ==> ClassRecord(buf, strings, types, AbsoluteRecord(buf, off, i)) == Success(r.value[i])
  {
    forall i | 0 <= i < size
      ensures ClassRecord(buf, strings, types, AbsoluteRecord(buf, off, i)) == Success(r.value[i])
    {
      assert ClassEntries(buf, off, size, strings, types)(i) == Success(r.value[i]);
      RecordAtAbsolute(buf, off, size, i);
    }
  }
}
