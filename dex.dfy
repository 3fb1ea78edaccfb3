/** `MyDex.__init__`: decodes the header, then the tables it locates, in a
    fixed order: strings, types, prototypes, fields, methods, class
    definitions and the map list. Each table is read at the offset and with
    the count the header gives (the map list with the count it carries);
    later tables look their indices up in earlier ones. The first exception
    any of them raises ends the whole decoding. */
module Dex {
  import opened ByteReader
  import opened Results
  import opened Header
  import opened StringIds
  import opened TypeIds
  import opened ProtoIds
  import opened FieldIds
  import opened MethodIds
  import opened ClassDefs
  import opened MapList

  /** The decoded file: what `MyDex` keeps of each of its decoders. */
  datatype DexFile = DexFile(
    header: Header,
    strings: seq<Bytes>,
    types: seq<Bytes>,
    protos: seq<ProtoItem>,
    fields: seq<FieldItem>,
    methods: seq<MethodItem>,
    classes: seq<ClassDef>,
    mapList: seq<MapItem>)

  /** `proto_meaning`: the readable signature of each prototype, in order. */
  function Meanings(protos: seq<ProtoItem>): (r: seq<Bytes>)
    ensures |r| == |protos| && forall k :: 0 <= k < |protos| ==> r[k] == protos[k].meaning
  {
    seq(|protos|, k requires 0 <= k < |protos| => protos[k].meaning)
  }

  /** `string_list` of the file with header `h`. */
  function StringTable(buf: Bytes, h: Header): (r: Result<seq<Bytes>>)
    ensures r.Success? ==> |r.value| == h.stringIdsSize
  {
    Tabulate(h.stringIdsSize, StringEntries(buf, h.stringIdsOff, h.stringIdsSize))
  }

  /** `type_list` of the file with header `h`. */
  function TypeTable(buf: Bytes, h: Header, strings: seq<Bytes>): (r: Result<seq<Bytes>>)
    ensures r.Success? ==> |r.value| == h.typeIdsSize
  {
    Tabulate(h.typeIdsSize, TypeEntries(buf, h.typeIdsOff, h.typeIdsSize, strings))
  }

  /** `proto_list` with `proto_meaning` of the file with header `h`. */
  function ProtoTable(buf: Bytes, h: Header, strings: seq<Bytes>, types: seq<Bytes>): (r: Result<seq<ProtoItem>>)
    ensures r.Success? ==> |r.value| == h.protoIdsSize
  {
    Tabulate(h.protoIdsSize, ProtoEntries(buf, h.protoIdsOff, h.protoIdsSize, strings, types))
  }

  /** `field_list` of the file with header `h`. */
  function FieldTable(buf: Bytes, h: Header, strings: seq<Bytes>, types: seq<Bytes>): (r: Result<seq<FieldItem>>)
    ensures r.Success? ==> |r.value| == h.fieldIdsSize
  {
    Tabulate(h.fieldIdsSize, FieldEntries(buf, h.fieldIdsOff, h.fieldIdsSize, strings, types))
  }

  /** `method_list` of the file with header `h`. */
  function MethodTable(buf: Bytes, h: Header, strings: seq<Bytes>, types: seq<Bytes>, meanings: seq<Bytes>): (r: Result<seq<MethodItem>>)
    ensures r.Success? ==> |r.value| == h.methodIdsSize
  {
    Tabulate(h.methodIdsSize, MethodEntries(buf, h.methodIdsOff, h.methodIdsSize, strings, types, meanings))
  }

  /** `class_refs` of the file with header `h`. */
  function ClassTable(buf: Bytes, h: Header, strings: seq<Bytes>, types: seq<Bytes>): (r: Result<seq<ClassDef>>)
    ensures r.Success? ==> |r.value| == h.classDefsSize
  {
    Tabulate(h.classDefsSize, ClassEntries(buf, h.classDefsOff, h.classDefsSize, strings, types))
  }

  /** `map_list` of the file with header `h`. */
  function MapTableOf(buf: Bytes, h: Header): (r: Result<seq<MapItem>>)
    ensures r.Success? ==> |r.value| == MapCount(buf, h.mapOff)
  {
    Tabulate(MapCount(buf, h.mapOff), MapEntries(buf, h.mapOff))
  }

  /** The tables of the file with header `h`, decoded in `MyDex`'s order;
      the first exception ends the decoding. */
  function Tables(buf: Bytes, h: Header): Result<DexFile> {
    var strings :- StringTable(buf, h);
    var types :- TypeTable(buf, h, strings);
    var protos :- ProtoTable(buf, h, strings, types);
    var fields :- FieldTable(buf, h, strings, types);
    var methods :- MethodTable(buf, h, strings, types, Meanings(protos));
    var classes :- ClassTable(buf, h, strings, types);
    var maps :- MapTableOf(buf, h);
    Success(DexFile(h, strings, types, protos, fields, methods, classes, maps))
  }

  /** What `MyDex(buf)` yields: the decoded file, or the first exception. */
  function AnalyzeSpec(buf: Bytes): Result<DexFile> {
    Tables(buf, DecodeHeader(buf))
  }

  /** `MyDex.__init__`, running the decoders one after another. */
  method Analyze(buf: Bytes) returns (r: Result<DexFile>)
    ensures r == AnalyzeSpec(buf)
  {
    var h := DecodeHeader(buf);
    var strings := DecodeStringIds(buf, h.stringIdsOff, h.stringIdsSize);
    TabulatesUnique(strings, h.stringIdsSize, StringEntries(buf, h.stringIdsOff, h.stringIdsSize));
    if strings.Failure? {
      return Failure(strings.error);
    }
    var types := DecodeTypeIds(buf, h.typeIdsOff, h.typeIdsSize, strings.value);
    TabulatesUnique(types, h.typeIdsSize, TypeEntries(buf, h.typeIdsOff, h.typeIdsSize, strings.value));
    if types.Failure? {
      return Failure(types.error);
    }
    var protos := DecodeProtoIds(buf, h.protoIdsOff, h.protoIdsSize, strings.value, types.value);
    TabulatesUnique(protos, h.protoIdsSize, ProtoEntries(buf, h.protoIdsOff, h.protoIdsSize, strings.value, types.value));
    if protos.Failure? {
      return Failure(protos.error);
    }
    var fields := DecodeFieldIds(buf, h.fieldIdsOff, h.fieldIdsSize, strings.value, types.value);
    TabulatesUnique(fields, h.fieldIdsSize, FieldEntries(buf, h.fieldIdsOff, h.fieldIdsSize, strings.value, types.value));
    if fields.Failure? {
      return Failure(fields.error);
    }
    var meanings := Meanings(protos.value);
    var methods := DecodeMethodIds(buf, h.methodIdsOff, h.methodIdsSize, strings.value, types.value, meanings);
    TabulatesUnique(methods, h.methodIdsSize,
                    MethodEntries(buf, h.methodIdsOff, h.methodIdsSize, strings.value, types.value, meanings));
    if methods.Failure? {
      return Failure(methods.error);
    }
    var classes := DecodeClassDefs(buf, h.classDefsOff, h.classDefsSize, strings.value, types.value);
    TabulatesUnique(classes, h.classDefsSize, ClassEntries(buf, h.classDefsOff, h.classDefsSize, strings.value, types.value));
    if classes.Failure? {
      return Failure(classes.error);
    }
    var maps := DecodeMapList(buf, h.mapOff);
    TabulatesUnique(maps, MapCount(buf, h.mapOff), MapEntries(buf, h.mapOff));
    if maps.Failure? {
      return Failure(maps.error);
    }
    return Success(DexFile(h, strings.value, types.value, protos.value, fields.value, methods.value,
                           classes.value, maps.value));
  }

  /** A decoded file is made of tables each of which its decoder yields
      from the earlier ones. */
  lemma {:induction false} TablesParts(buf: Bytes, h: Header, d: DexFile)
    requires Tables(buf, h) == Success(d)
    ensures d.header == h
    ensures StringTable(buf, h) == Success(d.strings)
    ensures TypeTable(buf, h, d.strings) == Success(d.types)
    ensures ProtoTable(buf, h, d.strings, d.types) == Success(d.protos)
    ensures FieldTable(buf, h, d.strings, d.types) == Success(d.fields)
    ensures MethodTable(buf, h, d.strings, d.types, Meanings(d.protos)) == Success(d.methods)
    ensures ClassTable(buf, h, d.strings, d.types) == Success(d.classes)
    ensures MapTableOf(buf, h) == Success(d.mapList)
  {
    var strings := StringTable(buf, h);
    assert strings.Success?;
    var types := TypeTable(buf, h, strings.value);
    assert types.Success?;
    var protos := ProtoTable(buf, h, strings.value, types.value);
    assert protos.Success?;
    var fields := FieldTable(buf, h, strings.value, types.value);
    assert fields.Success?;
    var methods := MethodTable(buf, h, strings.value, types.value, Meanings(protos.value));
    assert methods.Success?;
    var classes := ClassTable(buf, h, strings.value, types.value);
    assert classes.Success?;
    var maps := MapTableOf(buf, h);
    assert maps.Success?;
    assert d == DexFile(h, strings.value, types.value, protos.value, fields.value, methods.value, classes.value, maps.value);
  }

  /** Each table of a decoded file has as many entries as the header says
      (the map list as many as the count at `map_off`). */
  lemma {:induction false} AnalyzeCounts(buf: Bytes)
    requires AnalyzeSpec(buf).Success?
    ensures var d := AnalyzeSpec(buf).value;
      && d.header == DecodeHeader(buf)
      && |d.strings| == Le(buf, 0x38, 4)
      && |d.types| == Le(buf, 0x40, 4)
      && |d.protos| == Le(buf, 0x48, 4)
      && |d.fields| == Le(buf, 0x50, 4)
      && |d.methods| == Le(buf, 0x58, 4)
      && |d.classes| == Le(buf, 0x60, 4)
      && |d.mapList| == Le(buf, Le(buf, 0x34, 4), 4)
  {
    var h := DecodeHeader(buf);
    TablesParts(buf, h, AnalyzeSpec(buf).value);
    MapCountAbsolute(buf, h.mapOff);
  }

  /** Every field name of a decoded field table is a string of the pool. */
  lemma {:induction false} FieldNamesInPool(buf: Bytes, h: Header, strings: seq<Bytes>, types: seq<Bytes>, fields: seq<FieldItem>)
    requires FieldTable(buf, h, strings, types) == Success(fields)
    ensures forall i :: 0 <= i < |fields| ==> fields[i].name in strings
  {
    var f := FieldEntries(buf, h.fieldIdsOff, h.fieldIdsSize, strings, types);
    TabulateSound(h.fieldIdsSize, f);
    forall i | 0 <= i < |fields|
      ensures fields[i].name in strings
    {
      assert f(i) == Success(fields[i]);
    }
  }

  /** Every method of a decoded method table is named by a string of the
      pool and has one of the given signatures as its prototype. */
  lemma {:induction false} MethodNamesInPool(buf: Bytes, h: Header, strings: seq<Bytes>, types: seq<Bytes>,
                                             meanings: seq<Bytes>, methods: seq<MethodItem>)
    requires MethodTable(buf, h, strings, types, meanings) == Success(methods)
    ensures forall i :: 0 <= i < |methods| ==> methods[i].name in strings && methods[i].proto in meanings
  {
    var f := MethodEntries(buf, h.methodIdsOff, h.methodIdsSize, strings, types, meanings);
    TabulateSound(h.methodIdsSize, f);
    forall i | 0 <= i < |methods|
      ensures methods[i].name in strings && methods[i].proto in meanings
    {
      assert f(i) == Success(methods[i]);
    }
  }

  /** Every class of a decoded class table names a string of the pool as
      its source file. */
  lemma {:induction false} SourceFilesInPool(buf: Bytes, h: Header, strings: seq<Bytes>, types: seq<Bytes>, classes: seq<ClassDef>)
    requires ClassTable(buf, h, strings, types) == Success(classes)
    ensures forall i :: 0 <= i < |classes| ==> classes[i].sourceFile in strings
  {
    var f := ClassEntries(buf, h.classDefsOff, h.classDefsSize, strings, types);
    TabulateSound(h.classDefsSize, f);
    forall i | 0 <= i < |classes|
      ensures classes[i].sourceFile in strings
    {
      assert f(i) == Success(classes[i]);
    }
  }

  /** The tables cross-reference the earlier ones: every field, method and
      source-file name is a string of the pool, and every method's
      prototype is one of the prototypes' signatures. */
  lemma {:induction false} AnalyzeCrossReferences(buf: Bytes)
    requires AnalyzeSpec(buf).Success?
    ensures var d := AnalyzeSpec(buf).value;
      && (forall i :: 0 <= i < |d.fields| ==> d.fields[i].name in d.strings)
      && (forall i :: 0 <= i < |d.methods| ==> d.methods[i].name in d.strings && d.methods[i].proto in Meanings(d.protos))
      && (forall i :: 0 <= i < |d.classes| ==> d.classes[i].sourceFile in d.strings)
  {
    var d := AnalyzeSpec(buf).value;
    var h := DecodeHeader(buf);
    TablesParts(buf, h, d);
    FieldNamesInPool(buf, h, d.strings, d.types, d.fields);
    MethodNamesInPool(buf, h, d.strings, d.types, Meanings(d.protos), d.methods);
    SourceFilesInPool(buf, h, d.strings, d.types, d.classes);
  }
}
