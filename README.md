# dex_analyze: a verified model of the Dex decoding core

`dex_analyze.py` reads an Android Dex file into memory and decodes it. The
header comes first. Then come the tables the header locates: the string
pool, type ids, prototype ids, field ids, method ids, class definitions and
the map list. This project models what `MyDex.__init__` does with the raw
bytes, exception for exception, and proves properties of that model.

The model works on `seq<Byte>` buffers and follows Python's semantics:

- A slice is clamped to the buffer, so a read near the end returns fewer
  bytes. `ByteReader.Slice` defines this and `ByteReader.SliceIsRange`
  relates it to Dafny's `s[lo..hi]`.
- `int.from_bytes` of such a slice is `ByteReader.Le` / `ByteReader.Be`,
  defined byte by byte. `ByteReader.LeFromBytes` ties `Le` to the value of
  the clamped slice.
- The exceptions the code can raise are `Results.Error`: IndexError for a
  list index out of range, KeyError for a missing `gMapTypeCode` key,
  TypeError for `None + b'[]'` inside `true_type`, and AttributeError for
  `None.decode`. They appear in Python's left-to-right evaluation order.
- Each table decoder is a method with the loop the source has. It is proved
  against a specification function: `Results.Tabulates(r, n, f)` means `r`
  is entries `f(0) … f(n-1)`, or the exception of the first entry that
  raises. `Results.TabulatesUnique` makes that result unique, so
  `Dex.Analyze` can be stated as `r == Dex.AnalyzeSpec(buf)`.
- A decoder that rebinds `self.dex_bytes` to a sub-slice reads relative to
  that slice. Lemmas such as `ByteReader.TableLe`, `Records.IdRecordSlots`
  and `MapList.RowAtAbsolute` translate those reads to absolute offsets in
  the file.

Modules, one per decoder class: `ByteReader` (`DexFile.le/be/dd`), `Leb128`
(`uleb128`), `Descriptors` (`true_type`, `gTypeDescriptor`), `Header`
(`DexHeader`), `StringIds`, `TypeIds`, `ProtoIds`, `FieldIds`, `MethodIds`,
`ClassDefs`, `MapList` (with `gMapTypeCode`) and `Dex` (`MyDex`). `Results`
and `Records` hold shared definitions.

## Model

| member | source | states |
|---|---|---|
| ByteReader.Slice | dex_analyze.py:210 | a Python slice `s[lo:hi]` has length `min(hi, len) - lo` when non-empty, else 0 |
| ByteReader.SliceIsRange | dex_analyze.py:210 | the clamped slice equals the sequence range between the clamped bounds |
| ByteReader.Le | dex_analyze.py:82-83 | a little-endian read of `size` bytes is below 256^size and is 0 at or past the end of the buffer |
| ByteReader.LeFromBytes | dex_analyze.py:82-83 | `le(start, size)` is the little-endian value of the slice `[start:start+size]` |
| ByteReader.Be | dex_analyze.py:84-85 | a big-endian read of `size` bytes is below 256^size and is 0 past the end |
| ByteReader.Dd | dex_analyze.py:86-87 | `dd` yields at most `size` bytes, exactly `buf[start..start+size]` when that lies inside the buffer |
| ByteReader.ReadTruncates | dex_analyze.py:82-87 | near the end of the buffer, `le`, `be` and `dd` read only the bytes that remain |
| ByteReader.LeWindow | dex_analyze.py:82-83 | two buffers that agree on a window give the same little-endian read of it |
| ByteReader.TableLe | dex_analyze.py:210-211 | a read inside a rebound table slice equals the read at base plus offset in the whole buffer |
| ByteReader.TableDd | dex_analyze.py:314-316 | the same for raw-byte reads of a table slice |
| ByteReader.TailLe | dex_analyze.py:345-346 | a read of `dex_bytes[off:]` at `rel` is the read of the whole buffer at `off + rel`, with no bound needed |
| ByteReader.LeConcat | dex_analyze.py:82-83 | a read of `m + n` bytes is the first `m` bytes plus 256^m times the next `n` |
| ByteReader.LeSplit | dex_analyze.py:326-327 | a 4-byte word is its low 2-byte half plus 0x10000 times its high half |
| ByteReader.LeRoundTrip | dex_analyze.py:82-83 | the little-endian value of the `size`-byte encoding of `v < 256^size` is `v` |
| ByteReader.BeRoundTrip | dex_analyze.py:84-85 | the big-endian value of the `size`-byte encoding of `v < 256^size` is `v` |
| ByteReader.ReadSkip | dex_analyze.py:82-87 | reading behind a prefix `p` at `|p| + o` is reading the rest at `o` |
| ByteReader.ReadFront | dex_analyze.py:82-87 | a read that fits in the first part of a concatenation ignores what follows |
| Leb128.StopIndex | dex_analyze.py:93-95 | the loop stops at the first byte ≤ 0x7F or at index 4; every byte before the stop has its high bit set |
| Leb128.Base128Append | dex_analyze.py:96 | one more pass of the loop adds the byte's low seven bits shifted by 7·pt |
| Leb128.Pow128Shift | dex_analyze.py:96 | for every index the loop reaches (pt ≤ 4), 128^pt is `1 << 7·pt` |
| Leb128.OrIsAdd | dex_analyze.py:96 | with k = 7·pt ≤ 28, a `res` below `1 << k` ORed with a seven-bit digit shifted by k equals their sum, so the model's `+` is the source's `|` |
| Leb128.DecodeUleb128Spec | dex_analyze.py:88-97 | IndexError exactly when the input has at most 4 bytes and all of them carry the continuation bit; otherwise `(res, pt)` with pt ≤ 4, bytes before pt continued, byte pt final unless pt = 4, and res the base-128 value of bytes 0..pt |
| Leb128.Uleb128 | dex_analyze.py:88-97 | the while loop computes exactly `DecodeUleb128` |
| Leb128.EncodeShape | dex_analyze.py:93 | an encoding sets the continuation bit on every byte but the last |
| Leb128.EncodeValue | dex_analyze.py:96 | the base-128 value of the encoding of `v` is `v` |
| Leb128.EncodeLength | dex_analyze.py:93 | a value below 128^n encodes in at most n bytes |
| Leb128.Uleb128RoundTrip | dex_analyze.py:88-97 | decoding the encoding of `v < 2^32`, whatever follows it, yields `v` and the index of its last byte |
| Leb128.Uleb128Cap | dex_analyze.py:93-96 | after four continued bytes the loop stops at pt = 4 and takes the low seven bits of the fifth byte, whatever its high bit |
| Descriptors.LeadingBrackets | dex_analyze.py:104-106 | the count of leading `[`: every byte before it is `[`, the byte at it is not |
| Descriptors.ArraySuffix | dex_analyze.py:105 | d passes of the loop build `[]` repeated d times |
| Descriptors.Resolve | dex_analyze.py:98-109 | `true_type` raises only TypeError, and only on a descriptor starting with `[` |
| Descriptors.TrueType | dex_analyze.py:98-109 | the bracket-counting loop and recursion compute `Resolve` |
| Descriptors.ResolveAt | dex_analyze.py:283 | `true_type(type_list[i])` raises IndexError when i is out of range and resolves `type_list[i]` otherwise |
| Descriptors.Readable | dex_analyze.py:251 | `true_type(t).decode` succeeds exactly when `true_type` yields a name; on `None` it raises AttributeError |
| Descriptors.ResolveIndex | dex_analyze.py:283 | the loop step of the field, method and class tables: one indexed `true_type` call, computing `ResolveAt` |
| Descriptors.ReadableName | dex_analyze.py:251 | the loop step of the prototype table: one `true_type(...).decode`, computing `Readable` |
| Descriptors.LeadingBracketsOf | dex_analyze.py:104-106 | d brackets before a non-bracket byte count as exactly d |
| Descriptors.ResolvePrimitive | dex_analyze.py:99-100 | each `gTypeDescriptor` key is one byte and resolves to its keyword |
| Descriptors.ResolveArray | dex_analyze.py:101-107 | d brackets before an element type resolve to the element's name followed by d `[]`, and to TypeError when the element resolves to `None` |
| Descriptors.ResolveObject | dex_analyze.py:108-109 | `L` + x + any final byte resolves to x (`type_bytes[1:-1]`) |
| Descriptors.ResolveBareObjectTag | dex_analyze.py:108-109 | a lone `L` resolves to the empty name |
| Descriptors.ResolveUnknown | dex_analyze.py:98-109 | a descriptor that is not primitive and starts with neither `[` nor `L` falls through to `None` |
| Descriptors.ResolveIntMatrix | dex_analyze.py:101-107 | `[[I` resolves to `int[][]` |
| Descriptors.ResolveStringClass | dex_analyze.py:108-109 | `Ljava/lang/String;` resolves to `java/lang/String` |
| Descriptors.ResolveUnknownElement | dex_analyze.py:107 | `X` resolves to `None` and `[X` raises TypeError |
| Header.DecodeHeader | dex_analyze.py:156-178 | every header word is below 2^32 and the signature below 2^160; on a buffer of at least 0x70 bytes, magic has 8 bytes and endian tag 4 |
| Header.EncodeHeader | dex_analyze.py:156-178 | the header layout is 0x70 bytes |
| Header.MagicChecksumReadBack | dex_analyze.py:156-157 | magic and checksum are read back from offsets 0x0 and 0x8 of an encoded header |
| Header.SignatureReadBack | dex_analyze.py:158 | the big-endian signature is read back from offset 0xC |
| Header.SizesTagReadBack | dex_analyze.py:159-161 | file size, header size and endian tag are read back from 0x20, 0x24 and 0x28 |
| Header.LinkMapStringWordsReadBack | dex_analyze.py:162-166 | link, map and string-id words are read back from 0x2C–0x3C |
| Header.TypeProtoWordsReadBack | dex_analyze.py:167-170 | type-id and proto-id words are read back from 0x40–0x4C |
| Header.FieldMethodWordsReadBack | dex_analyze.py:171-174 | field-id and method-id words are read back from 0x50–0x5C |
| Header.ClassDataWordsReadBack | dex_analyze.py:175-178 | class-def and data words are read back from 0x60–0x6C |
| Header.HeaderRoundTrip | dex_analyze.py:156-178 | decoding the encoding of any in-range header, whatever follows it, gives that header back |
| StringIds.ReadString | dex_analyze.py:214-215 | the loop step, computing `StringData`: the ULEB128 length over a 5-byte window, then that many bytes after it |
| StringIds.DecodeStringIds | dex_analyze.py:209-215 | `string_list` is as many entries as `size`, entry k read at the k-th offset, or the first IndexError |
| StringIds.StringDataAt | dex_analyze.py:214-215 | a length prefix that decodes to the payload's length yields exactly the payload |
| StringIds.StringDataEncoded | dex_analyze.py:214-215 | a ULEB128-prefixed payload placed at an offset is read back exactly |
| StringIds.StringAtEncoded | dex_analyze.py:210-215 | entry k is the payload encoded at the offset held by word k of the table |
| TypeIds.DecodeTypeIds | dex_analyze.py:224-229 | `type_list` is `string_list[idx]` for each word of the table, or the first IndexError |
| TypeIds.TypeAtSlot | dex_analyze.py:225-229 | entry k is the string the k-th word indexes, and IndexError when that word is out of range |
| TypeIds.TypeListEntries | dex_analyze.py:224-229 | a decoded `type_list` has `size` entries, each an in-range string indexed by its word in the buffer |
| ProtoIds.Decimal | dex_analyze.py:251 | `str(i)` is a non-empty string of decimal digits |
| ProtoIds.DecimalRoundTrip | dex_analyze.py:251 | `str(i)` reads back as i and has no leading zero unless i = 0 |
| ProtoIds.ParamTypes | dex_analyze.py:260 | `param` has one descriptor per parameter |
| ProtoIds.ParamsAppend | dex_analyze.py:257-260 | one pass of the parameter loop appends one descriptor and its readable name plus a comma |
| ProtoIds.ReadParam | dex_analyze.py:258-259 | the loop step for parameter j: it indexes `type_list` with the u16 at `parameters_off + 4 + 2j` and renders it readable, raising as `ParamAt` |
| ProtoIds.ReadParams | dex_analyze.py:255-261 | the parameter loop yields the descriptors and text of `ParamList`, or its first exception |
| ProtoIds.ReadProto | dex_analyze.py:247-264 | the loop step for one prototype record, computing `ProtoRecord` (its content is stated by `ProtoWithoutParams` and `ProtoWithParams`) |
| ProtoIds.DecodeProtoIds | dex_analyze.py:239-264 | `proto_list` with `proto_meaning` is one entry per record, or the first exception |
| ProtoIds.ProtoFields | dex_analyze.py:247-249 | the three words of record i are the buffer's words at `off + 12i`, `+4`, `+8` |
| ProtoIds.ProtoAtRecord | dex_analyze.py:246-249 | entry i is the record read at absolute offsets |
| ProtoIds.ProtoListEntries | dex_analyze.py:239-264 | a decoded `proto_list` has `size` entries, entry i being the record whose words the buffer holds at `off + 12i`, `+4`, `+8` |
| ProtoIds.ProtoWithoutParams | dex_analyze.py:250-252 | with `parameters_off = 0` the entry succeeds exactly when the return type is in range and readable and the shorty index is in range; its meaning is `<ret> fun<i>( )` |
| ProtoIds.ParamListEntries | dex_analyze.py:255-260 | a decoded parameter list has the count at `parameters_off`, parameter j being the type its in-range index at `parameters_off + 4 + 2j` names |
| ProtoIds.ProtoWithParams | dex_analyze.py:253-262 | with a non-zero offset the entry succeeds exactly when return type, every parameter and shorty index succeed; its meaning is `<ret> fun<i>(` + each name and a comma + `)` |
| FieldIds.ReadField | dex_analyze.py:283 | the loop step, computing `FieldRecord`: class, then type, then name (its content is stated by `FieldRecordSpec`) |
| FieldIds.DecodeFieldIds | dex_analyze.py:274-283 | `field_list` is one entry per record, or the first exception |
| FieldIds.FieldAtRecord | dex_analyze.py:279-282 | entry i reads its indices at `off + 8i`, `+2`, `+4` of the buffer |
| FieldIds.FieldRecordSpec | dex_analyze.py:283 | an entry succeeds exactly when both type indices are in range and resolve and the name index is in range; IndexError or TypeError from the class index comes first |
| FieldIds.FieldListEntries | dex_analyze.py:274-283 | a decoded `field_list` has `size` entries, each the record its absolute indices give |
| MethodIds.ReadIndexLists | dex_analyze.py:295-297 | the three index lists hold, for each i, the u16, u16 and u32 of record i |
| MethodIds.ReadMethod | dex_analyze.py:301-303 | the loop step, computing `MethodRecord` (its content is stated by `MethodRecordSpec`) |
| MethodIds.DecodeMethodIds | dex_analyze.py:293-303 | `method_list` is one entry per record, or the first exception |
| MethodIds.MethodAtRecord | dex_analyze.py:294-297 | entry i reads its indices at `off + 8i`, `+2`, `+4` of the buffer |
| MethodIds.MethodRecordSpec | dex_analyze.py:301-303 | an entry succeeds exactly when the class index resolves and the proto and name indices are in range; the entry is (class name, `proto_meaning[p]`, name) |
| MethodIds.MethodListEntries | dex_analyze.py:293-303 | a decoded `method_list` has `size` entries, each the record its absolute indices give |
| ClassDefs.ClassTuple | dex_analyze.py:328-335 | a built tuple keeps the interfaces value and the raw access flags unchanged |
| ClassDefs.ReadRecords | dex_analyze.py:315-322 | the eight lists hold, for each i, the eight fields of record i, with the access flags as raw bytes |
| ClassDefs.ReadInterfaces | dex_analyze.py:326-327 | the interface comprehension computes `InterfaceList` |
| ClassDefs.ReadClassTuple | dex_analyze.py:328-335 | the loop step building the tuple as `ClassTuple`: class, superclass, then source file (its content is stated by `ClassRecordSpec`) |
| ClassDefs.DecodeClassDefs | dex_analyze.py:312-335 | `class_refs` is one entry per record, or the first exception |
| ClassDefs.ClassDefSlotsLow | dex_analyze.py:315-318 | the first four fields of record i are the buffer's bytes at `off + 32i` onward |
| ClassDefs.ClassDefSlotsHigh | dex_analyze.py:319-322 | the last four fields of record i are the buffer's bytes at `off + 32i + 16` onward |
| ClassDefs.RecordAtAbsolute | dex_analyze.py:314-322 | record i of the table slice is the record at absolute offsets |
| ClassDefs.InterfacesOfSpec | dex_analyze.py:325-327 | offset 0 is kept as the number 0; otherwise the list has the count at the offset, entry j resolving the in-range type index at `ioff + 2j` |
| ClassDefs.InterfacesOverlapCount | dex_analyze.py:326-327 | interfaces 0 and 1 are resolved from the low and high halves of the count word itself |
| ClassDefs.ClassRecordSpec | dex_analyze.py:324-335 | an entry succeeds exactly when its interfaces, class, superclass and source file succeed; the entry is the eight-tuple of them |
| ClassDefs.NoIndexSuperclassRaises | dex_analyze.py:330 | a superclass index of 0xFFFFFFFF raises IndexError |
| ClassDefs.ClassListEntries | dex_analyze.py:312-335 | a decoded `class_refs` has `size` entries, each the record at absolute offsets |
| MapList.ReadRows | dex_analyze.py:347-350 | the four lists hold, for each i, the fields at `12i + 4` onward |
| MapList.DecodeMapList | dex_analyze.py:344-356 | `map_list` has as many entries as the count at `map_off`, or raises |
| MapList.MapTypeCodeKeys | dex_analyze.py:52-71 | `gMapTypeCode` holds exactly 0x0–0x6, 0x1000–0x1003 and 0x2000–0x2006 |
| MapList.MapCountAbsolute | dex_analyze.py:345-346 | `map_size` is the word at `map_off` |
| MapList.RowAtAbsolute | dex_analyze.py:345-350 | row i is read at `map_off + 12i + 4` onward |
| MapList.MapListEntries | dex_analyze.py:344-356 | a decoded `map_list` has the count at `map_off`; entry i names its known type code and carries the size and offset after it |
| MapList.MapListFails | dex_analyze.py:353 | the map list raises exactly when some entry's type code is not in `gMapTypeCode`, and then raises KeyError |
| Results.Lookup | dex_analyze.py:229 | indexing a list fails only with IndexError |
| Results.Tabulate | dex_analyze.py:279-283 | a table loop that completes yields exactly n entries |
| Results.TabulateSound | dex_analyze.py:279-283 | the reference table loop meets `Tabulates` |
| Results.TabulatesUnique | dex_analyze.py:279-283 | `Tabulates` determines the result: it is the reference table loop |
| Results.TabulatesSucceedsIff | dex_analyze.py:279-283 | a table succeeds exactly when every entry succeeds |
| Records.WordSlot | dex_analyze.py:210-211 | word k of a 4-byte table is the buffer's word at `off + 4k` |
| Records.IdRecordSlots | dex_analyze.py:280-282 | the three fields of 8-byte record i are the buffer's fields at `off + 8i`, `+2`, `+4` |
| Dex.Meanings | dex_analyze.py:264 | `proto_meaning` holds the meaning of each prototype, in order |
| Dex.StringTable | dex_analyze.py:139 | the string pool has `string_ids_size` entries when it decodes |
| Dex.TypeTable | dex_analyze.py:140 | the type table has `type_ids_size` entries when it decodes |
| Dex.ProtoTable | dex_analyze.py:141 | the prototype table has `proto_ids_size` entries when it decodes |
| Dex.FieldTable | dex_analyze.py:142 | the field table has `field_ids_size` entries when it decodes |
| Dex.MethodTable | dex_analyze.py:143 | the method table has `method_ids_size` entries when it decodes |
| Dex.ClassTable | dex_analyze.py:144 | the class table has `class_defs_size` entries when it decodes |
| Dex.MapTableOf | dex_analyze.py:145 | the map list has the count at `map_off` entries when it decodes |
| Dex.Analyze | dex_analyze.py:116-145 | running the decoders in order gives exactly `AnalyzeSpec`: each table from the earlier ones, the first exception ending it |
| Dex.TablesParts | dex_analyze.py:139-145 | each table of a decoded file is what its decoder yields from the header and the earlier tables |
| Dex.AnalyzeCounts | dex_analyze.py:119-145 | a decoded file holds the header of the buffer and tables whose sizes are the header words at 0x38–0x60 and the count at `map_off` |
| Dex.FieldNamesInPool | dex_analyze.py:283 | every field name is a string of the pool |
| Dex.MethodNamesInPool | dex_analyze.py:301-303 | every method name is in the pool and every method prototype is one of `proto_meaning` |
| Dex.SourceFilesInPool | dex_analyze.py:332 | every class source file is a string of the pool |
| Dex.AnalyzeCrossReferences | dex_analyze.py:139-145 | in a decoded file, field, method and source-file names come from the string pool and method prototypes from the prototypes' meanings |

## Left out

- The command line (dex_analyze.py:365-411), `printl` and every `show_me`: they only print.
- `gAccessFlag` and `re_access_flag` (dex_analyze.py:29-50, 110-112): decoding never uses them. Access flags stay the four raw bytes the code keeps.
- `proto_list_data` (dex_analyze.py:242), `field_meaning` and `method_meaning`: the code builds them but never uses them, and building them cannot raise.
- MyDex copies the header fields into attributes (dex_analyze.py:121-137). The model keeps the decoded header record instead.
- `.decode('utf8')` is modelled as the identity on bytes. A UnicodeDecodeError on invalid UTF-8 is not modelled.
- Reading the file from disk is not modelled; the buffer is a parameter.
- In the method, class-definition and map tables, the list comprehensions that read the index lists before the main loop become one read loop returning the records (`ReadRecords`, `ReadIndexLists`, `ReadRows`). For `string_off_list` (dex_analyze.py:211) and `type_off_list` (dex_analyze.py:226), `DecodeStringIds` and `DecodeTypeIds` read each word inside their main loop instead. `le` cannot raise, so neither change affects the entries or the order of exceptions.
- ClassDefs.DecodeClassDefs: `interfaces_off[i]` is overwritten in place with the interface list. The model keeps that list as a sequence updated at index i. Only the current index's value is used to build the tuple. No loop invariant relates earlier elements to `class_refs`.
- Leb128.Uleb128RoundTrip: stated for lengths below 2^32, the width the format gives them. The five-byte cap would carry the round trip up to 2^35.
- The code checks none of the following, so neither does the model: the magic bytes, the Adler-32 checksum, the SHA-1 signature, and whether a header region lies inside the file. A short read returns fewer bytes. A fifth ULEB128 byte with its high bit set is accepted, and a sixth byte is never read (Leb128.Uleb128Cap). A superclass index of 0xFFFFFFFF, the Dex format's NO_INDEX, is looked up like any other index and raises IndexError (ClassDefs.NoIndexSuperclassRaises).
- The interface list is read starting at the count word itself, with no skip of 4 bytes. A zero `interfaces_off` stays the number 0, not an empty list. The model follows the code in both (ClassDefs.InterfacesOfSpec, ClassDefs.InterfacesOverlapCount).
