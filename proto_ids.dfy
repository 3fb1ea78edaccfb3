/** `DexProtoIds`: the proto-id table is `size` 12-byte records
    (`shorty_idx`, `return_type_idx`, `parameters_off`). A record with a
    non-zero `parameters_off` has a parameter list there: a 4-byte count,
    then one 2-byte type index per parameter. Besides the tuple the decoder
    builds a readable signature, `proto_meaning`, such as `int fun3(long,)`. */
module ProtoIds {
  import opened ByteReader
  import opened Records
  import opened Results
  import opened Descriptors

  /** An entry of `proto_list`: the 2-tuple `(shorty, return type)` when
      the record has no parameter list, the 3-tuple with the parameter
      types otherwise. */
  datatype Proto = Proto(shorty: Bytes, returnType: Bytes, parameters: Option<seq<Bytes>>)

  /** Entry `i` of `proto_list` with entry `i` of `proto_meaning`. */
  datatype ProtoItem = ProtoItem(proto: Proto, meaning: Bytes)

  /** A parameter: its type descriptor and the readable name of it. */
  datatype Param = Param(descriptor: Bytes, name: Bytes)

  const Fun: Bytes := Ascii(" fun")
  const NoParams: Bytes := Ascii("( )")
  const OpenParen: Byte := 0x28
  const CloseParen: Byte := 0x29
  const Comma: Byte := 0x2C
  const Zero: Byte := 0x30

  /** `str(n)`: the decimal digits of `n`, most significant first. */
  function Decimal(n: nat): (r: Bytes)
    ensures |r| >= 1 && forall k :: 0 <= k < |r| ==> Zero <= r[k] <= Zero + 9
  {
    if n < 10 then [Zero + n] else Decimal(n / 10) + [Zero + n % 10]
  }

  /** The number a string of decimal digits denotes. */
  function DigitsValue(s: Bytes): nat
    requires forall k :: 0 <= k < |s| ==> Zero <= s[k] <= Zero + 9
  {
    if s == [] then 0 else DigitsValue(s[..|s| - 1]) * 10 + (s[|s| - 1] - Zero)
  }

  /** `str(n)` reads back as `n`, and has no leading zero. */
  lemma {:induction false} DecimalRoundTrip(n: nat)
    ensures DigitsValue(Decimal(n)) == n
    ensures Decimal(n)[0] == Zero ==> n == 0
    decreases n
  {
    if n >= 10 {
      DecimalRoundTrip(n / 10);
      var d := Decimal(n);
      assert d[..|d| - 1] == Decimal(n / 10);
    }
  }

  /** Parameter `j` of the list at `poff`: the type whose 2-byte index
      follows the 4-byte count, and its readable name. */
  function ParamAt(buf: Bytes, poff: nat, types: seq<Bytes>, j: nat): Result<Param> {
    var t :- Lookup(types, Le(buf, poff + 4 + 2 * j, 2));
    var name :- Readable(t);
    Success(Param(t, name))
  }

  function ParamEntries(buf: Bytes, poff: nat, types: seq<Bytes>): nat -> Result<Param> {
    (j: nat) => ParamAt(buf, poff, types, j)
  }

  /** The parameter list at `poff`, as many entries as its count says. */
  function ParamList(buf: Bytes, poff: nat, types: seq<Bytes>): Result<seq<Param>> {
    Tabulate(Le(buf, poff, 4), ParamEntries(buf, poff, types))
  }

  /** The `param` list: the parameters' descriptors. */
  function ParamTypes(ps: seq<Param>): (r: seq<Bytes>)
    ensures |r| == |ps|
  {
    if ps == [] then [] else ParamTypes(ps[..|ps| - 1]) + [ps[|ps| - 1].descriptor]
  }

  /** Each parameter's name followed by a comma. */
  function ParamText(ps: seq<Param>): Bytes {
    if ps == [] then [] else ParamText(ps[..|ps| - 1]) + ps[|ps| - 1].name + [Comma]
  }

  lemma {:induction false} ParamsAppend(ps: seq<Param>, p: Param)
    ensures ParamTypes(ps + [p]) == ParamTypes(ps) + [p.descriptor]
    ensures ParamText(ps + [p]) == ParamText(ps) + p.name + [Comma]
  {
    assert (ps + [p])[..|ps|] == ps;
  }

  /** The meaning grown by one parameter is the meaning of one more. */
  lemma {:induction false} TextAppend(meaning: Bytes, ps: seq<Param>, p: Param)
    ensures meaning + ParamText(ps) + p.name + [Comma] == meaning + ParamText(ps + [p])
  {
    ParamsAppend(ps, p);
    var a := meaning + ParamText(ps) + p.name + [Comma];
    var b := meaning + ParamText(ps + [p]);
    assert |a| == |b|;
    assert forall k :: 0 <= k < |a| ==> a[k] == b[k];
  }

  /** The part of a meaning before the parameters: the return type's name,
      ` fun` and the record's number. */
  function Head(retName: Bytes, i: nat): Bytes {
    retName + Fun + Decimal(i)
  }

  /** Record `i` with its three fields read: what one pass of the loop of
      `DexProtoIds.__init__` appends, or the exception it raises. The return
      type is looked up and resolved first; the parameters come next; the
      shorty string is looked up last, when the tuple is built. */
  function ProtoRecord(buf: Bytes, strings: seq<Bytes>, types: seq<Bytes>, i: nat,
                       shortyIdx: nat, retIdx: nat, poff: nat): Result<ProtoItem>
  {
    var ret :- Lookup(types, retIdx);
    var retName :- Readable(ret);
    if poff == 0 then
      var shorty :- Lookup(strings, shortyIdx);
      Success(ProtoItem(Proto(shorty, ret, None), Head(retName, i) + NoParams))
    else
      var ps :- ParamList(buf, poff, types);
      var shorty :- Lookup(strings, shortyIdx);
      Success(ProtoItem(Proto(shorty, ret, Some(ParamTypes(ps))),
                        Head(retName, i) + [OpenParen] + ParamText(ps) + [CloseParen]))
  }

  /** Entry `i`: record `i` of the table, its fields read relative to the
      table slice. */
  function ProtoAt(buf: Bytes, off: nat, size: nat, strings: seq<Bytes>, types: seq<Bytes>, i: nat): Result<ProtoItem> {
    var table := Slice(buf, off, off + size * 12);
    ProtoRecord(buf, strings, types, i, Le(table, 12 * i, 4), Le(table, 12 * i + 4, 4), Le(table, 12 * i + 8, 4))
  }

  function ProtoEntries(buf: Bytes, off: nat, size: nat, strings: seq<Bytes>, types: seq<Bytes>): nat -> Result<ProtoItem> {
    (i: nat) => ProtoAt(buf, off, size, strings, types, i)
  }

  /** One pass of the inner loop: `type_list` at the index of parameter
      `j`, then its readable name. */
  method ReadParam(buf: Bytes, poff: nat, types: seq<Bytes>, j: nat) returns (r: Result<Param>)
    ensures r == ParamAt(buf, poff, types, j)
  {
    var idx := Le(buf, poff + 4 + 2 * j, 2);
    if idx >= |types| {
      return Failure(IndexError);
    }
    var myType := types[idx];
    var name := ReadableName(myType);
    if name.Failure? {
      return Failure(name.error);
    }
    return Success(Param(myType, name.value));
  }

  /** The inner loop over the parameter list at `poff`: it appends each
      parameter's descriptor to `param` and its name and a comma to
      `meaning`. */
  method ReadParams(buf: Bytes, poff: nat, types: seq<Bytes>, meaning: Bytes)
    returns (r: Result<(seq<Bytes>, Bytes)>)
    ensures ParamList(buf, poff, types).Failure? ==> r == Failure(ParamList(buf, poff, types).error)
    ensures ParamList(buf, poff, types).Success? ==>
      var ps := ParamList(buf, poff, types).value;
      r == Success((ParamTypes(ps), meaning + ParamText(ps)))
  {
    ghost var f := ParamEntries(buf, poff, types);
    var paramSize := Le(buf, poff, 4);
    var param: seq<Bytes> := [];
    var text := meaning;
    ghost var ps: seq<Param> := [];
    for j := 0 to paramSize
      invariant Tabulate(j, f) == Success(ps)
      invariant param == ParamTypes(ps) && text == meaning + ParamText(ps)
    {
      var p := ReadParam(buf, poff, types, j);
      assert f(j) == p;
      if p.Failure? {
        TabulateStops(j, paramSize, f, ps, p.error);
        TabulatesUnique(Failure(p.error), paramSize, f);
        return Failure(p.error);
      }
      TabulateStep(j, f, ps, p.value);
      ParamsAppend(ps, p.value);
      TextAppend(meaning, ps, p.value);
      text := text + p.value.name + [Comma];
      param := param + [p.value.descriptor];
      ps := ps + [p.value];
    }
    return Success((param, text));
  }

  /** One pass of the loop of `DexProtoIds.__init__`, from the three fields
      of record `i` on. */
  method ReadProto(buf: Bytes, strings: seq<Bytes>, types: seq<Bytes>, i: nat,
                   shortyIdx: nat, retIdx: nat, poff: nat) returns (r: Result<ProtoItem>)
    ensures r == ProtoRecord(buf, strings, types, i, shortyIdx, retIdx, poff)
  {
    if retIdx >= |types| {
      return Failure(IndexError);
    }
    var retName := ReadableName(types[retIdx]);
    if retName.Failure? {
      return Failure(retName.error);
    }
    var meaning := retName.value + Fun + Decimal(i);
    if poff == 0 {
      meaning := meaning + NoParams;
      if shortyIdx >= |strings| {
        return Failure(IndexError);
      }
      return Success(ProtoItem(Proto(strings[shortyIdx], types[retIdx], None), meaning));
    }
    meaning := meaning + [OpenParen];
    var params := ReadParams(buf, poff, types, meaning);
    if params.Failure? {
      return Failure(params.error);
    }
    var (param, text) := params.value;
    meaning := text + [CloseParen];
    if shortyIdx >= |strings| {
      return Failure(IndexError);
    }
    return Success(ProtoItem(Proto(strings[shortyIdx], types[retIdx], Some(param)), meaning));
  }

  /** `DexProtoIds.__init__`: `proto_list` and `proto_meaning`, paired, in
      table order. */
  method DecodeProtoIds(buf: Bytes, off: nat, size: nat, strings: seq<Bytes>, types: seq<Bytes>)
    returns (r: Result<seq<ProtoItem>>)
    ensures Tabulates(r, size, ProtoEntries(buf, off, size, strings, types))
  {
    ghost var f := ProtoEntries(buf, off, size, strings, types);
    var table := Slice(buf, off, off + size * 12);
    var protos: seq<ProtoItem> := [];
    for i := 0 to size
      invariant Tabulate(i, f) == Success(protos)
    {
      var shortyIdx := Le(table, 12 * i, 4);
      var returnTypeIdx := Le(table, 12 * i + 4, 4);
      var parametersOff := Le(table, 12 * i + 8, 4);
      var item := ReadProto(buf, strings, types, i, shortyIdx, returnTypeIdx, parametersOff);
      assert f(i) == item;
      if item.Failure? {
        TabulateStops(i, size, f, protos, item.error);
        return Failure(item.error);
      }
      TabulateStep(i, f, protos, item.value);
      protos := protos + [item.value];
    }
    TabulateSound(size, f);
    return Success(protos);
  }

  /** Parameter `j` of the `param` list is the descriptor of parameter `j`. */
  lemma {:induction false} ParamTypesAt(ps: seq<Param>)
    ensures forall j :: 0 <= j < |ps| ==> ParamTypes(ps)[j] == ps[j].descriptor
  {
    if ps != [] {
      ParamTypesAt(ps[..|ps| - 1]);
    }
  }

  /** The three fields of record `i` are the words the buffer holds at
      `off + 12i`, `off + 12i + 4` and `off + 12i + 8`. */
  lemma {:induction false} ProtoFields(buf: Bytes, off: nat, size: nat, i: nat)
    requires i < size
    ensures Le(Slice(buf, off, off + size * 12), 12 * i, 4) == Le(buf, off + 12 * i, 4)
    ensures Le(Slice(buf, off, off + size * 12), 12 * i + 4, 4) == Le(buf, off + (12 * i + 4), 4)
    ensures Le(Slice(buf, off, off + size * 12), 12 * i + 8, 4) == Le(buf, off + (12 * i + 8), 4)
  {
    var len := size * 12;
    var r0, r4, r8 := 12 * i, 12 * i + 4, 12 * i + 8;
    TableLe(buf, off, len, r0, 4);
    TableLe(buf, off, len, r4, 4);
    TableLe(buf, off, len, r8, 4);
  }

  /** Entry `i` of the table is record `i` as the whole buffer holds it. */
  lemma {:induction false} ProtoAtRecord(buf: Bytes, off: nat, size: nat, strings: seq<Bytes>, types: seq<Bytes>, i: nat)
    requires i < size
    ensures ProtoAt(buf, off, size, strings, types, i) ==
      ProtoRecord(buf, strings, types, i, Le(buf, off + 12 * i, 4),
                  Le(buf, off + (12 * i + 4), 4), Le(buf, off + (12 * i + 8), 4))
  {
    ProtoFields(buf, off, size, i);
  }

  /** A decoded `proto_list` has `size` entries, entry `i` made of the
      words the buffer holds at `off + 12i`, `off + 12i + 4` and
      `off + 12i + 8`. */
  lemma {:induction false} ProtoListEntries(buf: Bytes, off: nat, size: nat, strings: seq<Bytes>, types: seq<Bytes>,
                                            r: Result<seq<ProtoItem>>)
    requires Tabulates(r, size, ProtoEntries(buf, off, size, strings, types)) && r.Success?
    ensures |r.value| == size
    ensures forall i :: 0 <= i < size ==>
      ProtoRecord(buf, strings, types, i, Le(buf, off + 12 * i, 4),
                  Le(buf, off + (12 * i + 4), 4), Le(buf, off + (12 * i + 8), 4)) == Success(r.value[i])
  {
    forall i | 0 <= i < size
      ensures ProtoRecord(buf, strings, types, i, Le(buf, off + 12 * i, 4),
                          Le(buf, off + (12 * i + 4), 4), Le(buf, off + (12 * i + 8), 4)) == Success(r.value[i])
    {
      assert ProtoEntries(buf, off, size, strings, types)(i) == Success(r.value[i]);
      ProtoAtRecord(buf, off, size, strings, types, i);
    }
  }

  /** A record without a parameter list yields the 2-tuple and a meaning
      ending in `( )`; it raises exactly when the return type is out of
      range or unreadable, or the shorty index is out of range. */
  lemma {:induction false} ProtoWithoutParams(buf: Bytes, strings: seq<Bytes>, types: seq<Bytes>, i: nat, shortyIdx: nat, retIdx: nat)
    ensures var r := ProtoRecord(buf, strings, types, i, shortyIdx, retIdx, 0);
      r.Success? <==> retIdx < |types| && Readable(types[retIdx]).Success? && shortyIdx < |strings|
    ensures var r := ProtoRecord(buf, strings, types, i, shortyIdx, retIdx, 0);
      r.Success? ==>
        r.value == ProtoItem(Proto(strings[shortyIdx], types[retIdx], None),
                             Head(Readable(types[retIdx]).value, i) + NoParams)
  {
  }

  /** A parameter list that reads has as many entries as the count at
      `poff`, entry `j` being `type_list` at the 2-byte index at
      `poff + 4 + 2j`. */
  lemma {:induction false} ParamListEntries(buf: Bytes, poff: nat, types: seq<Bytes>)
    requires ParamList(buf, poff, types).Success?
    ensures var ps := ParamList(buf, poff, types).value;
      && |ps| == Le(buf, poff, 4)
      && forall j :: 0 <= j < |ps| ==>
           Le(buf, poff + 4 + 2 * j, 2) < |types| &&
           ParamTypes(ps)[j] == types[Le(buf, poff + 4 + 2 * j, 2)]
  {
    var ps := ParamList(buf, poff, types).value;
    var count := Le(buf, poff, 4);
    var f := ParamEntries(buf, poff, types);
    TabulateSound(count, f);
    ParamTypesAt(ps);
    forall j | 0 <= j < count
      ensures Le(buf, poff + 4 + 2 * j, 2) < |types| && ParamTypes(ps)[j] == types[Le(buf, poff + 4 + 2 * j, 2)]
    {
      assert f(j) == Success(ps[j]);
    }
  }

  /** A record with a parameter list at `poff` yields the 3-tuple of the
      shorty, the return type and the parameter list's descriptors; its
      meaning is the head, `(`, one name and comma per parameter, and `)`. */
  lemma {:induction false} ProtoWithParams(buf: Bytes, strings: seq<Bytes>, types: seq<Bytes>, i: nat,
                        shortyIdx: nat, retIdx: nat, poff: nat)
    requires poff != 0
    ensures var r := ProtoRecord(buf, strings, types, i, shortyIdx, retIdx, poff);
      r.Success? <==>
        && retIdx < |types| && Readable(types[retIdx]).Success?
        && ParamList(buf, poff, types).Success? && shortyIdx < |strings|
    ensures var r := ProtoRecord(buf, strings, types, i, shortyIdx, retIdx, poff);
      r.Success? ==>
        var ps := ParamList(buf, poff, types).value;
        r.value == ProtoItem(Proto(strings[shortyIdx], types[retIdx], Some(ParamTypes(ps))),
                             Head(Readable(types[retIdx]).value, i) + [OpenParen] + ParamText(ps) + [CloseParen])
  {
  }
}
