/** `DexTypeIds`: the type-id table is `size` 4-byte indices into the
    string pool; each type is the descriptor string it names. */
module TypeIds {
  import opened ByteReader
  import opened Records
  import opened Results

  /** Entry `k`: `string_list` at the index held at `4k` in the table. */
  function TypeAt(buf: Bytes, off: nat, size: nat, strings: seq<Bytes>, k: nat): Result<Bytes> {
    Lookup(strings, Le(Slice(buf, off, off + size * 4), 4 * k, 4))
  }

  function TypeEntries(buf: Bytes, off: nat, size: nat, strings: seq<Bytes>): nat -> Result<Bytes> {
    k => TypeAt(buf, off, size, strings, k)
  }

  /** `DexTypeIds.__init__`: `type_list`, in table order. */
  method DecodeTypeIds(buf: Bytes, off: nat, size: nat, strings: seq<Bytes>) returns (r: Result<seq<Bytes>>)
    ensures Tabulates(r, size, TypeEntries(buf, off, size, strings))
  {
    ghost var f := TypeEntries(buf, off, size, strings);
    var table := Slice(buf, off, off + size * 4);
    var typeList: seq<Bytes> := [];
    for i := 0 to size
      invariant Tabulate(i, f) == Success(typeList)
    {
      var idx := Le(table, 4 * i, 4);
      assert f(i) == Lookup(strings, idx);
      if idx >= |strings| {
        TabulateStops(i, size, f, typeList, IndexError);
        return Failure(IndexError);
      }
      TabulateStep(i, f, typeList, strings[idx]);
      typeList := typeList + [strings[idx]];
    }
    TabulateSound(size, f);
    return Success(typeList);
  }

  /** Entry `k` is `string_list[le32(off + 4k)]`, or an IndexError when
      that index is past the end of the pool. */
  lemma {:induction false} TypeAtSlot(buf: Bytes, off: nat, size: nat, strings: seq<Bytes>, k: nat)
    requires k < size
    ensures var idx := Le(buf, off + 4 * k, 4);
      && (idx < |strings| ==> TypeAt(buf, off, size, strings, k) == Success(strings[idx]))
      && (idx >= |strings| ==> TypeAt(buf, off, size, strings, k) == Failure(IndexError))
  {
    WordSlot(buf, off, size, k);
  }

  /** A decoded `type_list` has `size` entries, entry `k` being the string
      whose index the table holds at `off + 4k`. */
  lemma {:induction false} TypeListEntries(buf: Bytes, off: nat, size: nat, strings: seq<Bytes>, r: Result<seq<Bytes>>)
    requires Tabulates(r, size, TypeEntries(buf, off, size, strings)) && r.Success?
    ensures |r.value| == size
    ensures forall k :: 0 <= k < size ==>
      Le(buf, off + 4 * k, 4) < |strings| && r.value[k] == strings[Le(buf, off + 4 * k, 4)]
  {
    forall k | 0 <= k < size
      ensures Le(buf, off + 4 * k, 4) < |strings| && r.value[k] == strings[Le(buf, off + 4 * k, 4)]
    {
      assert TypeEntries(buf, off, size, strings)(k) == Success(r.value[k]);
      TypeAtSlot(buf, off, size, strings, k);
    }
  }
}
