/** Reads of fixed-size records in a table a decoder has rebound its
    buffer to: a field of record `k` read relative to the table is the
    field the whole buffer holds at the table offset plus that position. */
module Records {
  import opened ByteReader

  /** Word `k` of a table of `size` 4-byte words at `off`. */
  lemma {:induction false} WordSlot(buf: Bytes, off: nat, size: nat, k: nat)
    requires k < size
    ensures Le(Slice(buf, off, off + size * 4), 4 * k, 4) == Le(buf, off + 4 * k, 4)
  {
    var len := size * 4;
    var rel := 4 * k;
    TableLe(buf, off, len, rel, 4);
  }

  /** Record `i` of a table of 8-byte records (a u16, a u16 and a u32,
      as field and method ids are) holds its fields at `off + 8i`,
      `off + 8i + 2` and `off + 8i + 4` of the buffer. */
  lemma {:induction false} IdRecordSlots(buf: Bytes, off: nat, size: nat, i: nat)
    requires i < size
    ensures Le(Slice(buf, off, off + size * 8), 8 * i, 2) == Le(buf, off + 8 * i, 2)
    ensures Le(Slice(buf, off, off + size * 8), 8 * i + 2, 2) == Le(buf, off + (8 * i + 2), 2)
    ensures Le(Slice(buf, off, off + size * 8), 8 * i + 4, 4) == Le(buf, off + (8 * i + 4), 4)
  {
    var len := size * 8;
    var r0, r2, r4 := 8 * i, 8 * i + 2, 8 * i + 4;
    MulMonotone(i + 1, size, 8);
    assert r4 + 4 <= len;
    TableLe(buf, off, len, r0, 2);
    TableLe(buf, off, len, r2, 2);
    TableLe(buf, off, len, r4, 4);
  }

  lemma {:induction false} MulMonotone(a: nat, b: nat, c: nat)
    requires a <= b
    ensures c * a <= b * c
  {
  }
}
