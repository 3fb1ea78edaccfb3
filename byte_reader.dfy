/** The byte readers every decoder of dex_analyze.py inherits from
    `DexFile`: `le`, `be` and `dd` take a Python slice of the buffer, so a
    read that runs past the end silently yields the bytes that exist. */
module ByteReader {

  type Byte = b: nat | b < 256
  type Bytes = seq<Byte>

  function Min(a: nat, b: nat): nat { if a <= b then a else b }

  function Pow256(n: nat): (p: nat)
    ensures p >= 1
  {
    if n == 0 then 1 else 256 * Pow256(n - 1)
  }

  /** Python's `s[lo:hi]` for non-negative bounds: the elements from `lo`
      up to `hi` or the end, whichever comes first; none when `lo` is not
      below both. */
  function Slice(s: Bytes, lo: nat, hi: nat): (r: Bytes)
    ensures |r| == if lo < hi && lo < |s| then Min(hi, |s|) - lo else 0
    decreases |s| - lo
  {
    if lo < hi && lo < |s| then [s[lo]] + Slice(s, lo + 1, hi) else []
  }

  /** Byte `k` of a slice is byte `lo + k` of the sequence. */
  lemma {:induction false} SliceAt(s: Bytes, lo: nat, hi: nat)
    ensures forall k :: 0 <= k < |Slice(s, lo, hi)| ==> Slice(s, lo, hi)[k] == s[lo + k]
    decreases hi - lo
  {
    if lo < hi && lo < |s| {
      SliceAt(s, lo + 1, hi);
    }
  }

  /** Slicing past `soff` is slicing the tail `s[soff..]`. */
  lemma {:induction false} SliceTail(s: Bytes, soff: nat, k: nat, n: nat)
    requires soff <= |s|
    ensures Slice(s, soff + k, soff + k + n) == Slice(s[soff..], k, k + n)
  {
    var a := Slice(s, soff + k, soff + k + n);
    var b := Slice(s[soff..], k, k + n);
    SliceAt(s, soff + k, soff + k + n);
    SliceAt(s[soff..], k, k + n);
    assert |a| == |b|;
    assert forall j :: 0 <= j < |a| ==> a[j] == b[j];
  }

  /** Slicing past a prefix `p` is slicing what follows it. */
  lemma {:induction false} SliceAfter(p: Bytes, t: Bytes, n: nat)
    ensures Slice(p + t, |p|, |p| + n) == Slice(t, 0, n)
  {
    SliceSkip(p, t, 0, n);
  }

  /** The first `|x|` bytes of `x + post` are `x`. */
  lemma {:induction false} SliceHead(x: Bytes, post: Bytes)
    ensures Slice(x + post, 0, |x|) == x
  {
    SliceAt(x + post, 0, |x|);
  }

  /** The slice is the subsequence Dafny writes `s[lo..Min(hi, |s|)]`,
      bounds clamped to the length. */
  lemma {:induction false} SliceIsRange(s: Bytes, lo: nat, hi: nat)
    requires lo <= hi
    ensures Slice(s, lo, hi) == s[Min(lo, |s|)..Min(hi, |s|)]
  {
    SliceAt(s, lo, hi);
  }

  /** `int.from_bytes(s, 'little')`. */
  function LeValue(s: Bytes): (v: nat)
    ensures v < Pow256(|s|)
  {
    if s == [] then 0 else s[0] + 256 * LeValue(s[1..])
  }

  /** `int.from_bytes(s, 'big')`. */
  function BeValue(s: Bytes): (v: nat)
    ensures v < Pow256(|s|)
  {
    if s == [] then 0 else BeValue(s[..|s| - 1]) * 256 + s[|s| - 1]
  }

  /** `DexFile.le(start, size)`: an unsigned little-endian integer of at
      most `size` bytes, byte by byte: a read that runs past the end stops
      there (LeFromBytes states it is `int.from_bytes` of the slice). */
  function Le(buf: Bytes, start: nat, size: nat): (v: nat)
    ensures v < Pow256(size)
    ensures start >= |buf| ==> v == 0
    decreases |buf| - start
  {
    if size == 0 || start >= |buf| then 0 else buf[start] + 256 * Le(buf, start + 1, size - 1)
  }

  /** `le` is `int.from_bytes(buf[start:start+size], 'little')`. */
  lemma {:induction false} LeFromBytes(buf: Bytes, start: nat, size: nat)
    ensures Le(buf, start, size) == LeValue(Slice(buf, start, start + size))
    decreases size
  {
    var s := Slice(buf, start, start + size);
    if size > 0 && start < |buf| {
      LeFromBytes(buf, start + 1, size - 1);
      SliceAt(buf, start, start + size);
      SliceAt(buf, start + 1, start + size);
      assert s[1..] == Slice(buf, start + 1, start + size);
    }
  }

  /** Two buffers that agree on a window, `s` at `k` holding what `buf`
      holds at `d + k` and running out at the same place, give the same
      little-endian reads in it. */
  lemma {:induction false} LeWindow(s: Bytes, buf: Bytes, d: nat, rel: nat, size: nat)
    requires Min(|s|, rel + size) <= rel || Min(|s|, rel + size) + d == Min(|buf|, d + rel + size)
    requires size > 0 && |s| <= rel ==> |buf| <= d + rel
    requires forall k :: rel <= k < Min(|s|, rel + size) ==> s[k] == buf[d + k]
    ensures Le(s, rel, size) == Le(buf, d + rel, size)
    decreases size
  {
    if size > 0 && rel < |s| {
      LeWindow(s, buf, d, rel + 1, size - 1);
    }
  }

  /** `DexFile.be(start, size)`. */
  function Be(buf: Bytes, start: nat, size: nat): (v: nat)
    ensures v < Pow256(size)
    ensures start >= |buf| ==> v == 0
  {
    PowMonotone(|Slice(buf, start, start + size)|, size);
    BeValue(Slice(buf, start, start + size))
  }

  /** `DexFile.dd(start, size)`: the raw bytes. */
  function Dd(buf: Bytes, start: nat, size: nat): (r: Bytes)
    ensures |r| <= size
    ensures start + size <= |buf| ==> r == buf[start..start + size]
  {
    SliceIsRange(buf, start, start + size);
    Slice(buf, start, start + size)
  }

  lemma {:induction false} PowMonotone(m: nat, n: nat)
    requires m <= n
    ensures Pow256(m) <= Pow256(n)
  {
    if m < n {
      PowMonotone(m, n - 1);
    }
  }

  /** A read wholly inside the buffer sees exactly the bytes it names; one
      that starts inside and runs past the end sees the bytes up to the end. */
  lemma {:induction false} ReadTruncates(buf: Bytes, start: nat, size: nat)
    requires start <= |buf|
    ensures Le(buf, start, size) == LeValue(buf[start..Min(start + size, |buf|)])
    ensures Be(buf, start, size) == BeValue(buf[start..Min(start + size, |buf|)])
    ensures Dd(buf, start, size) == buf[start..Min(start + size, |buf|)]
  {
    SliceIsRange(buf, start, start + size);
    LeFromBytes(buf, start, size);
  }

  /** A decoder that rebinds its buffer to the table slice
      `buf[base:base+len]` sees, at relative offset `rel`, what the whole
      buffer holds at `base + rel`, as long as the read stays in the table. */
  lemma {:induction false} TableSlice(buf: Bytes, base: nat, len: nat, rel: nat, size: nat)
    requires rel + size <= len
    ensures Slice(Slice(buf, base, base + len), rel, rel + size) == Slice(buf, base + rel, base + rel + size)
  {
    var t := Slice(buf, base, base + len);
    var a := Slice(t, rel, rel + size);
    var b := Slice(buf, base + rel, base + rel + size);
    SliceAt(buf, base, base + len);
    SliceAt(t, rel, rel + size);
    SliceAt(buf, base + rel, base + rel + size);
    assert |a| == |b|;
    assert forall k :: 0 <= k < |a| ==> a[k] == b[k];
    assert a == b;
  }

  /** `le` on the table slice reads the integer the buffer holds there. */
  lemma {:induction false} TableLe(buf: Bytes, base: nat, len: nat, rel: nat, size: nat)
    requires rel + size <= len
    ensures Le(Slice(buf, base, base + len), rel, size) == Le(buf, base + rel, size)
  {
    var t := Slice(buf, base, base + len);
    SliceAt(buf, base, base + len);
    LeWindow(t, buf, base, rel, size);
  }

  /** `dd` on the table slice reads the bytes the buffer holds there. */
  lemma {:induction false} TableDd(buf: Bytes, base: nat, len: nat, rel: nat, size: nat)
    requires rel + size <= len
    ensures Dd(Slice(buf, base, base + len), rel, size) == Dd(buf, base + rel, size)
  {
    TableSlice(buf, base, len, rel, size);
  }

  /** A decoder that rebinds its buffer to `buf[off:]` reads at `rel` what
      the buffer holds at `off + rel`. */
  lemma {:induction false} TailLe(buf: Bytes, off: nat, rel: nat, width: nat)
    ensures Le(Slice(buf, off, |buf|), rel, width) == Le(buf, off + rel, width)
  {
    var t := Slice(buf, off, |buf|);
    SliceAt(buf, off, |buf|);
    LeWindow(t, buf, off, rel, width);
  }

  /** The first `m + n` bytes are the first `m` plus 256^m times the
      next `n`. */
  lemma {:induction false} LeConcat(buf: Bytes, start: nat, m: nat, n: nat)
    ensures Le(buf, start, m + n) == Le(buf, start, m) + Pow256(m) * Le(buf, start + m, n)
    decreases m
  {
    if m > 0 && start < |buf| {
      LeConcat(buf, start + 1, m - 1, n);
      var b: nat := buf[start];
      var lo := Le(buf, start + 1, m - 1);
      var hi := Le(buf, start + 1 + (m - 1), n);
      assert start + 1 + (m - 1) == start + m;
      var mid := Le(buf, start + 1, m - 1 + n);
      assert Le(buf, start, m + n) == b + 256 * mid;
      assert Le(buf, start, m) == b + 256 * lo;
      ShiftDigit(b, lo, hi, Pow256(m - 1), Pow256(m), mid);
    }
  }

  /** The arithmetic of one step of LeConcat. */
  lemma {:induction false} ShiftDigit(b: nat, lo: nat, hi: nat, p: nat, q: nat, mid: nat)
    requires q == 256 * p && mid == lo + p * hi
    ensures b + 256 * mid == (b + 256 * lo) + q * hi
  {
    MulAssoc(256, p, hi);
  }

  lemma {:induction false} MulAssoc(a: nat, b: nat, c: nat)
    ensures a * (b * c) == (a * b) * c
  {
  }

  /** A 4-byte little-endian word is its low 2-byte half plus 2^16 times
      its high half. */
  lemma {:induction false} LeSplit(buf: Bytes, start: nat)
    ensures Le(buf, start, 4) == Le(buf, start, 2) + 0x1_0000 * Le(buf, start + 2, 2)
  {
    LeConcat(buf, start, 2, 2);
    assert Pow256(2) == 0x1_0000;
  }

  /** The `size`-byte little-endian encoding of `v` (modulo 256^size). */
  function LeEncode(v: nat, size: nat): (r: Bytes)
    ensures |r| == size
    decreases size, v
  {
    if size == 0 then [] else [v % 256] + LeEncode(v / 256, size - 1)
  }

  /** The `size`-byte big-endian encoding of `v` (modulo 256^size). */
  function BeEncode(v: nat, size: nat): (r: Bytes)
    ensures |r| == size
    decreases size, v
  {
    if size == 0 then [] else BeEncode(v / 256, size - 1) + [v % 256]
  }

  lemma {:induction false} LeRoundTrip(v: nat, size: nat)
    requires v < Pow256(size)
    ensures LeValue(LeEncode(v, size)) == v
  {
    if size > 0 {
      LeRoundTrip(v / 256, size - 1);
      assert LeEncode(v, size)[1..] == LeEncode(v / 256, size - 1);
    }
  }

  lemma {:induction false} BeRoundTrip(v: nat, size: nat)
    requires v < Pow256(size)
    ensures BeValue(BeEncode(v, size)) == v
  {
    if size > 0 {
      BeRoundTrip(v / 256, size - 1);
      var e := BeEncode(v, size);
      assert e[..|e| - 1] == BeEncode(v / 256, size - 1);
    }
  }

  /** Reading back what was stored at the start of a buffer. */
  lemma {:induction false} ReadHead(x: Bytes, post: Bytes, size: nat)
    requires size == |x|
    ensures Le(x + post, 0, size) == LeValue(x)
    ensures Be(x + post, 0, size) == BeValue(x)
    ensures Dd(x + post, 0, size) == x
  {
    SliceHead(x, post);
    LeFromBytes(x + post, 0, size);
  }

  /** Reads past a prefix `p` are reads of what follows it. */
  lemma {:induction false} ReadSkip(p: Bytes, t: Bytes, o: nat, at: nat, size: nat)
    requires at == |p| + o
    ensures Le(p + t, at, size) == Le(t, o, size)
    ensures Be(p + t, at, size) == Be(t, o, size)
    ensures Dd(p + t, at, size) == Dd(t, o, size)
  {
    SliceSkip(p, t, o, size);
    var buf := p + t;
    assert forall k :: o <= k < |t| ==> t[k] == buf[|p| + k];
    LeWindow(t, buf, |p|, o, size);
  }

  lemma {:induction false} SliceSkip(p: Bytes, t: Bytes, o: nat, size: nat)
    ensures Slice(p + t, |p| + o, |p| + o + size) == Slice(t, o, o + size)
  {
    var a := Slice(p + t, |p| + o, |p| + o + size);
    var b := Slice(t, o, o + size);
    SliceAt(p + t, |p| + o, |p| + o + size);
    SliceAt(t, o, o + size);
    assert |a| == |b|;
    assert forall k :: 0 <= k < |a| ==> a[k] == b[k];
  }

  /** Reads that end inside `a` do not see what follows it. */
  lemma {:induction false} ReadFront(a: Bytes, b: Bytes, at: nat, size: nat)
    requires at + size <= |a|
    ensures Le(a + b, at, size) == Le(a, at, size)
    ensures Be(a + b, at, size) == Be(a, at, size)
    ensures Dd(a + b, at, size) == Dd(a, at, size)
  {
    var x := Slice(a + b, at, at + size);
    var y := Slice(a, at, at + size);
    SliceAt(a + b, at, at + size);
    SliceAt(a, at, at + size);
    assert |x| == |y|;
    assert forall k :: 0 <= k < |x| ==> x[k] == y[k];
    assert x == y;
    LeFromBytes(a + b, at, size);
    LeFromBytes(a, at, size);
  }

  /** The bytes of an ASCII text. */
  function Ascii(s: string): (r: Bytes)
    ensures |r| == |s|
  {
    seq(|s|, k requires 0 <= k < |s| => (s[k] as int) % 256)
  }
}
