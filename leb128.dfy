/** `DexFile.uleb128`: unsigned LEB128 (section 7.6 of the DWARF 4
    standard), which the Dex format uses for the length prefix of a string.
    Each byte contributes its low seven bits, least significant group first;
    a byte above 0x7F announces another one. The decoder reads at most five
    bytes and does not complain when the fifth still has its top bit set. */
module Leb128 {
  import opened ByteReader
  import opened Results

  /** `uleb128` reads `data[pt]` for pt in 0..4 at most. */
  const MaxIndex: nat := 4

  function Pow128(n: nat): (p: nat)
    ensures p >= 1
  {
    if n == 0 then 1 else 128 * Pow128(n - 1)
  }

  /** The number whose base-128 digits, least significant first, are the
      low seven bits of the bytes of `s`. */
  function Base128(s: Bytes): (v: nat)
    ensures v < Pow128(|s|)
  {
    if s == [] then 0 else s[0] % 128 + 128 * Base128(s[1..])
  }

  /** The index at which the loop of `uleb128`, having reached index `k`,
      stops: the first byte from `k` on that is at most 0x7F, index 4, or
      the first index past the end of `data` (where the lookup raises). */
  function StopIndex(data: Bytes, k: nat): (pt: nat)
    requires k <= MaxIndex
    ensures k <= pt <= MaxIndex
    ensures forall j :: k <= j < pt ==> j < |data| && data[j] > 0x7F
    ensures pt < MaxIndex ==> pt >= |data| || data[pt] <= 0x7F
    decreases MaxIndex - k
  {
    if k == MaxIndex || k >= |data| || data[k] <= 0x7F then k else StopIndex(data, k + 1)
  }

  /** The seven low bits of `b` placed as base-128 digit `pt`. */
  function Digit(b: Byte, pt: nat): nat {
    (b % 128) * Pow128(pt)
  }

  /** What `uleb128(data)` returns: `(res, pt)`, where `pt` is the index of
      the last byte read and `res` the base-128 value of the bytes up to it,
      or the IndexError of reading past the end. As each byte's bits land
      above the ones already taken, the source's OR adds disjoint bits
      (`OrIsAdd`). */
  function DecodeUleb128(data: Bytes): Result<(nat, nat)> {
    var stop := StopIndex(data, 0);
    if stop < |data| then Success((Base128(data[..stop + 1]), stop)) else Failure(IndexError)
  }

  /** Digit `n + 1` is 128 times digit `n`. */
  lemma {:induction false} DigitShift(b: Byte, n: nat)
    ensures Digit(b, n + 1) == 128 * Digit(b, n)
  {
    var x := b % 128;
    var p := Pow128(n);
    assert Pow128(n + 1) == 128 * p;
    assert x * (128 * p) == 128 * (x * p);
  }

  /** Appending a byte adds its seven bits above the ones already there. */
  lemma {:induction false} Base128Append(s: Bytes, b: Byte)
    ensures Base128(s + [b]) == Base128(s) + Digit(b, |s|)
  {
    if s != [] {
      var t := s[1..];
      assert (s + [b])[1..] == t + [b];
      Base128Append(t, b);
      DigitShift(b, |t|);
    }
  }

  /** The bound `res < 128^pt` the loop keeps, as a shift: `128^pt` is
      `1 << 7pt` for every index the loop reaches. */
  lemma {:induction false} Pow128Shift(pt: nat)
    requires pt <= MaxIndex
    ensures Pow128(pt) == (1 as bv64 << (7 * pt)) as nat
  {
    assert Pow128(1) == 128;
    assert Pow128(2) == 0x4000;
    assert Pow128(3) == 0x20_0000;
    assert Pow128(4) == 0x1000_0000;
  }

  /** `uleb128` joins each digit to `res` with `|`, the model with `+`.
      With `k = 7 * pt` and `pt <= 4`, `res` lies below `1 << k` and the
      seven-bit digit shifted by `k` shares no bit with it, so the two
      agree. 64 bits hold every value the five-byte loop reaches. */
  lemma {:induction false} OrIsAdd(res: bv64, digit: bv64, k: bv64)
    requires k <= 28 && digit < 128 && res < 1 << k
    ensures res | (digit << k) == res + (digit << k)
  {
  }

  /** `uleb128` reads bytes while they carry the continuation bit, up to
      index 4; it raises exactly when the bytes run out first, and the value
      is made of the low seven bits of the bytes read. */
  lemma {:induction false} DecodeUleb128Spec(data: Bytes)
    ensures DecodeUleb128(data).Failure? <==>
      |data| <= MaxIndex && forall j :: 0 <= j < |data| ==> data[j] > 0x7F
    ensures DecodeUleb128(data).Failure? ==> DecodeUleb128(data).error == IndexError
    ensures DecodeUleb128(data).Success? ==>
      var (res, pt) := DecodeUleb128(data).value;
      && pt <= MaxIndex && pt < |data|
      && (forall j :: 0 <= j < pt ==> data[j] > 0x7F)
      && (pt < MaxIndex ==> data[pt] <= 0x7F)
      && res == Base128(data[..pt + 1])
  {
  }

  /** `DexFile.uleb128`, with its `while` loop. */
  method Uleb128(data: Bytes) returns (r: Result<(nat, nat)>)
    ensures r == DecodeUleb128(data)
  {
    if |data| == 0 {
      return Failure(IndexError);
    }
    var pt: nat := 0;
    var res: nat := data[0] % 128;
    var cur := data[0];
    assert data[..1] == [data[0]];
    while cur > 0x7F && pt < MaxIndex
      invariant 0 <= pt <= MaxIndex && pt < |data|
      invariant cur == data[pt]
      invariant StopIndex(data, pt) == StopIndex(data, 0)
      invariant res == Base128(data[..pt + 1])
      decreases MaxIndex - pt
    {
      pt := pt + 1;
      if pt >= |data| {
        return Failure(IndexError);
      }
      cur := data[pt];
      Base128Append(data[..pt], cur);
      assert data[..pt + 1] == data[..pt] + [cur];
      res := res + Digit(cur, pt);
    }
    return Success((res, pt));
  }

  /** The shortest ULEB128 encoding of `v`. */
  function EncodeUleb128(v: nat): (r: Bytes)
    ensures |r| >= 1
    decreases v
  {
    if v < 128 then [v] else [v % 128 + 128] + EncodeUleb128(v / 128)
  }

  /** Every byte of an encoding but the last carries the continuation bit. */
  lemma {:induction false} EncodeShape(v: nat)
    ensures var e := EncodeUleb128(v);
      e[|e| - 1] <= 0x7F && forall j :: 0 <= j < |e| - 1 ==> e[j] > 0x7F
    decreases v
  {
    if v >= 128 {
      EncodeShape(v / 128);
      var e := EncodeUleb128(v);
      assert e[1..] == EncodeUleb128(v / 128);
    }
  }

  /** The digits of an encoding make up the value encoded. */
  lemma {:induction false} EncodeValue(v: nat)
    ensures Base128(EncodeUleb128(v)) == v
    decreases v
  {
    if v >= 128 {
      EncodeValue(v / 128);
      var e := EncodeUleb128(v);
      var d := v % 128;
      assert e[0] == d + 128 && e[1..] == EncodeUleb128(v / 128);
      assert (d + 128) % 128 == d;
      assert Base128(e) == d + 128 * (v / 128);
    }
  }

  /** A value below 128^n takes at most n bytes. */
  lemma {:induction false} EncodeLength(v: nat, n: nat)
    requires 1 <= n && v < Pow128(n)
    ensures |EncodeUleb128(v)| <= n
    decreases v
  {
    if v >= 128 {
      EncodeLength(v / 128, n - 1);
    }
  }

  /** Decoding the shortest encoding of a 32-bit value, whatever follows
      it, gives back the value and the index of its last byte. */
  lemma {:induction false} Uleb128RoundTrip(v: nat, rest: Bytes)
    requires v < 0x1_0000_0000
    ensures DecodeUleb128(EncodeUleb128(v) + rest) == Success((v, |EncodeUleb128(v)| - 1))
  {
    var e := EncodeUleb128(v);
    var data := e + rest;
    assert Pow128(5) == 0x8_0000_0000;
    EncodeLength(v, 5);
    EncodeShape(v);
    EncodeValue(v);
    assert data[..|e|] == e;
    assert forall j :: 0 <= j < |e| ==> data[j] == e[j];
  }

  /** Five bytes that all announce a successor still decode: the fifth
      byte's continuation bit is ignored. */
  lemma {:induction false} Uleb128Cap(data: Bytes)
    requires |data| >= 5 && forall j :: 0 <= j < 4 ==> data[j] > 0x7F
    ensures DecodeUleb128(data) == Success((Base128(data[..5]), 4))
  {
  }
}
