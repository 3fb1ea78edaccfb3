/** `DexFile.true_type`: turns a type descriptor (`I`, `[[I`,
    `Ljava/lang/String;`) into a readable name (`int`, `int[][]`,
    `java/lang/String`). The outcome is a name, Python's `None` for a form
    it does not know, or the TypeError of `None + b'[]'` when an array's
    element type is unknown. */
module Descriptors {
  import opened ByteReader
  import opened Results

  const LeftBracket: Byte := 0x5B   // '['
  const RightBracket: Byte := 0x5D  // ']'
  const ObjectTag: Byte := 0x4C     // 'L'

  /** `gTypeDescriptor`: the nine primitive type codes. */
  const TypeDescriptor: map<Bytes, Bytes> := map[
    [0x56] := Ascii("void"),     // V
    [0x5A] := Ascii("boolean"),  // Z
    [0x42] := Ascii("byte"),     // B
    [0x53] := Ascii("short"),    // S
    [0x43] := Ascii("char"),     // C
    [0x49] := Ascii("int"),      // I
    [0x4A] := Ascii("long"),     // J
    [0x46] := Ascii("float"),    // F
    [0x44] := Ascii("double")    // D
  ]

  /** The number of `[` a descriptor starts with. */
  function LeadingBrackets(t: Bytes): (d: nat)
    ensures d <= |t|
    ensures forall k :: 0 <= k < d ==> t[k] == LeftBracket
    ensures d < |t| ==> t[d] != LeftBracket
  {
    if t != [] && t[0] == LeftBracket then 1 + LeadingBrackets(t[1..]) else 0
  }

  /** `d` copies of `[]`. */
  function ArraySuffix(d: nat): (r: Bytes)
    ensures |r| == 2 * d
    ensures forall k :: 0 <= k < d ==> r[2 * k] == LeftBracket && r[2 * k + 1] == RightBracket
  {
    if d == 0 then [] else ArraySuffix(d - 1) + [LeftBracket, RightBracket]
  }

  /** `d` copies of `[`. */
  function Repeat(b: Byte, d: nat): (r: Bytes)
    ensures |r| == d && forall k :: 0 <= k < d ==> r[k] == b
  {
    seq(d, k => b)
  }

  /** What `true_type(t)` returns or raises. */
  function Resolve(t: Bytes): (r: Result<Option<Bytes>>)
    ensures r.Failure? ==> r.error == TypeError && |t| > 0 && t[0] == LeftBracket
    decreases |t|
  {
    if t in TypeDescriptor then Success(Some(TypeDescriptor[t]))
    else if |t| > 0 && t[0] == LeftBracket then
      var d := LeadingBrackets(t);
      match Resolve(t[d..])
      case Success(Some(inner)) => Success(Some(inner + ArraySuffix(d)))
      case Success(None) => Failure(TypeError)
      case Failure(e) => Failure(e)
    else if |t| > 0 && t[0] == ObjectTag then Success(Some(Slice(t, 1, |t| - 1)))
    else Success(None)
  }

  /** `true_type`, with its `while` loop counting the leading `[`. */
  method TrueType(t: Bytes) returns (r: Result<Option<Bytes>>)
    ensures r == Resolve(t)
    decreases |t|
  {
    if t in TypeDescriptor {
      r := Success(Some(TypeDescriptor[t]));
    } else if |t| > 0 && t[0] == LeftBracket {
      var res: Bytes := [];
      var i := 0;
      while i < |t| && t[i] == LeftBracket
        invariant 0 <= i <= |t|
        invariant forall k :: 0 <= k < i ==> t[k] == LeftBracket
        invariant res == ArraySuffix(i)
      {
        res := res + [LeftBracket, RightBracket];
        i := i + 1;
      }
      assert i == LeadingBrackets(t);
      var inner := TrueType(t[i..]);
      match inner {
        case Success(Some(name)) => r := Success(Some(name + res));
        case Success(None) => r := Failure(TypeError);
        case Failure(e) => r := Failure(e);
      }
    } else if |t| > 0 && t[0] == ObjectTag {
      r := Success(Some(Slice(t, 1, |t| - 1)));
    } else {
      r := Success(None);
    }
  }

  /** `true_type(type_list[idx])`: the lookup raises first, then the
      descriptor is resolved. */
  function ResolveAt(types: seq<Bytes>, idx: nat): (r: Result<Option<Bytes>>)
    ensures idx >= |types| ==> r == Failure(IndexError)
    ensures idx < |types| ==> r == Resolve(types[idx])
  {
    match Lookup(types, idx)
    case Failure(e) => Failure(e)
    case Success(t) => Resolve(t)
  }

  /** `true_type(t).decode('utf8')`: a name, read as its bytes, or the
      AttributeError of calling `decode` on `None`. */
  function Readable(t: Bytes): (r: Result<Bytes>)
    ensures r.Success? <==> Resolve(t).Success? && Resolve(t).value.Some?
    ensures r.Success? ==> Resolve(t) == Success(Some(r.value))
    ensures r.Failure? && Resolve(t).Success? ==> r.error == AttributeError
  {
    match Resolve(t)
    case Failure(e) => Failure(e)
    case Success(None) => Failure(AttributeError)
    case Success(Some(name)) => Success(name)
  }

  /** `true_type(type_list[idx])` in a decoder's loop. */
  method ResolveIndex(types: seq<Bytes>, idx: nat) returns (r: Result<Option<Bytes>>)
    ensures r == ResolveAt(types, idx)
  {
    if idx >= |types| {
      return Failure(IndexError);
    }
    r := TrueType(types[idx]);
  }

  /** `true_type(t).decode('utf8')` in a decoder's loop. */
  method ReadableName(t: Bytes) returns (r: Result<Bytes>)
    ensures r == Readable(t)
  {
    var name := TrueType(t);
    match name {
      case Failure(e) => r := Failure(e);
      case Success(None) => r := Failure(AttributeError);
      case Success(Some(n)) => r := Success(n);
    }
  }

  lemma {:induction false} LeadingBracketsOf(d: nat, t: Bytes)
    requires t == [] || t[0] != LeftBracket
    ensures LeadingBrackets(Repeat(LeftBracket, d) + t) == d
  {
    if d > 0 {
      assert (Repeat(LeftBracket, d) + t)[1..] == Repeat(LeftBracket, d - 1) + t;
      LeadingBracketsOf(d - 1, t);
    }
  }

  /** The nine primitive codes resolve to their keywords. */
  lemma {:induction false} ResolvePrimitive(t: Bytes)
    requires t in TypeDescriptor
    ensures |t| == 1 && Resolve(t) == Success(Some(TypeDescriptor[t]))
  {
  }

  /** `d` leading `[` before an element descriptor `t` give the name of
      `t` followed by `d` copies of `[]`; an unknown element type raises. */
  lemma {:induction false} ResolveArray(d: nat, t: Bytes)
    requires d >= 1 && (t == [] || t[0] != LeftBracket)
    ensures Resolve(Repeat(LeftBracket, d) + t) ==
      match Resolve(t)
      case Success(Some(inner)) => Success(Some(inner + ArraySuffix(d)))
      case _ => Failure(TypeError)
  {
    var s := Repeat(LeftBracket, d) + t;
    LeadingBracketsOf(d, t);
    assert s[d..] == t;
    assert s !in TypeDescriptor by {
      if |s| == 1 { assert s == [LeftBracket]; }
    }
  }

  /** `L` + x + c names the object type x: the last byte is dropped
      whatever it is. */
  lemma {:induction false} ResolveObject(x: Bytes, c: Byte)
    ensures Resolve([ObjectTag] + x + [c]) == Success(Some(x))
  {
    var s := [ObjectTag] + x + [c];
    assert s !in TypeDescriptor by {
      if |s| == 1 { assert false; }
    }
    SliceIsRange(s, 1, |s| - 1);
    assert s[1..|s| - 1] == x;
  }

  /** A lone `L` names the empty object type. */
  lemma {:induction false} ResolveBareObjectTag()
    ensures Resolve([ObjectTag]) == Success(Some([]))
  {
    assert [ObjectTag] !in TypeDescriptor;
  }

  /** Every other form yields `None`. */
  lemma {:induction false} ResolveUnknown(t: Bytes)
    requires t !in TypeDescriptor
    requires t == [] || (t[0] != LeftBracket && t[0] != ObjectTag)
    ensures Resolve(t) == Success(None)
  {
  }

  /** `[[I` is `int[][]`. */
  lemma {:induction false} ResolveIntMatrix()
    ensures Resolve(Ascii("[[I")) == Success(Some(Ascii("int[][]")))
  {
    assert Ascii("[[I") == Repeat(LeftBracket, 2) + [0x49];
    ResolveArray(2, [0x49]);
    assert TypeDescriptor[[0x49]] + ArraySuffix(2) == Ascii("int[][]");
  }

  /** `Ljava/lang/String;` is `java/lang/String`. */
  lemma {:induction false} ResolveStringClass()
    ensures Resolve(Ascii("Ljava/lang/String;")) == Success(Some(Ascii("java/lang/String")))
  {
    assert Ascii("Ljava/lang/String;") == [ObjectTag] + Ascii("java/lang/String") + [0x3B];
    ResolveObject(Ascii("java/lang/String"), 0x3B);
  }

  /** `X` is not a form `true_type` knows, and `[X` raises. */
  lemma {:induction false} ResolveUnknownElement()
    ensures Resolve(Ascii("X")) == Success(None)
    ensures Resolve(Ascii("[X")) == Failure(TypeError)
  {
    assert Ascii("X") == [0x58];
    assert [0x58] !in TypeDescriptor;
    assert Ascii("[X") == Repeat(LeftBracket, 1) + [0x58];
    ResolveArray(1, [0x58]);
  }
}
