/**
 The engine's binary streams (`ezStreamWriter` / `ezStreamReader`), abstracted
 as sequences of tagged tokens: one token per primitive value written with
 `operator<<`. Floats are carried as opaque 32-bit patterns and never
 interpreted; strings are one token each (the engine writes a length followed
 by the bytes).

 The real streams are untagged bytes: reading past the end, or reading a value
 of another width than was written, silently yields an indeterminate value.
 The readers here report both situations as a `DecodeError` instead.
 */
module Stream {
  import opened Wrappers

  /** Unsigned integers of the widths the engine streams. */
  type u8 = x: int | 0 <= x < 0x100
  type u16 = x: int | 0 <= x < 0x1_0000
  type u32 = x: int | 0 <= x < 0x1_0000_0000
  type u64 = x: int | 0 <= x < 0x1_0000_0000_0000_0000

  /** The bit pattern of an IEEE-754 single, never interpreted. */
  type FloatBits = u32

  datatype Token =
    | U8(b: u8)
    | U16(h: u16)
    | U32(w: u32)
    | U64(q: u64)
    | F32(bits: FloatBits)
    | Str(text: string)

  datatype DecodeError =
    | Truncated                   // the stream ended before the value
    | UnexpectedToken(found: Token) // a value of another kind was written here
    | BadVersion(version: u8)    // a versioned format saw a version it does not read

  /** A decoded value together with the part of the stream after it. */
  datatype Parsed<+T> = Parsed(value: T, rest: seq<Token>)

  type Read<T> = Result<Parsed<T>, DecodeError>

  /** Truncation of a count to the width of the integer it is written as. */
  function TruncU8(n: nat): u8 {
    n % 0x100
  }

  function TruncU32(n: nat): u32 {
    n % 0x1_0000_0000
  }

  // ---------------------------------------------------------------------
  // Primitive readers

  function ReadU8(s: seq<Token>): Read<u8> {
    if |s| == 0 then Failure(Truncated)
    else if s[0].U8? then Success(Parsed(s[0].b, s[1..]))
    else Failure(UnexpectedToken(s[0]))
  }

  function ReadU16(s: seq<Token>): Read<u16> {
    if |s| == 0 then Failure(Truncated)
    else if s[0].U16? then Success(Parsed(s[0].h, s[1..]))
    else Failure(UnexpectedToken(s[0]))
  }

  function ReadU32(s: seq<Token>): Read<u32> {
    if |s| == 0 then Failure(Truncated)
    else if s[0].U32? then Success(Parsed(s[0].w, s[1..]))
    else Failure(UnexpectedToken(s[0]))
  }

  function ReadU64(s: seq<Token>): Read<u64> {
    if |s| == 0 then Failure(Truncated)
    else if s[0].U64? then Success(Parsed(s[0].q, s[1..]))
    else Failure(UnexpectedToken(s[0]))
  }

  function ReadF32(s: seq<Token>): Read<FloatBits> {
    if |s| == 0 then Failure(Truncated)
    else if s[0].F32? then Success(Parsed(s[0].bits, s[1..]))
    else Failure(UnexpectedToken(s[0]))
  }

  function ReadStr(s: seq<Token>): Read<string> {
    if |s| == 0 then Failure(Truncated)
    else if s[0].Str? then Success(Parsed(s[0].text, s[1..]))
    else Failure(UnexpectedToken(s[0]))
  }

  // ---------------------------------------------------------------------
  // Small aggregates the engine streams field by field

  /** `ezVec3`: x, y, z. */
  datatype Vec3 = Vec3(x: FloatBits, y: FloatBits, z: FloatBits)

  /** `ezColorGammaUB`: four bytes r, g, b, a. */
  datatype ColorUB = ColorUB(r: u8, g: u8, b: u8, a: u8)

  /** `ezColor`: four floats r, g, b, a. */
  datatype Color = Color(r: FloatBits, g: FloatBits, b: FloatBits, a: FloatBits)

  function WriteVec3(v: Vec3): seq<Token> {
    [F32(v.x), F32(v.y), F32(v.z)]
  }

  function ReadVec3(s: seq<Token>): Read<Vec3> {
    var x :- ReadF32(s);
    var y :- ReadF32(x.rest);
    var z :- ReadF32(y.rest);
    Success(Parsed(Vec3(x.value, y.value, z.value), z.rest))
  }

  function WriteColorUB(c: ColorUB): seq<Token> {
    [U8(c.r), U8(c.g), U8(c.b), U8(c.a)]
  }

  function ReadColorUB(s: seq<Token>): Read<ColorUB> {
    var r :- ReadU8(s);
    var g :- ReadU8(r.rest);
    var b :- ReadU8(g.rest);
    var a :- ReadU8(b.rest);
    Success(Parsed(ColorUB(r.value, g.value, b.value, a.value), a.rest))
  }

  function WriteColor(c: Color): seq<Token> {
    [F32(c.r), F32(c.g), F32(c.b), F32(c.a)]
  }

  function ReadColor(s: seq<Token>): Read<Color> {
    var r :- ReadF32(s);
    var g :- ReadF32(r.rest);
    var b :- ReadF32(g.rest);
    var a :- ReadF32(b.rest);
    Success(Parsed(Color(r.value, g.value, b.value, a.value), a.rest))
  }

  /** A record written field after field, then followed by `rest`, is its first field followed by the others. */
  lemma Reassociate(a: seq<Token>, b: seq<Token>, c: seq<Token>, d: seq<Token>, e: seq<Token>, f: seq<Token>, g: seq<Token>)
    ensures a + b + c + d + e + f + g == a + (b + (c + (d + (e + (f + g)))))
  {
  }

  lemma ReadWriteVec3(v: Vec3, rest: seq<Token>)
    ensures ReadVec3(WriteVec3(v) + rest) == Success(Parsed(v, rest))
  {
    var s := WriteVec3(v) + rest;
    assert s[1..] == [F32(v.y), F32(v.z)] + rest;
    assert s[2..] == [F32(v.z)] + rest;
    assert s[3..] == rest;
  }

  lemma ReadWriteColorUB(c: ColorUB, rest: seq<Token>)
    ensures ReadColorUB(WriteColorUB(c) + rest) == Success(Parsed(c, rest))
  {
    var s := WriteColorUB(c) + rest;
    assert s[1..] == [U8(c.g), U8(c.b), U8(c.a)] + rest;
    assert s[2..] == [U8(c.b), U8(c.a)] + rest;
    assert s[3..] == [U8(c.a)] + rest;
    assert s[4..] == rest;
  }

  lemma ReadWriteColor(c: Color, rest: seq<Token>)
    ensures ReadColor(WriteColor(c) + rest) == Success(Parsed(c, rest))
  {
    var s := WriteColor(c) + rest;
    assert s[1..] == [F32(c.g), F32(c.b), F32(c.a)] + rest;
    assert s[2..] == [F32(c.b), F32(c.a)] + rest;
    assert s[3..] == [F32(c.a)] + rest;
    assert s[4..] == rest;
  }

  // ---------------------------------------------------------------------
  // Arrays written element by element after a separately written count

  /** The tokens of every element of `xs`, in order. */
  function WriteMany<T>(xs: seq<T>, write: T -> seq<Token>): seq<Token>
    decreases |xs|
  {
    if |xs| == 0 then [] else write(xs[0]) + WriteMany(xs[1..], write)
  }

  /** Reads exactly `n` elements with `read`, one after the other. */
  function ReadMany<T>(n: nat, s: seq<Token>, read: seq<Token> -> Read<T>): (r: Read<seq<T>>)
    ensures r.Success? ==> |r.value.value| == n
  {
    if n == 0 then Success(Parsed([], s))
    else
      var first :- read(s);
      var others :- ReadMany(n - 1, first.rest, read);
      Success(Parsed([first.value] + others.value, others.rest))
  }

  /**
   Reading back as many elements as were written gives back the elements and
   leaves whatever followed them, provided every element is one the element
   reader reads back.
   */
  lemma {:induction false} ReadWriteMany<T>(
    xs: seq<T>, rest: seq<Token>,
    write: T -> seq<Token>, read: seq<Token> -> Read<T>, ok: T -> bool)
    requires forall x, r :: ok(x) ==> read(write(x) + r) == Success(Parsed(x, r))
    requires forall i :: 0 <= i < |xs| ==> ok(xs[i])
    ensures ReadMany(|xs|, WriteMany(xs, write) + rest, read) == Success(Parsed(xs, rest))
    decreases |xs|
  {
    if |xs| > 0 {
      var tail := WriteMany(xs[1..], write) + rest;
      assert WriteMany(xs, write) + rest == write(xs[0]) + tail;
      assert read(write(xs[0]) + tail) == Success(Parsed(xs[0], tail));
      ReadWriteMany(xs[1..], rest, write, read, ok);
      assert |xs| - 1 == |xs[1..]|;
      assert ReadMany(|xs| - 1, tail, read) == Success(Parsed(xs[1..], rest));
      assert [xs[0]] + xs[1..] == xs;
    } else {
      assert WriteMany(xs, write) + rest == rest;
      assert xs == [];
    }
  }
}
