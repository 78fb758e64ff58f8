/** `new TextEncoder().encode(s)`: UTF-8 encoding of a string of Unicode scalar values. */
module Utf8 {

  /** One element of a `Uint8Array`. */
  newtype byte = x: int | 0 <= x < 0x100

  /** The number of bytes UTF-8 uses for a scalar value. */
  function Width(c: char): nat
  {
    var v := c as int;
    if v < 0x80 then 1 else if v < 0x800 then 2 else if v < 0x10000 then 3 else 4
  }

  /** A continuation byte carrying the low six bits of `x`. */
  function Cont(x: nat): (b: byte)
    ensures 0x80 <= b < 0xC0 && b as int == 0x80 + x % 0x40
  {
    (0x80 + x % 0x40) as byte
  }

  function EncodeChar(c: char): (b: seq<byte>)
    ensures |b| == Width(c)
    ensures c as int < 0x80 ==> b == [c as int as byte]
    ensures c as int >= 0x80 ==> forall i :: 1 <= i < |b| ==> 0x80 <= b[i] < 0xC0
  {
    var v := c as int;
    if v < 0x80 then [v as byte]
    else if v < 0x800 then [(0xC0 + v / 0x40) as byte, Cont(v)]
    else if v < 0x10000 then [(0xE0 + v / 0x1000) as byte, Cont(v / 0x40), Cont(v)]
    else [(0xF0 + v / 0x40000) as byte, Cont(v / 0x1000), Cont(v / 0x40), Cont(v)]
  }

  /** Reads back the scalar value of one encoded character from its bytes. */
  function DecodeChar(b: seq<byte>): int
    requires 1 <= |b| <= 4
  {
    var b0 := b[0] as int;
    if |b| == 1 then b0
    else if |b| == 2 then (b0 - 0xC0) * 0x40 + (b[1] as int - 0x80)
    else if |b| == 3 then (b0 - 0xE0) * 0x1000 + (b[1] as int - 0x80) * 0x40 + (b[2] as int - 0x80)
    else (b0 - 0xF0) * 0x40000 + (b[1] as int - 0x80) * 0x1000 + (b[2] as int - 0x80) * 0x40 + (b[3] as int - 0x80)
  }

  /** Every character's encoding decodes back to the character. */
  lemma EncodeCharRoundTrip(c: char)
    ensures DecodeChar(EncodeChar(c)) == c as int
  {
    var v := c as int;
    if v < 0x80 {
    } else if v < 0x800 {
      TwoBytes(v);
    } else if v < 0x10000 {
      ThreeBytes(v);
    } else {
      FourBytes(v);
    }
  }

  lemma TwoBytes(v: nat)
    ensures (v / 0x40) * 0x40 + v % 0x40 == v
  {
  }

  lemma ThreeBytes(v: nat)
    ensures (v / 0x1000) * 0x1000 + ((v / 0x40) % 0x40) * 0x40 + v % 0x40 == v
  {
  }

  lemma FourBytes(v: nat)
    ensures (v / 0x40000) * 0x40000 + ((v / 0x1000) % 0x40) * 0x1000 + ((v / 0x40) % 0x40) * 0x40 + v % 0x40 == v
  {
    var w := v / 0x40;
    var u := w / 0x40;
    assert v / 0x1000 == u;
    assert v / 0x40000 == u / 0x40;
    assert v == w * 0x40 + v % 0x40;
    assert w == u * 0x40 + w % 0x40;
    assert u == (u / 0x40) * 0x40 + u % 0x40;
  }

  function Encode(s: string): (b: seq<byte>)
    ensures |b| >= |s|
  {
    if s == [] then [] else Encode(s[..|s| - 1]) + EncodeChar(s[|s| - 1])
  }

  lemma {:induction false} EncodeAppend(a: string, b: string)
    ensures Encode(a + b) == Encode(a) + Encode(b)
  {
    if b == [] {
      assert a + b == a;
    } else {
      assert (a + b)[..|a + b| - 1] == a + b[..|b| - 1];
      EncodeAppend(a, b[..|b| - 1]);
    }
  }

  predicate IsAscii(s: string) { forall i :: 0 <= i < |s| ==> s[i] as int < 0x80 }

  /** A string of ASCII characters encodes to one byte per character, the character's code. */
  lemma {:induction false} EncodeAscii(s: string)
    requires IsAscii(s)
    ensures |Encode(s)| == |s|
    ensures forall i :: 0 <= i < |s| ==> Encode(s)[i] as int == s[i] as int
  {
    if s != [] {
      EncodeAscii(s[..|s| - 1]);
    }
  }

  /** One byte per character, the character's code: what UTF-8 gives for ASCII text. */
  function Ascii(s: string): (b: seq<byte>)
    ensures |b| == |s|
  {
    seq(|s|, i requires 0 <= i < |s| => (s[i] as int % 0x100) as byte)
  }

  /** On ASCII text `TextEncoder` gives one byte per character. */
  lemma EncodeIsAscii(s: string)
    requires IsAscii(s)
    ensures Encode(s) == Ascii(s)
  {
    EncodeAscii(s);
  }

  lemma AsciiSplit(a: string, b: string)
    ensures Ascii(a + b) == Ascii(a) + Ascii(b)
  {
  }

  lemma AsciiAppend(a: string, b: string)
    requires IsAscii(a) && IsAscii(b)
    ensures IsAscii(a + b)
  {
    forall i | 0 <= i < |a + b| ensures (a + b)[i] as int < 0x80 {
      if i >= |a| {
        assert (a + b)[i] == b[i - |a|];
      }
    }
  }

  lemma AsciiConcat5(a: string, b: string, c: string, d: string, e: string)
    requires IsAscii(a) && IsAscii(b) && IsAscii(c) && IsAscii(d) && IsAscii(e)
    ensures IsAscii(a + b + c + d + e)
  {
    AsciiAppend(a, b);
    AsciiAppend(a + b, c);
    AsciiAppend(a + b + c, d);
    AsciiAppend(a + b + c + d, e);
  }
}
