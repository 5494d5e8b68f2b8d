/** UTF-8 as Go's range loop over a string reads it, against the encoding of RFC 3629,
    section 3. A char stands for one byte; codes above 255 do not occur in a Go string and
    read as invalid bytes. */
module Utf8 {

  predicate ByteIn(c: char, lo: int, hi: int)
  {
    lo <= c as int <= hi
  }

  /** The width of the character s begins with, 0 if it begins with none. */
  function Width(s: string): (w: nat)
    requires s != ""
    ensures w <= 4 && w <= |s|
  {
    var b := s[0] as int;
    if b < 0x80 then 1
    else if 0xC2 <= b <= 0xDF then
      if |s| >= 2 && ByteIn(s[1], 0x80, 0xBF) then 2 else 0
    else if 0xE0 <= b <= 0xEF then
      if |s| >= 3 && ByteIn(s[1], if b == 0xE0 then 0xA0 else 0x80, if b == 0xED then 0x9F else 0xBF)
         && ByteIn(s[2], 0x80, 0xBF) then 3 else 0
    else if 0xF0 <= b <= 0xF4 then
      if |s| >= 4 && ByteIn(s[1], if b == 0xF0 then 0x90 else 0x80, if b == 0xF4 then 0x8F else 0xBF)
         && ByteIn(s[2], 0x80, 0xBF) && ByteIn(s[3], 0x80, 0xBF) then 4 else 0
    else 0
  }

  /** How far the loop advances: over a character, or over one invalid byte. */
  function Advance(s: string): (n: nat)
    requires s != ""
    ensures 0 < n <= |s|
  {
    if Width(s) == 0 then 1 else Width(s)
  }

  predicate Valid(s: string)
  {
    s == "" || (Width(s) > 0 && Valid(s[Width(s)..]))
  }

  /** k bytes of s are whole steps of the loop. */
  predicate Boundary(s: string, k: nat)
  {
    k == 0 || (s != "" && Advance(s) <= k && Boundary(s[Advance(s)..], k - Advance(s)))
  }

  // ----- the encoder -----

  predicate Scalar(c: int)
  {
    0 <= c <= 0x10FFFF && !(0xD800 <= c <= 0xDFFF)
  }

  function Encode(c: int): (s: string)
    requires Scalar(c)
    ensures 1 <= |s| <= 4
  {
    if c < 0x80 then [c as char]
    else if c < 0x800 then [(0xC0 + c / 64) as char, (0x80 + c % 64) as char]
    else if c < 0x10000 then [(0xE0 + c / 4096) as char, (0x80 + c / 64 % 64) as char, (0x80 + c % 64) as char]
    else [(0xF0 + c / 262144) as char, (0x80 + c / 4096 % 64) as char,
          (0x80 + c / 64 % 64) as char, (0x80 + c % 64) as char]
  }

  function EncodeAll(cs: seq<int>): string
    requires forall c <- cs :: Scalar(c)
  {
    if cs == [] then "" else Encode(cs[0]) + EncodeAll(cs[1..])
  }

  /** The width is decided by the bytes of the first character alone. */
  lemma WidthOfFirst(e: string, rest: string)
    requires e != "" && Width(e) == |e|
    ensures Width(e + rest) == |e|
  {
    var s := e + rest;
    assert forall i :: 0 <= i < |e| ==> s[i] == e[i];
  }

  lemma EncodeWidth(c: int, rest: string)
    requires Scalar(c)
    ensures Width(Encode(c) + rest) == |Encode(c)|
  {
    EncodedWidth(c);
    hide Encode, Width;
    WidthOfFirst(Encode(c), rest);
  }

  lemma EncodedWidth(c: int)
    requires Scalar(c)
    ensures Width(Encode(c)) == |Encode(c)|
  {
  }

  /** The code point a valid character stands for. */
  function Decode(s: string): (c: int)
    requires s != "" && Width(s) > 0
    ensures Scalar(c)
  {
    var b := s[0] as int;
    match Width(s)
    case 1 => b
    case 2 => (b - 0xC0) * 64 + (s[1] as int - 0x80)
    case 3 => (b - 0xE0) * 4096 + (s[1] as int - 0x80) * 64 + (s[2] as int - 0x80)
    case _ => (b - 0xF0) * 262144 + (s[1] as int - 0x80) * 4096 + (s[2] as int - 0x80) * 64 + (s[3] as int - 0x80)
  }

  /** The digits to base 64 of what is put together from them. */
  lemma Digits2(a: int, b: int)
    requires 0 <= b < 64
    ensures (a * 64 + b) / 64 == a && (a * 64 + b) % 64 == b
  {
  }

  lemma Digits3(a: int, b: int, c: int)
    requires 0 <= b < 64 && 0 <= c < 64
    ensures var n := a * 4096 + b * 64 + c; n / 4096 == a && n / 64 % 64 == b && n % 64 == c
  {
    Digits2(a * 64 + b, c);
    Digits2(a, b);
  }

  lemma Digits4(a: int, b: int, c: int, d: int)
    requires 0 <= b < 64 && 0 <= c < 64 && 0 <= d < 64
    ensures var n := a * 262144 + b * 4096 + c * 64 + d;
            n / 262144 == a && n / 4096 % 64 == b && n / 64 % 64 == c && n % 64 == d
  {
    Digits2(a * 4096 + b * 64 + c, d);
    Digits3(a, b, c);
  }

  lemma EncodeDecode(s: string)
    requires s != "" && Width(s) > 0
    ensures Encode(Decode(s)) == s[..Width(s)]
  {
    match Width(s)
    case 1 =>
    case 2 => Digits2(s[0] as int - 0xC0, s[1] as int - 0x80);
    case 3 => Digits3(s[0] as int - 0xE0, s[1] as int - 0x80, s[2] as int - 0x80);
    case _ => Digits4(s[0] as int - 0xF0, s[1] as int - 0x80, s[2] as int - 0x80, s[3] as int - 0x80);
  }

  lemma {:induction false} EncodedIsValid(cs: seq<int>)
    requires forall c <- cs :: Scalar(c)
    ensures Valid(EncodeAll(cs))
  {
    if cs != [] {
      EncodeWidth(cs[0], EncodeAll(cs[1..]));
      EncodedIsValid(cs[1..]);
      assert EncodeAll(cs)[|Encode(cs[0])|..] == EncodeAll(cs[1..]);
    }
  }

  lemma {:induction false} ValidIsEncoded(s: string) returns (cs: seq<int>)
    requires Valid(s)
    ensures forall c <- cs :: Scalar(c)
    ensures EncodeAll(cs) == s
  {
    if s == "" {
      cs := [];
    } else {
      var rest := ValidIsEncoded(s[Width(s)..]);
      EncodeDecode(s);
      cs := [Decode(s)] + rest;
      assert cs[1..] == rest;
    }
  }

  /** The texts the loop reads without an invalid byte are exactly the encodings of sequences
      of Unicode scalar values. */
  lemma ValidExactly(s: string)
    ensures Valid(s) <==> exists cs: seq<int> :: (forall c <- cs :: Scalar(c)) && EncodeAll(cs) == s
  {
    if Valid(s) {
      var cs := ValidIsEncoded(s);
    }
    forall cs: seq<int> | (forall c <- cs :: Scalar(c)) && EncodeAll(cs) == s
      ensures Valid(s)
    {
      EncodedIsValid(cs);
    }
  }
}
