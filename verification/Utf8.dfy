/** Well-formed UTF-8, as in section 4 of RFC 3629. */
module Utf8 {
  import opened Results

  predicate In(b: byte, low: int, high: int) {
    low <= b <= high
  }

  /** Length of the encoded scalar value the sequence starts with; 0 if it starts with none. */
  function HeadLength(s: seq<byte>): (n: nat)
    ensures n <= 4 && n <= |s|
  {
    if |s| >= 1 && In(s[0], 0x00, 0x7F) then 1
    else if |s| >= 2 && In(s[0], 0xC2, 0xDF) && In(s[1], 0x80, 0xBF) then 2
    else if |s| >= 3 && In(s[2], 0x80, 0xBF) &&
            (|| (s[0] == 0xE0 && In(s[1], 0xA0, 0xBF))
             || (In(s[0], 0xE1, 0xEC) && In(s[1], 0x80, 0xBF))
             || (s[0] == 0xED && In(s[1], 0x80, 0x9F))
             || (In(s[0], 0xEE, 0xEF) && In(s[1], 0x80, 0xBF))) then 3
    else if |s| >= 4 && In(s[2], 0x80, 0xBF) && In(s[3], 0x80, 0xBF) &&
            (|| (s[0] == 0xF0 && In(s[1], 0x90, 0xBF))
             || (In(s[0], 0xF1, 0xF3) && In(s[1], 0x80, 0xBF))
             || (s[0] == 0xF4 && In(s[1], 0x80, 0x8F))) then 4
    else 0
  }

  predicate Valid(s: seq<byte>)
    decreases |s|
  {
    s == [] || (HeadLength(s) > 0 && Valid(s[HeadLength(s)..]))
  }

  // ----- Validity is being an encoding -----

  /** A Unicode scalar value: a code point that is not a surrogate. */
  predicate Scalar(c: int) {
    0 <= c <= 0x10FFFF && !(0xD800 <= c <= 0xDFFF)
  }

  predicate AllScalar(cs: seq<int>) {
    forall i :: 0 <= i < |cs| ==> Scalar(cs[i])
  }

  /** The encoding of a scalar value, as in section 3 of RFC 3629. */
  function Encode(c: int): (s: seq<byte>)
    requires Scalar(c)
    ensures 1 <= |s| <= 4
  {
    if c < 0x80 then [c]
    else if c < 0x800 then [0xC0 + c / 64, 0x80 + c % 64]
    else if c < 0x1_0000 then [0xE0 + c / 4096, 0x80 + c / 64 % 64, 0x80 + c % 64]
    else [0xF0 + c / 262144, 0x80 + c / 4096 % 64, 0x80 + c / 64 % 64, 0x80 + c % 64]
  }

  function EncodeAll(cs: seq<int>): seq<byte>
    requires AllScalar(cs)
  {
    if cs == [] then [] else Encode(cs[0]) + EncodeAll(cs[1..])
  }

  /** The number with these base-64 digits. */
  function Number(a: int, b: int, c: int, d: int): int {
    a * 262144 + b * 4096 + c * 64 + d
  }

  /** The scalar value at the head of the sequence. */
  function HeadValue(s: seq<byte>): int
    requires HeadLength(s) > 0
  {
    match HeadLength(s)
    case 1 => s[0]
    case 2 => Number(0, 0, s[0] - 0xC0, s[1] - 0x80)
    case 3 => Number(0, s[0] - 0xE0, s[1] - 0x80, s[2] - 0x80)
    case _ => Number(s[0] - 0xF0, s[1] - 0x80, s[2] - 0x80, s[3] - 0x80)
  }

  lemma DigitsOf(a: int, b: int, c: int, d: int)
    requires 0 <= a && 0 <= b < 64 && 0 <= c < 64 && 0 <= d < 64
    ensures var x := Number(a, b, c, d);
            && x % 64 == d && x / 64 % 64 == c && x / 4096 % 64 == b && x / 262144 == a
            && x / 64 == a * 4096 + b * 64 + c && x / 4096 == a * 64 + b
  {
    var x := Number(a, b, c, d);
    assert x == (a * 4096 + b * 64 + c) * 64 + d;
    assert a * 4096 + b * 64 + c == (a * 64 + b) * 64 + c;
  }

  lemma Digits(c: int)
    requires 0 <= c <= 0x10FFFF
    ensures c == c / 64 * 64 + c % 64
    ensures c / 64 == c / 4096 * 64 + c / 64 % 64
    ensures c / 4096 == c / 262144 * 64 + c / 4096 % 64
  {
  }

  /** What an encoding starts is read back, whatever follows. */
  lemma HeadOfEncoding(c: int, rest: seq<byte>)
    requires Scalar(c)
    ensures HeadLength(Encode(c) + rest) == |Encode(c)| && HeadValue(Encode(c) + rest) == c
  {
    Digits(c);
    var s := Encode(c) + rest;
    assert forall i :: 0 <= i < |Encode(c)| ==> s[i] == Encode(c)[i];
  }

  lemma EncodesTwo(a: byte, b: byte)
    requires In(a, 0xC2, 0xDF) && In(b, 0x80, 0xBF)
    ensures var c := Number(0, 0, a - 0xC0, b - 0x80); Scalar(c) && Encode(c) == [a, b]
  {
    DigitsOf(0, 0, a - 0xC0, b - 0x80);
  }

  lemma EncodesThree(a: byte, b: byte, c: byte)
    requires HeadLength([a, b, c]) == 3
    ensures var x := Number(0, a - 0xE0, b - 0x80, c - 0x80); Scalar(x) && Encode(x) == [a, b, c]
  {
    DigitsOf(0, a - 0xE0, b - 0x80, c - 0x80);
  }

  lemma EncodesFour(a: byte, b: byte, c: byte, d: byte)
    requires HeadLength([a, b, c, d]) == 4
    ensures var x := Number(a - 0xF0, b - 0x80, c - 0x80, d - 0x80); Scalar(x) && Encode(x) == [a, b, c, d]
  {
    DigitsOf(a - 0xF0, b - 0x80, c - 0x80, d - 0x80);
  }

  /** What is read at the head is the encoding of a scalar value. */
  lemma EncodingOfHead(s: seq<byte>)
    requires HeadLength(s) > 0
    ensures Scalar(HeadValue(s)) && Encode(HeadValue(s)) == s[..HeadLength(s)]
  {
    match HeadLength(s) {
      case 1 =>
      case 2 =>
        EncodesTwo(s[0], s[1]);
        hide Encode, Number;
      case 3 =>
        EncodesThree(s[0], s[1], s[2]);
        hide Encode, Number;
      case _ =>
        EncodesFour(s[0], s[1], s[2], s[3]);
        hide Encode, Number;
    }
  }

  lemma {:induction false} EncodingIsValid(cs: seq<int>)
    requires AllScalar(cs)
    ensures Valid(EncodeAll(cs))
  {
    if cs != [] {
      EncodingIsValid(cs[1..]);
      HeadOfEncoding(cs[0], EncodeAll(cs[1..]));
    }
  }

  lemma {:induction false} ValidIsEncoding(s: seq<byte>) returns (cs: seq<int>)
    requires Valid(s)
    ensures AllScalar(cs) && EncodeAll(cs) == s
    decreases |s|
  {
    hide HeadLength, HeadValue, Encode;
    cs := [];
    if s != [] {
      var n := HeadLength(s);
      EncodingOfHead(s);
      var rest := ValidIsEncoding(s[n..]);
      cs := [HeadValue(s)] + rest;
      assert cs[1..] == rest && s == s[..n] + s[n..];
    }
  }

  /** A byte sequence is valid if and only if it is the concatenation of the encodings of some
      sequence of scalar values. */
  lemma ValidIffEncoding(s: seq<byte>)
    ensures Valid(s) <==> exists cs :: AllScalar(cs) && EncodeAll(cs) == s
  {
    if Valid(s) {
      var cs := ValidIsEncoding(s);
    }
    forall cs | AllScalar(cs) && EncodeAll(cs) == s ensures Valid(s) {
      EncodingIsValid(cs);
    }
  }

  /** And that sequence is unique. */
  lemma {:induction false} EncodingIsUnique(a: seq<int>, b: seq<int>)
    requires AllScalar(a) && AllScalar(b) && EncodeAll(a) == EncodeAll(b)
    ensures a == b
    decreases |a|
  {
    if a != [] && b != [] {
      HeadOfEncoding(a[0], EncodeAll(a[1..]));
      HeadOfEncoding(b[0], EncodeAll(b[1..]));
      var n := HeadLength(EncodeAll(a));
      assert EncodeAll(a)[n..] == EncodeAll(a[1..]) && EncodeAll(b)[n..] == EncodeAll(b[1..]);
      EncodingIsUnique(a[1..], b[1..]);
      assert a == [a[0]] + a[1..] && b == [b[0]] + b[1..];
    }
  }
}
