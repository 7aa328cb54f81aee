/**
 * Base64 with the standard alphabet and `=` padding, as Python's
 * `base64.b64encode` produces it (section 4 of RFC 4648).
 */
module Base64 {
  import opened Wrappers

  type Byte = b: int | 0 <= b < 256
  type Sextet = n: int | 0 <= n < 64

  /** ceil(n / d) for a positive divisor. */
  function CeilDiv(n: nat, d: nat): (q: nat)
    requires d > 0
    ensures q * d >= n && (q == 0 || (q - 1) * d < n)
  {
    (n + d - 1) / d
  }

  /** The character that stands for a 6-bit value: A-Z, a-z, 0-9, '+', '/'. */
  function CharOf(n: Sextet): (c: char)
    ensures c != '='
  {
    if n < 26 then ('A' as int + n) as char
    else if n < 52 then ('a' as int + (n - 26)) as char
    else if n < 62 then ('0' as int + (n - 52)) as char
    else if n == 62 then '+'
    else '/'
  }

  /** The 6-bit value a character stands for; None for '=' and for characters outside the alphabet. */
  function SextetOf(c: char): (r: Option<Sextet>)
    ensures r.Some? ==> CharOf(r.value) == c
  {
    if 'A' <= c <= 'Z' then Some(c as int - 'A' as int)
    else if 'a' <= c <= 'z' then Some(c as int - 'a' as int + 26)
    else if '0' <= c <= '9' then Some(c as int - '0' as int + 52)
    else if c == '+' then Some(62)
    else if c == '/' then Some(63)
    else None
  }

  /** The alphabet is decoded by the inverse lookup. */
  lemma SextetOfCharOf(n: Sextet)
    ensures SextetOf(CharOf(n)) == Some(n)
  {
  }

  /** The four 6-bit values that the 24 bits of bytes b0, b1, b2 split into, most significant first. */
  function Sext0(b0: Byte): Sextet { b0 / 4 }
  function Sext1(b0: Byte, b1: Byte): Sextet { (b0 % 4) * 16 + b1 / 16 }
  function Sext2(b1: Byte, b2: Byte): Sextet { (b1 % 16) * 4 + b2 / 64 }
  function Sext3(b2: Byte): Sextet { b2 % 64 }

  /** `base64.b64encode(b)` as text. */
  function Encode(b: seq<Byte>): (s: string)
    ensures |s| == 4 * CeilDiv(|b|, 3)
    decreases |b|
  {
    if |b| == 0 then ""
    else if |b| == 1 then [CharOf(Sext0(b[0])), CharOf(Sext1(b[0], 0)), '=', '=']
    else if |b| == 2 then [CharOf(Sext0(b[0])), CharOf(Sext1(b[0], b[1])), CharOf(Sext2(b[1], 0)), '=']
    else
      var group := [CharOf(Sext0(b[0])), CharOf(Sext1(b[0], b[1])), CharOf(Sext2(b[1], b[2])), CharOf(Sext3(b[2]))];
      group + Encode(b[3..])
  }

  /** Rebuilds the first byte of a group from its first two sextets. */
  function Byte0(c0: Sextet, c1: Sextet): Byte
  {
    c0 * 4 + c1 / 16
  }

  /** Rebuilds the second byte of a group from its second and third sextets. */
  function Byte1(c1: Sextet, c2: Sextet): Byte
  {
    (c1 % 16) * 16 + c2 / 4
  }

  /** Rebuilds the third byte of a group from its last two sextets. */
  function Byte2(c2: Sextet, c3: Sextet): Byte
  {
    (c2 % 4) * 64 + c3
  }

  /** Decodes padded Base64 text; None when it is not a sequence of well-formed 4-character groups. */
  function Decode(s: string): (r: Option<seq<Byte>>)
    decreases |s|
  {
    if |s| == 0 then Some([])
    else if |s| < 4 then None
    else
      var o0, o1, o2, o3 := SextetOf(s[0]), SextetOf(s[1]), SextetOf(s[2]), SextetOf(s[3]);
      if o0.None? || o1.None? then None
      else if |s| == 4 && s[2] == '=' && s[3] == '=' then
        Some([Byte0(o0.value, o1.value)])
      else if o2.None? then None
      else if |s| == 4 && s[3] == '=' then
        Some([Byte0(o0.value, o1.value), Byte1(o1.value, o2.value)])
      else if o3.None? then None
      else
        match Decode(s[4..])
        case None => None
        case Some(rest) =>
          Some([Byte0(o0.value, o1.value), Byte1(o1.value, o2.value), Byte2(o2.value, o3.value)] + rest)
  }

  lemma Byte0Inverts(b0: Byte, b1: Byte)
    ensures Byte0(Sext0(b0), Sext1(b0, b1)) == b0
  {
  }

  lemma Byte1Inverts(b0: Byte, b1: Byte, b2: Byte)
    ensures Byte1(Sext1(b0, b1), Sext2(b1, b2)) == b1
  {
    var hi, lo := b1 / 16, b1 % 16;
    assert Sext1(b0, b1) == (b0 % 4) * 16 + hi && hi < 16;
    assert Sext1(b0, b1) % 16 == hi;
    assert Sext2(b1, b2) == lo * 4 + b2 / 64 && b2 / 64 < 4;
    assert Sext2(b1, b2) / 4 == lo;
  }

  lemma Byte2Inverts(b1: Byte, b2: Byte)
    ensures Byte2(Sext2(b1, b2), Sext3(b2)) == b2
  {
  }

  /** Decoding a full group made of alphabet characters, followed by more text. */
  lemma DecodeGroup(c0: Sextet, c1: Sextet, c2: Sextet, c3: Sextet, tail: string)
    ensures Decode([CharOf(c0), CharOf(c1), CharOf(c2), CharOf(c3)] + tail) ==
      match Decode(tail)
      case None => None
      case Some(rest) => Some([Byte0(c0, c1), Byte1(c1, c2), Byte2(c2, c3)] + rest)
  {
    var s := [CharOf(c0), CharOf(c1), CharOf(c2), CharOf(c3)] + tail;
    assert s[4..] == tail;
    SextetOfCharOf(c0);
    SextetOfCharOf(c1);
    SextetOfCharOf(c2);
    SextetOfCharOf(c3);
  }

  /** The last group of an encoding of 3k+1 bytes decodes back. */
  lemma DecodeEncodeOne(b0: Byte)
    ensures Decode(Encode([b0])) == Some([b0])
  {
    SextetOfCharOf(Sext0(b0));
    SextetOfCharOf(Sext1(b0, 0));
    Byte0Inverts(b0, 0);
  }

  /** The last group of an encoding of 3k+2 bytes decodes back. */
  lemma DecodeEncodeTwo(b0: Byte, b1: Byte)
    ensures Decode(Encode([b0, b1])) == Some([b0, b1])
  {
    SextetOfCharOf(Sext0(b0));
    SextetOfCharOf(Sext1(b0, b1));
    SextetOfCharOf(Sext2(b1, 0));
    Byte0Inverts(b0, b1);
    Byte1Inverts(b0, b1, 0);
  }

  /** The three bytes of a full group are rebuilt from its four sextets. */
  lemma GroupInverts(b0: Byte, b1: Byte, b2: Byte)
    ensures [Byte0(Sext0(b0), Sext1(b0, b1)), Byte1(Sext1(b0, b1), Sext2(b1, b2)), Byte2(Sext2(b1, b2), Sext3(b2))]
         == [b0, b1, b2]
  {
    Byte0Inverts(b0, b1);
    Byte1Inverts(b0, b1, b2);
    Byte2Inverts(b1, b2);
  }

  lemma SplitThree(b: seq<Byte>)
    requires |b| >= 3
    ensures [b[0], b[1], b[2]] + b[3..] == b
  {
  }

  /** One full group: if the rest decodes back, so does the whole. */
  lemma DecodeEncodeStep(b: seq<Byte>)
    requires |b| >= 3
    requires Decode(Encode(b[3..])) == Some(b[3..])
    ensures Decode(Encode(b)) == Some(b)
  {
    var c0, c1, c2, c3 := Sext0(b[0]), Sext1(b[0], b[1]), Sext2(b[1], b[2]), Sext3(b[2]);
    var g, t := [CharOf(c0), CharOf(c1), CharOf(c2), CharOf(c3)], Encode(b[3..]);
    assert Encode(b) == g + t;
    DecodeGroup(c0, c1, c2, c3, t);
    GroupInverts(b[0], b[1], b[2]);
    SplitThree(b);
  }

  /** Decoding undoes encoding: the text is a faithful carrier of the bytes. */
  lemma {:induction false} DecodeEncode(b: seq<Byte>)
    ensures Decode(Encode(b)) == Some(b)
    decreases |b|
  {
    if |b| == 0 {
    } else if |b| == 1 {
      DecodeEncodeOne(b[0]);
      assert b == [b[0]];
    } else if |b| == 2 {
      DecodeEncodeTwo(b[0], b[1]);
      assert b == [b[0], b[1]];
    } else {
      DecodeEncode(b[3..]);
      DecodeEncodeStep(b);
    }
  }
}
