/** The padded Base64 encoding of section 4 of RFC 4648 (standard alphabet,
    "=" padding), as produced by `java.util.Base64.getEncoder()`. */
module Base64 {
  import opened Wrappers

  type Byte = b: int | 0 <= b < 256
  type Sextet = s: int | 0 <= s < 64

  /** Table 1 of section 4 of RFC 4648. */
  function IndexChar(i: Sextet): (c: char)
    ensures c != '='
  {
    if i < 26 then ('A' as int + i) as char
    else if i < 52 then ('a' as int + (i - 26)) as char
    else if i < 62 then ('0' as int + (i - 52)) as char
    else if i == 62 then '+'
    else '/'
  }

  /** The value of an alphabet character; None for any other character
      (the pad character "=" included). */
  function CharIndex(c: char): (r: Option<Sextet>)
    ensures r.Some? ==> IndexChar(r.value) == c
    ensures c == '=' ==> r.None?
  {
    if 'A' <= c <= 'Z' then Some(c as int - 'A' as int)
    else if 'a' <= c <= 'z' then Some(c as int - 'a' as int + 26)
    else if '0' <= c <= '9' then Some(c as int - '0' as int + 52)
    else if c == '+' then Some(62)
    else if c == '/' then Some(63)
    else None
  }

  lemma CharIndexOfIndexChar(i: Sextet)
    ensures CharIndex(IndexChar(i)) == Some(i)
  {
  }

  /** Characters that may appear in an encoding: the alphabet and the pad. */
  predicate IsBase64Char(c: char) {
    c == '=' || CharIndex(c).Some?
  }

  /** Three octets become four characters (section 4 of RFC 4648, 24-bit groups). */
  function EncodeGroup(b0: Byte, b1: Byte, b2: Byte): (s: string)
  {
    [IndexChar(b0 / 4), IndexChar((b0 % 4) * 16 + b1 / 16),
     IndexChar((b1 % 16) * 4 + b2 / 64), IndexChar(b2 % 64)]
  }

  /** The encoding of a whole octet sequence: full groups, then a final
      group of one or two octets padded with "==" or "=". */
  function Encode(b: seq<Byte>): (s: string)
    decreases |b|
  {
    if |b| == 0 then ""
    else if |b| == 1 then [IndexChar(b[0] / 4), IndexChar((b[0] % 4) * 16), '=', '=']
    else if |b| == 2 then
      [IndexChar(b[0] / 4), IndexChar((b[0] % 4) * 16 + b[1] / 16), IndexChar((b[1] % 16) * 4), '=']
    else EncodeGroup(b[0], b[1], b[2]) + Encode(b[3..])
  }

  /** Four characters without padding back to three octets. */
  function DecodeGroup(q: string): (r: Option<seq<Byte>>)
    requires |q| == 4
    ensures r.Some? ==> |r.value| == 3
  {
    match (CharIndex(q[0]), CharIndex(q[1]), CharIndex(q[2]), CharIndex(q[3]))
    case (Some(c0), Some(c1), Some(c2), Some(c3)) =>
      Some([c0 as int * 4 + c1 / 16, (c1 as int % 16) * 16 + c2 / 4, (c2 as int % 4) * 64 + c3])
    case _ => None
  }

  /** The final four characters, which may carry one or two pad characters. */
  function DecodeLast(q: string): (r: Option<seq<Byte>>)
    requires |q| == 4
  {
    if q[2] == '=' && q[3] == '=' then
      match (CharIndex(q[0]), CharIndex(q[1]))
      case (Some(c0), Some(c1)) => Some([c0 as int * 4 + c1 / 16])
      case _ => None
    else if q[3] == '=' then
      match (CharIndex(q[0]), CharIndex(q[1]), CharIndex(q[2]))
      case (Some(c0), Some(c1), Some(c2)) => Some([c0 as int * 4 + c1 / 16, (c1 as int % 16) * 16 + c2 / 4])
      case _ => None
    else DecodeGroup(q)
  }

  /** Decoding: None for a length that is not a multiple of four, a character
      outside the alphabet, or padding anywhere but at the end. */
  function Decode(s: string): (r: Option<seq<Byte>>)
    decreases |s|
  {
    if |s| == 0 then Some([])
    else if |s| < 4 then None
    else if |s| == 4 then DecodeLast(s)
    else
      match (DecodeGroup(s[..4]), Decode(s[4..]))
      case (Some(head), Some(tail)) => Some(head + tail)
      case _ => None
  }

  /** Division and remainder by 16 and by 4 undo a split of a sextet into a
      high and a low part. */
  lemma SplitDivMod(hi: int, lo: int)
    requires 0 <= hi && 0 <= lo < 16
    ensures (hi * 16 + lo) / 16 == hi && (hi * 16 + lo) % 16 == lo
    ensures lo < 4 ==> (hi * 4 + lo) / 4 == hi && (hi * 4 + lo) % 4 == lo
  {
  }

  lemma DecodeEncodeGroup(b0: Byte, b1: Byte, b2: Byte)
    ensures DecodeGroup(EncodeGroup(b0, b1, b2)) == Some([b0, b1, b2])
  {
    var c0, c1, c2, c3 := b0 / 4, (b0 % 4) * 16 + b1 / 16, (b1 % 16) * 4 + b2 / 64, b2 % 64;
    SplitDivMod(b0 % 4, b1 / 16);
    SplitDivMod(b1 % 16, b2 / 64);
    var q := EncodeGroup(b0, b1, b2);
    CharIndexOfIndexChar(c0);
    CharIndexOfIndexChar(c1);
    CharIndexOfIndexChar(c2);
    CharIndexOfIndexChar(c3);
    assert CharIndex(q[0]) == Some(c0) && CharIndex(q[1]) == Some(c1);
    assert CharIndex(q[2]) == Some(c2) && CharIndex(q[3]) == Some(c3);
    calc {
      DecodeGroup(q);
      Some([c0 * 4 + c1 / 16, (c1 % 16) * 16 + c2 / 4, (c2 % 4) * 64 + c3]);
      { assert c0 * 4 + c1 / 16 == b0;
        assert (c1 % 16) * 16 + c2 / 4 == b1;
        assert (c2 % 4) * 64 + c3 == b2; }
      Some([b0, b1, b2]);
    }
  }

  /** Length of the encoding: 4 * ceil(n / 3) characters for n octets. */
  lemma {:induction false} EncodeLength(b: seq<Byte>)
    ensures |Encode(b)| == 4 * ((|b| + 2) / 3)
    decreases |b|
  {
    if |b| >= 3 {
      EncodeLength(b[3..]);
    }
  }

  /** Every character of an encoding is in the alphabet or is the pad, and
      the pad occurs only among the last two characters. */
  lemma {:induction false} EncodeAlphabet(b: seq<Byte>)
    ensures forall i :: 0 <= i < |Encode(b)| ==> IsBase64Char(Encode(b)[i])
    ensures forall i :: 0 <= i < |Encode(b)| - 2 ==> Encode(b)[i] != '='
    decreases |b|
  {
    if |b| >= 3 {
      EncodeAlphabet(b[3..]);
      EncodeLength(b[3..]);
      var g := EncodeGroup(b[0], b[1], b[2]);
      assert Encode(b) == g + Encode(b[3..]);
      forall i | 0 <= i < |Encode(b)| ensures IsBase64Char(Encode(b)[i]) {
        if i < 4 {
          CharIndexOfIndexChar(if i == 0 then b[0] / 4 else if i == 1 then (b[0] % 4) * 16 + b[1] / 16
                               else if i == 2 then (b[1] % 16) * 4 + b[2] / 64 else b[2] % 64);
        } else {
          assert Encode(b)[i] == Encode(b[3..])[i - 4];
        }
      }
      forall i | 0 <= i < |Encode(b)| - 2 ensures Encode(b)[i] != '=' {
        if i >= 4 {
          assert Encode(b)[i] == Encode(b[3..])[i - 4];
        }
      }
    } else if |b| == 2 {
      CharIndexOfIndexChar(b[0] / 4);
      CharIndexOfIndexChar((b[0] % 4) * 16 + b[1] / 16);
      CharIndexOfIndexChar((b[1] % 16) * 4);
    } else if |b| == 1 {
      CharIndexOfIndexChar(b[0] / 4);
      CharIndexOfIndexChar((b[0] % 4) * 16);
    }
  }

  lemma DecodeEncodeOne(b0: Byte)
    ensures Decode(Encode([b0])) == Some([b0])
  {
    CharIndexOfIndexChar(b0 / 4);
    CharIndexOfIndexChar((b0 % 4) * 16);
  }

  lemma DecodeEncodeTwo(b0: Byte, b1: Byte)
    ensures Decode(Encode([b0, b1])) == Some([b0, b1])
  {
    var c1 := (b0 % 4) * 16 + b1 / 16;
    SplitDivMod(b0 % 4, b1 / 16);
    CharIndexOfIndexChar(b0 / 4);
    CharIndexOfIndexChar(c1);
    CharIndexOfIndexChar((b1 % 16) * 4);
    var q := Encode([b0, b1]);
    assert DecodeLast(q) == Some([b0, b1]);
  }

  /** Decoding an encoding gives the octets back. */
  lemma {:induction false} DecodeEncode(b: seq<Byte>)
    ensures Decode(Encode(b)) == Some(b)
    decreases |b|
  {
    if |b| == 1 {
      DecodeEncodeOne(b[0]);
      assert b == [b[0]];
    } else if |b| == 2 {
      DecodeEncodeTwo(b[0], b[1]);
      assert b == [b[0], b[1]];
    } else if |b| == 3 {
      DecodeEncodeGroup(b[0], b[1], b[2]);
      assert Encode(b) == EncodeGroup(b[0], b[1], b[2]);
      assert b == [b[0], b[1], b[2]];
    } else if |b| > 3 {
      var g := EncodeGroup(b[0], b[1], b[2]);
      var rest := Encode(b[3..]);
      assert Encode(b) == g + rest;
      EncodeLength(b[3..]);
      assert (g + rest)[..4] == g;
      assert (g + rest)[4..] == rest;
      DecodeEncodeGroup(b[0], b[1], b[2]);
      DecodeEncode(b[3..]);
      assert b == [b[0], b[1], b[2]] + b[3..];
    }
  }

  /** Distinct octet sequences have distinct encodings. */
  lemma EncodeInjective(a: seq<Byte>, b: seq<Byte>)
    requires Encode(a) == Encode(b)
    ensures a == b
  {
    DecodeEncode(a);
    DecodeEncode(b);
  }
}
