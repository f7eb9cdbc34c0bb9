/** `AuthTools.encodeBasicAuth`: the credentials of the HTTP "Basic"
    authentication scheme (section 2 of RFC 7617), that is "Basic " followed
    by the Base64 of the UTF-8 bytes of user-id ":" password. */
module AuthTools {
  import opened Wrappers
  import opened Base64

  /** UTF-8 (RFC 3629) of one Unicode scalar value. */
  function Utf8Char(c: char): (b: seq<Byte>)
    ensures 1 <= |b| <= 4
  {
    var n := c as int;
    if n < 0x80 then [n]
    else if n < 0x800 then [0xC0 + n / 64, 0x80 + n % 64]
    else if n < 0x1_0000 then [0xE0 + n / 4096, 0x80 + (n / 64) % 64, 0x80 + n % 64]
    else [0xF0 + n / 262144, 0x80 + (n / 4096) % 64, 0x80 + (n / 64) % 64, 0x80 + n % 64]
  }

  /** The bytes of `String.getBytes()` under the UTF-8 default charset. */
  function Utf8(s: string): (b: seq<Byte>)
    decreases |s|
  {
    if s == [] then [] else Utf8Char(s[0]) + Utf8(s[1..])
  }

  /** The scalar value read back from one UTF-8 sequence, whose length the
      lead byte gives. */
  function CharValue(b: seq<Byte>): int
    requires 1 <= |b| <= 4
  {
    var b0: int := b[0];
    if |b| == 1 then b0
    else if |b| == 2 then (b0 - 0xC0) * 64 + (b[1] as int - 0x80)
    else if |b| == 3 then (b0 - 0xE0) * 4096 + (b[1] as int - 0x80) * 64 + (b[2] as int - 0x80)
    else (b0 - 0xF0) * 262144 + (b[1] as int - 0x80) * 4096 + (b[2] as int - 0x80) * 64 + (b[3] as int - 0x80)
  }

  function SequenceLength(lead: Byte): nat {
    if lead < 0x80 then 1 else if lead < 0xE0 then 2 else if lead < 0xF0 then 3 else 4
  }

  lemma Utf8CharDecodes(c: char)
    ensures SequenceLength(Utf8Char(c)[0]) == |Utf8Char(c)|
    ensures CharValue(Utf8Char(c)) == c as int
  {
    var n := c as int;
    assert n == (n / 64) * 64 + n % 64;
    assert n / 64 == (n / 4096) * 64 + (n / 64) % 64;
    assert n / 4096 == (n / 262144) * 64 + (n / 4096) % 64;
  }

  /** UTF-8 is a prefix code: the first character's bytes are recognised
      in front of whatever follows. */
  lemma Utf8CharPrefix(c: char, d: char, x: seq<Byte>, y: seq<Byte>)
    requires Utf8Char(c) + x == Utf8Char(d) + y
    ensures c == d && x == y
  {
    var w := Utf8Char(c) + x;
    Utf8CharDecodes(c);
    Utf8CharDecodes(d);
    assert w[0] == Utf8Char(c)[0] == Utf8Char(d)[0];
    var k := |Utf8Char(c)|;
    assert Utf8Char(c) == w[..k] == Utf8Char(d);
    assert x == w[k..] == y;
  }

  /** Distinct strings have distinct UTF-8 bytes. */
  lemma {:induction false} Utf8Injective(s: string, t: string)
    requires Utf8(s) == Utf8(t)
    ensures s == t
    decreases |s|
  {
    if s != [] && t != [] {
      Utf8CharPrefix(s[0], t[0], Utf8(s[1..]), Utf8(t[1..]));
      Utf8Injective(s[1..], t[1..]);
      assert s == [s[0]] + s[1..];
      assert t == [t[0]] + t[1..];
    }
  }

  const Colon: Byte := 0x3A

  /** The credentials string of section 2 of RFC 7617, as the code joins it. */
  function Credentials(username: string, password: string): string {
    username + ":" + password
  }

  /** AuthTools.java:11-14. */
  function EncodeBasicAuth(username: string, password: string): (header: string)
  {
    "Basic " + Encode(Utf8(Credentials(username, password)))
  }

  lemma {:induction false} Utf8Append(s: string, t: string)
    ensures Utf8(s + t) == Utf8(s) + Utf8(t)
    decreases |s|
  {
    if s != [] {
      assert (s + t)[0] == s[0];
      assert (s + t)[1..] == s[1..] + t;
      Utf8Append(s[1..], t);
      assert Utf8(s + t) == Utf8Char(s[0]) + Utf8(s[1..] + t);
    } else {
      assert s + t == t;
    }
  }

  /** Only the colon character itself is encoded with the colon byte. */
  lemma Utf8CharColon(c: char)
    ensures Colon in Utf8Char(c) <==> c == ':'
  {
  }

  lemma {:induction false} Utf8ColonFree(s: string)
    requires ':' !in s
    ensures Colon !in Utf8(s)
    decreases |s|
  {
    if s != [] {
      Utf8CharColon(s[0]);
      assert ':' !in s[1..];
      Utf8ColonFree(s[1..]);
    }
  }

  /** The credential bytes are the user-id bytes, one colon byte and the
      password bytes. */
  lemma CredentialBytes(username: string, password: string)
    ensures Utf8(Credentials(username, password)) == Utf8(username) + [Colon] + Utf8(password)
  {
    Utf8Append(username + ":", password);
    Utf8Append(username, ":");
    assert Utf8(":") == [Colon];
  }

  /** The header starts with "Basic "; what follows is the padded Base64 of the
      credential bytes, 4 * ceil(n / 3) characters long for n bytes, and it
      decodes back to those bytes. */
  lemma BasicAuthShape(username: string, password: string)
    ensures var header := EncodeBasicAuth(username, password);
            var bytes := Utf8(username) + [Colon] + Utf8(password);
            && |header| >= 6 && header[..6] == "Basic "
            && header[6..] == Encode(bytes)
            && |header| == 6 + 4 * ((|bytes| + 2) / 3)
            && Decode(header[6..]) == Some(bytes)
  {
    var bytes := Utf8(username) + [Colon] + Utf8(password);
    CredentialBytes(username, password);
    EncodeLength(bytes);
    DecodeEncode(bytes);
    var header := EncodeBasicAuth(username, password);
    assert header == "Basic " + Encode(bytes);
    assert header[6..] == Encode(bytes);
  }

  /** The code does not reject a colon in the user-id, so two different
      credential pairs can give the same header. */
  lemma ColonInUsernameIsAmbiguous()
    ensures ("a:b", "c") != ("a", "b:c")
    ensures EncodeBasicAuth("a:b", "c") == EncodeBasicAuth("a", "b:c")
  {
    assert Credentials("a:b", "c") == Credentials("a", "b:c");
  }

  /** The position of the first colon byte, or the length when there is none. */
  function FirstColon(w: seq<Byte>): (k: nat)
    ensures k <= |w|
    decreases |w|
  {
    if w == [] || w[0] == Colon then 0 else 1 + FirstColon(w[1..])
  }

  lemma {:induction false} FirstColonAfter(u: seq<Byte>, p: seq<Byte>)
    requires Colon !in u
    ensures FirstColon(u + [Colon] + p) == |u|
    decreases |u|
  {
    if u != [] {
      assert (u + [Colon] + p)[1..] == u[1..] + [Colon] + p;
      FirstColonAfter(u[1..], p);
    }
  }

  /** When neither user-id contains a colon, equal bytes of the form
      user ":" password determine both parts. */
  lemma SplitAtFirstColon(u1: seq<Byte>, p1: seq<Byte>, u2: seq<Byte>, p2: seq<Byte>)
    requires Colon !in u1 && Colon !in u2
    requires u1 + [Colon] + p1 == u2 + [Colon] + p2
    ensures u1 == u2 && p1 == p2
  {
    var w := u1 + [Colon] + p1;
    FirstColonAfter(u1, p1);
    FirstColonAfter(u2, p2);
    assert u1 == w[..|u1|] == u2;
    assert p1 == w[|u1| + 1..] == p2;
  }

  /** With colon-free user-ids the header identifies the credentials. */
  lemma ColonFreeUsernameIsUnambiguous(u1: string, p1: string, u2: string, p2: string)
    requires ':' !in u1 && ':' !in u2
    requires EncodeBasicAuth(u1, p1) == EncodeBasicAuth(u2, p2)
    ensures u1 == u2 && p1 == p2
  {
    var b1 := Utf8(Credentials(u1, p1));
    var b2 := Utf8(Credentials(u2, p2));
    assert Encode(b1) == EncodeBasicAuth(u1, p1)[6..] == EncodeBasicAuth(u2, p2)[6..] == Encode(b2);
    EncodeInjective(b1, b2);
    CredentialBytes(u1, p1);
    CredentialBytes(u2, p2);
    Utf8ColonFree(u1);
    Utf8ColonFree(u2);
    SplitAtFirstColon(Utf8(u1), Utf8(p1), Utf8(u2), Utf8(p2));
    Utf8Injective(u1, u2);
    Utf8Injective(p1, p2);
  }
}
