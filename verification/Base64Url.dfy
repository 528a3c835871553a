/**
 * The unpadded base64url encoder of src/oauth/mod.rs (section 5 of RFC 4648), used for the PKCE
 * verifier and challenge. The encoding is the composition of a regrouping of bits and a lookup of
 * letters; each half has its own inverse.
 */
module Base64Url {
  import opened Base

  const UPPER := "ABCDEFGHIJKLMNOPQRSTUVWXYZ"
  const LOWER := "abcdefghijklmnopqrstuvwxyz"
  const DIGITS := "0123456789"
  const ALPHABET: string := UPPER + LOWER + DIGITS + "-_"

  type octets = seq<bv8>

  /** The character of a six-bit value, as the encoder looks it up. */
  function Letter(x: bv8): char
    requires x < 64
  {
    AlphabetAt(x as int);
    ALPHABET[x as int]
  }

  /** The place of a character in table 2 of RFC 4648, from the ranges the table lists. */
  function Place(c: char): int {
    if 'A' <= c <= 'Z' then c as int - 65
    else if 'a' <= c <= 'z' then c as int - 71
    else if '0' <= c <= '9' then c as int + 4
    else if c == '-' then 62
    else if c == '_' then 63
    else -1
  }

  function SextetOf(c: char): bv8
    requires UrlSafe(c)
  {
    Place(c) as bv8
  }

  predicate UrlSafe(c: char) {
    'A' <= c <= 'Z' || 'a' <= c <= 'z' || '0' <= c <= '9' || c == '-' || c == '_'
  }

  function Code(i: nat): int {
    if i < 26 then i + 65 else if i < 52 then i + 71 else if i < 62 then i - 4 else if i == 62 then 45 else 95
  }

  lemma UpperAt(i: nat)
    requires i < 26
    ensures UPPER[i] as int == 65 + i
  {
  }

  lemma LowerAt(i: nat)
    requires i < 26
    ensures LOWER[i] as int == 97 + i
  {
  }

  lemma DigitAt(i: nat)
    requires i < 10
    ensures DIGITS[i] as int == 48 + i
  {
  }

  lemma AlphabetAt(i: nat)
    requires i < 64
    ensures |ALPHABET| == 64 && ALPHABET[i] as int == Code(i)
  {
    if i < 26 {
      UpperAt(i);
    } else if i < 52 {
      LowerAt(i - 26);
    } else if i < 62 {
      DigitAt(i - 52);
    }
  }

  lemma PlaceOfCode(i: nat, c: char)
    requires i < 64 && c as int == Code(i)
    ensures Place(c) == i && UrlSafe(c)
  {
  }

  lemma PlaceRange(c: char)
    ensures -1 <= Place(c) < 64
    ensures UrlSafe(c) == (0 <= Place(c))
    ensures 0 <= Place(c) ==> c as int == Code(Place(c))
  {
  }

  lemma ThereAndBack(x: bv8)
    ensures (x as int) as bv8 == x
  {
  }

  lemma BackAndThere(i: nat)
    requires i < 64
    ensures i as bv8 < 64 && (i as bv8) as int == i
  {
  }

  lemma SextetOfLetter(x: bv8)
    requires x < 64
    ensures UrlSafe(Letter(x)) && SextetOf(Letter(x)) == x
  {
    var i := x as int;
    ThereAndBack(x);
    AlphabetAt(i);
    PlaceOfCode(i, Letter(x));
  }

  lemma LetterOfSextet(c: char)
    requires UrlSafe(c)
    ensures SextetOf(c) < 64 && Letter(SextetOf(c)) == c
  {
    PlaceRange(c);
    BackAndThere(Place(c));
    AlphabetAt(Place(c));
  }

  predicate Small(s: octets) {
    forall i :: 0 <= i < |s| ==> s[i] < 64
  }

  function Letters(s: octets): (r: string)
    requires Small(s)
    ensures |r| == |s|
  {
    seq(|s|, i requires 0 <= i < |s| => Letter(s[i]))
  }

  function Values(s: string): Option<octets> {
    if forall i :: 0 <= i < |s| ==> UrlSafe(s[i]) then
      Some(seq(|s|, i requires 0 <= i < |s| => SextetOf(s[i])))
    else
      None
  }

  lemma ValuesOfLetters(s: octets)
    requires Small(s)
    ensures Values(Letters(s)) == Some(s)
  {
    forall i | 0 <= i < |s|
      ensures UrlSafe(Letter(s[i])) && SextetOf(Letter(s[i])) == s[i]
    {
      SextetOfLetter(s[i]);
    }
    assert Values(Letters(s)).value == s;
  }

  lemma LettersOfValues(s: string)
    requires Values(s).Some?
    ensures Small(Values(s).value) && Letters(Values(s).value) == s
  {
    forall i | 0 <= i < |s|
      ensures SextetOf(s[i]) < 64 && Letter(SextetOf(s[i])) == s[i]
    {
      LetterOfSextet(s[i]);
    }
  }

  // The four sextets of three octets, and the three octets of four sextets.

  function First(b0: bv8): bv8 { b0 >> 2 }
  function Second(b0: bv8, b1: bv8): bv8 { ((b0 & 0x03) << 4) | (b1 >> 4) }
  function Third(b1: bv8, b2: bv8): bv8 { ((b1 & 0x0f) << 2) | (b2 >> 6) }
  function Fourth(b2: bv8): bv8 { b2 & 0x3f }

  function Octet0(s0: bv8, s1: bv8): bv8 { (s0 << 2) | (s1 >> 4) }
  function Octet1(s1: bv8, s2: bv8): bv8 { (s1 << 4) | (s2 >> 2) }
  function Octet2(s2: bv8, s3: bv8): bv8 { (s2 << 6) | s3 }

  lemma Regroup(b0: bv8, b1: bv8, b2: bv8)
    ensures First(b0) < 64 && Second(b0, b1) < 64 && Third(b1, b2) < 64 && Fourth(b2) < 64
    ensures Octet0(First(b0), Second(b0, b1)) == b0
    ensures Octet1(Second(b0, b1), Third(b1, b2)) == b1
    ensures Octet2(Third(b1, b2), Fourth(b2)) == b2
    ensures Second(b0, 0) << 4 == 0 && Third(b1, 0) << 6 == 0
  {
  }

  lemma Degroup(s0: bv8, s1: bv8, s2: bv8, s3: bv8)
    requires s0 < 64 && s1 < 64 && s2 < 64 && s3 < 64
    ensures First(Octet0(s0, s1)) == s0
    ensures Second(Octet0(s0, s1), Octet1(s1, s2)) == s1
    ensures Third(Octet1(s1, s2), Octet2(s2, s3)) == s2
    ensures Fourth(Octet2(s2, s3)) == s3
    ensures s1 << 4 == 0 ==> Second(Octet0(s0, s1), 0) == s1
    ensures s2 << 6 == 0 ==> Third(Octet1(s1, s2), 0) == s2
  {
  }

  /** The octets regrouped by six bits; a short last group is padded with zero bits. */
  function Pack(b: octets): (s: octets) {
    if |b| >= 3 then [First(b[0]), Second(b[0], b[1]), Third(b[1], b[2]), Fourth(b[2])] + Pack(b[3..])
    else if |b| == 2 then [First(b[0]), Second(b[0], b[1]), Third(b[1], 0)]
    else if |b| == 1 then [First(b[0]), Second(b[0], 0)]
    else []
  }

  lemma {:induction false} PackSmall(b: octets)
    ensures Small(Pack(b)) && |Pack(b)| == (4 * |b| + 2) / 3
  {
    if |b| >= 3 {
      Regroup(b[0], b[1], b[2]);
      PackSmall(b[3..]);
    } else if |b| == 2 {
      Regroup(b[0], b[1], 0);
    } else if |b| == 1 {
      Regroup(b[0], 0, 0);
    }
  }

  /** The sextets regrouped by eight bits; bits a short last group does not use must be zero. */
  function Unpack(s: octets): Option<octets> {
    if |s| == 0 then Some([])
    else if |s| == 1 then None
    else if |s| == 2 then
      if s[1] << 4 == 0 then Some([Octet0(s[0], s[1])]) else None
    else if |s| == 3 then
      if s[2] << 6 == 0 then Some([Octet0(s[0], s[1]), Octet1(s[1], s[2])]) else None
    else
      var rest := Unpack(s[4..]);
      if rest.None? then None
      else Some([Octet0(s[0], s[1]), Octet1(s[1], s[2]), Octet2(s[2], s[3])] + rest.value)
  }

  lemma {:induction false} UnpackPack(b: octets)
    ensures Unpack(Pack(b)) == Some(b)
  {
    if |b| >= 3 {
      Regroup(b[0], b[1], b[2]);
      UnpackPack(b[3..]);
      assert Pack(b)[4..] == Pack(b[3..]);
      assert b == [b[0], b[1], b[2]] + b[3..];
    } else if |b| == 2 {
      Regroup(b[0], b[1], 0);
      assert b == [b[0], b[1]];
    } else if |b| == 1 {
      Regroup(b[0], 0, 0);
      assert b == [b[0]];
    }
  }

  lemma {:induction false} PackUnpack(s: octets)
    requires Small(s) && Unpack(s).Some?
    ensures Pack(Unpack(s).value) == s
  {
    if |s| == 2 {
      Degroup(s[0], s[1], 0, 0);
    } else if |s| == 3 {
      Degroup(s[0], s[1], s[2], 0);
    } else if |s| >= 4 {
      Degroup(s[0], s[1], s[2], s[3]);
      PackUnpack(s[4..]);
      assert Unpack(s).value[3..] == Unpack(s[4..]).value;
    }
  }

  function Base64(b: octets): (s: string) {
    PackSmall(b);
    Letters(Pack(b))
  }

  /** A strict decoder, as section 3.5 of RFC 4648 allows: only what an encoder writes is accepted. */
  function Unbase64(s: string): Option<octets> {
    if Values(s).None? then None else Unpack(Values(s).value)
  }

  method Base64UrlEncode(b: octets) returns (out: string)
    ensures out == Base64(b)
  {
    out := "";
    var i := 0;
    ghost var rest := b;
    while i + 3 <= |b|
      invariant 0 <= i <= |b| && rest == b[i..]
      invariant out + Base64(rest) == Base64(b)
    {
      var b0, b1, b2 := b[i], b[i + 1], b[i + 2];
      Regroup(b0, b1, b2);
      Base64Group(rest);
      Assoc(out, [Letter(First(b0)), Letter(Second(b0, b1)), Letter(Third(b1, b2)), Letter(Fourth(b2))],
            Base64(rest[3..]));
      out := out + [Letter(First(b0)), Letter(Second(b0, b1)), Letter(Third(b1, b2)), Letter(Fourth(b2))];
      rest := rest[3..];
      i := i + 3;
    }
    var rem := |b| - i;
    if rem == 1 {
      var b0 := b[i];
      Regroup(b0, 0, 0);
      out := out + [Letter(First(b0)), Letter(Second(b0, 0))];
    } else if rem == 2 {
      var b0, b1 := b[i], b[i + 1];
      Regroup(b0, b1, 0);
      out := out + [Letter(First(b0)), Letter(Second(b0, b1)), Letter(Third(b1, 0))];
    }
  }

  lemma Base64Group(b: octets)
    requires |b| >= 3
    ensures First(b[0]) < 64 && Second(b[0], b[1]) < 64 && Third(b[1], b[2]) < 64 && Fourth(b[2]) < 64
    ensures Base64(b) == [Letter(First(b[0])), Letter(Second(b[0], b[1])), Letter(Third(b[1], b[2])),
                          Letter(Fourth(b[2]))] + Base64(b[3..])
  {
  }

  /**
   * Encoding and decoding are inverse: what was encoded comes back, for every sequence of octets,
   * and a string is accepted exactly when it is some encoding, namely that of what it decodes to.
   */
  lemma Base64Inverse(b: octets, s: string)
    ensures Unbase64(Base64(b)) == Some(b)
    ensures Unbase64(s) == Some(b) <==> s == Base64(b)
  {
    PackSmall(b);
    UnpackPack(b);
    ValuesOfLetters(Pack(b));
    if Unbase64(s) == Some(b) {
      LettersOfValues(s);
      PackUnpack(Values(s).value);
    }
  }

  /** ceil(4n/3) characters, each of them safe in a URL. */
  lemma Base64Shape(b: octets)
    ensures |Base64(b)| == (4 * |b| + 2) / 3
    ensures forall i :: 0 <= i < |Base64(b)| ==> UrlSafe(Base64(b)[i])
  {
    PackSmall(b);
    ValuesOfLetters(Pack(b));
  }

  /** A PKCE verifier has the 43 characters of section 4.1 of RFC 7636, and no two seeds share one. */
  lemma VerifierShape(seed: octets, other: octets)
    requires |seed| == |other| == 32
    ensures |Base64(seed)| == 43
    ensures forall i :: 0 <= i < 43 ==> UrlSafe(Base64(seed)[i])
    ensures Base64(seed) == Base64(other) ==> seed == other
  {
    Base64Shape(seed);
    Base64Inverse(seed, "");
    Base64Inverse(other, "");
  }

  /** The test vectors of section 10 of RFC 4648 with one, two and three octets, without padding. */
  lemma KnownVectors()
    ensures Base64([0x66]) == "Zg"
    ensures Base64([0x66, 0x6f]) == "Zm8"
    ensures Base64([0x66, 0x6f, 0x6f]) == "Zm9v"
  {
    OneOctet();
    TwoOctets();
    ThreeOctets();
  }

  lemma OneOctet()
    ensures Base64([0x66]) == "Zg"
  {
    VectorOf([0x66], "Zg", [25, 32]);
  }

  lemma TwoOctets()
    ensures Base64([0x66, 0x6f]) == "Zm8"
  {
    VectorOf([0x66, 0x6f], "Zm8", [25, 38, 60]);
  }

  lemma ThreeOctets()
    ensures Base64([0x66, 0x6f, 0x6f]) == "Zm9v"
  {
    VectorOf([0x66, 0x6f, 0x6f], "Zm9v", [25, 38, 61, 47]);
  }

  lemma VectorOf(b: octets, text: string, sextets: octets)
    requires Pack(b) == sextets && |text| == |sextets|
    requires forall i :: 0 <= i < |text| ==> UrlSafe(text[i]) && SextetOf(text[i]) == sextets[i]
    ensures Base64(b) == text
  {
    PackSmall(b);
    forall i | 0 <= i < |text|
      ensures Letter(sextets[i]) == text[i]
    {
      LetterOfSextet(text[i]);
    }
  }
}
