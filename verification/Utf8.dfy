/** Well-formed UTF-8, section 4 of RFC 3629. */
module Utf8 {
  import opened FileTree

  predicate Tail(b: byte) {
    0x80 <= b <= 0xBF
  }

  /** The range of a character's second octet, which depends on its first. */
  predicate Second(lead: byte, b: byte) {
    if lead == 0xE0 then 0xA0 <= b <= 0xBF
    else if lead == 0xED then 0x80 <= b <= 0x9F
    else if lead == 0xF0 then 0x90 <= b <= 0xBF
    else if lead == 0xF4 then 0x80 <= b <= 0x8F
    else Tail(b)
  }

  /** How many octets a first octet announces; 0 for an octet that cannot come first. */
  function Announced(lead: byte): nat {
    if lead <= 0x7F then 1
    else if 0xC2 <= lead <= 0xDF then 2
    else if 0xE0 <= lead <= 0xEF then 3
    else if 0xF0 <= lead <= 0xF4 then 4
    else 0
  }

  predicate StartsWell(s: seq<byte>) {
    && s != [] && 1 <= Announced(s[0]) <= |s|
    && (Announced(s[0]) >= 2 ==> Second(s[0], s[1]))
    && (Announced(s[0]) >= 3 ==> Tail(s[2]))
    && (Announced(s[0]) >= 4 ==> Tail(s[3]))
  }

  predicate WellFormedText(s: seq<byte>) {
    s == [] || (StartsWell(s) && WellFormedText(s[Announced(s[0])..]))
  }

  /** A cut keeps well-formed text well-formed exactly when it falls before a character. */
  lemma {:induction false} CutIsWellFormed(s: seq<byte>, n: nat)
    requires WellFormedText(s) && n <= |s|
    ensures WellFormedText(s[..n]) <==> n == |s| || !Tail(s[n])
  {
    if n == |s| {
      assert s[..n] == s;
    } else if n > 0 {
      var k := Announced(s[0]);
      assert s[..n][0] == s[0];
      if n >= k {
        assert s[..n][k..] == s[k..][..n - k];
        CutIsWellFormed(s[k..], n - k);
      }
    }
  }

  // ---- The encoding itself, section 3 of RFC 3629 ------------------------------------------------

  /** A Unicode scalar value: a code point that is no surrogate. */
  predicate Scalar(c: int) {
    0 <= c < 0xD800 || 0xDFFF < c <= 0x10FFFF
  }

  /** The octets of a scalar value: six bits in each octet after the first. */
  function Encode(c: int): (octets: seq<byte>)
    requires Scalar(c)
  {
    if c < 0x80 then [c]
    else if c < 0x800 then [0xC0 + c / 64, 0x80 + c % 64]
    else if c < 0x1_0000 then [0xE0 + c / 4096, 0x80 + c / 64 % 64, 0x80 + c % 64]
    else [0xF0 + c / 262144, 0x80 + c / 4096 % 64, 0x80 + c / 64 % 64, 0x80 + c % 64]
  }

  ghost predicate Scalars(cs: seq<int>) {
    forall i :: 0 <= i < |cs| ==> Scalar(cs[i])
  }

  function EncodeAll(cs: seq<int>): seq<byte>
    requires Scalars(cs)
  {
    if cs == [] then [] else Encode(cs[0]) + EncodeAll(cs[1..])
  }

  /** What the encoding of a scalar value looks like ... */
  lemma EncodingIsWell(c: int)
    requires Scalar(c)
    ensures StartsWell(Encode(c)) && |Encode(c)| == Announced(Encode(c)[0])
  {
  }

  /** ... and the scalar value well-formed octets stand for. */
  function Decoded(s: seq<byte>): int
    requires StartsWell(s)
  {
    match Announced(s[0])
    case 1 => s[0]
    case 2 => Sextets2(s[0] as int - 0xC0, s[1] as int - 0x80)
    case 3 => Sextets3(s[0] as int - 0xE0, s[1] as int - 0x80, s[2] as int - 0x80)
    case _ => Sextets4(s[0] as int - 0xF0, s[1] as int - 0x80, s[2] as int - 0x80, s[3] as int - 0x80)
  }

  function Sextets2(x: int, y: int): int {
    x * 64 + y
  }

  function Sextets3(x: int, y: int, z: int): int {
    x * 4096 + y * 64 + z
  }

  function Sextets4(x: int, y: int, z: int, w: int): int {
    x * 262144 + y * 4096 + z * 64 + w
  }

  /** Splitting off six bits at a time gives them back. */
  lemma SplitSextets(x: int, y: int, z: int, w: int)
    requires 0 <= y < 64 && 0 <= z < 64 && 0 <= w < 64
    ensures Sextets2(x, y) / 64 == x && Sextets2(x, y) % 64 == y
    ensures var c := Sextets3(x, y, z); c / 4096 == x && c / 64 % 64 == y && c % 64 == z
    ensures var c := Sextets4(x, y, z, w); c / 262144 == x && c / 4096 % 64 == y && c / 64 % 64 == z && c % 64 == w
  {
  }

  lemma DecodedTwo(s: seq<byte>)
    requires StartsWell(s) && Announced(s[0]) == 2
    ensures Scalar(Decoded(s)) && Encode(Decoded(s)) == [s[0], s[1]]
  {
    SplitSextets(s[0] as int - 0xC0, s[1] as int - 0x80, 0, 0);
  }

  lemma DecodedThree(s: seq<byte>)
    requires StartsWell(s) && Announced(s[0]) == 3
    ensures Scalar(Decoded(s)) && Encode(Decoded(s)) == [s[0], s[1], s[2]]
  {
    SplitSextets(s[0] as int - 0xE0, s[1] as int - 0x80, s[2] as int - 0x80, 0);
  }

  lemma DecodedFour(s: seq<byte>)
    requires StartsWell(s) && Announced(s[0]) == 4
    ensures Scalar(Decoded(s)) && Encode(Decoded(s)) == [s[0], s[1], s[2], s[3]]
  {
    SplitSextets(s[0] as int - 0xF0, s[1] as int - 0x80, s[2] as int - 0x80, s[3] as int - 0x80);
  }

  lemma DecodedEncodes(s: seq<byte>)
    requires StartsWell(s)
    ensures Scalar(Decoded(s)) && Encode(Decoded(s)) == s[..Announced(s[0])]
  {
    match Announced(s[0]) {
      case 1 =>
      case 2 => DecodedTwo(s);
      case 3 => DecodedThree(s);
      case _ => DecodedFour(s);
    }
  }

  /** Well-formed text is exactly what encoding a sequence of scalar values gives. */
  lemma {:induction false} WellFormedIsEncoded(s: seq<byte>)
    ensures WellFormedText(s) <==> exists cs :: Scalars(cs) && EncodeAll(cs) == s
  {
    if WellFormedText(s) {
      var cs := Decode(s);
    }
    forall cs | Scalars(cs) && EncodeAll(cs) == s ensures WellFormedText(s) {
      EncodedIsWellFormed(cs);
    }
  }

  lemma {:induction false} Decode(s: seq<byte>) returns (cs: seq<int>)
    requires WellFormedText(s)
    ensures Scalars(cs) && EncodeAll(cs) == s
  {
    if s == [] {
      cs := [];
    } else {
      var rest := Decode(s[Announced(s[0])..]);
      cs := FirstAndRest(s, rest);
    }
  }

  lemma FirstAndRest(s: seq<byte>, rest: seq<int>) returns (cs: seq<int>)
    requires StartsWell(s) && Scalars(rest) && EncodeAll(rest) == s[Announced(s[0])..]
    ensures Scalars(cs) && EncodeAll(cs) == s
  {
    DecodedEncodes(s);
    OneMore(Decoded(s), rest);
    cs := [Decoded(s)] + rest;
    Rejoin(s, Announced(s[0]));
  }

  lemma Rejoin(s: seq<byte>, k: nat)
    requires k <= |s|
    ensures s[..k] + s[k..] == s
  {
  }

  lemma OneMore(c: int, rest: seq<int>)
    requires Scalar(c) && Scalars(rest)
    ensures Scalars([c] + rest) && EncodeAll([c] + rest) == Encode(c) + EncodeAll(rest)
  {
    assert ([c] + rest)[1..] == rest;
  }

  lemma {:induction false} EncodedIsWellFormed(cs: seq<int>)
    requires Scalars(cs)
    ensures WellFormedText(EncodeAll(cs))
  {
    if cs != [] {
      var first, rest := Encode(cs[0]), EncodeAll(cs[1..]);
      EncodingIsWell(cs[0]);
      EncodedIsWellFormed(cs[1..]);
      assert (first + rest)[0] == first[0] && (first + rest)[|first|..] == rest;
    }
  }
}
