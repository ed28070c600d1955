/** Well-formed UTF-8 byte sequences, after the grammar in section 4 of RFC 3629. */
module Utf8 {

  type Byte = b: int | 0 <= b < 256

  type Text = seq<Byte>

  predicate Tail(b: Byte) { 0x80 <= b <= 0xBF }

  /** The byte can begin a character (or is not valid anywhere): it is no continuation byte. */
  predicate RuneStart(b: Byte) { !Tail(b) }

  /** Length of the character at the front of `s`; 0 if there is none. */
  function CharLength(s: Text): (n: nat)
    ensures n <= |s| && n <= 4
  {
    if s == [] then 0
    else if s[0] <= 0x7F then 1
    else if 0xC2 <= s[0] <= 0xDF && |s| >= 2 && Tail(s[1]) then 2
    else if 0xE0 <= s[0] <= 0xEF && |s| >= 3 && Tail(s[1]) && Tail(s[2])
            && (s[0] == 0xE0 ==> 0xA0 <= s[1]) && (s[0] == 0xED ==> s[1] <= 0x9F) then 3
    else if 0xF0 <= s[0] <= 0xF4 && |s| >= 4 && Tail(s[1]) && Tail(s[2]) && Tail(s[3])
            && (s[0] == 0xF0 ==> 0x90 <= s[1]) && (s[0] == 0xF4 ==> s[1] <= 0x8F) then 4
    else 0
  }

  predicate WellFormed(s: Text)
    decreases |s|
  {
    s == [] || (CharLength(s) > 0 && WellFormed(s[CharLength(s)..]))
  }

  /** A place where a text may be cut. */
  predicate Boundary(s: Text, p: nat) {
    p == 0 || p == |s| || (p < |s| && RuneStart(s[p]))
  }

  /** Only the first byte of a character is a rune start. */
  lemma InsideCharacter(s: Text, i: nat)
    requires 0 < i < CharLength(s)
    ensures Tail(s[i])
  {
    assert i == 1 || i == 2 || i == 3;
  }

  /** A character does not depend on what follows it. */
  lemma CharacterKept(s: Text, p: nat)
    requires 0 < CharLength(s) <= p <= |s|
    ensures CharLength(s[..p]) == CharLength(s)
  {
    var t := s[..p];
    assert t[0] == s[0];
    assert CharLength(s) >= 2 ==> t[1] == s[1];
    assert CharLength(s) >= 3 ==> t[2] == s[2];
    assert CharLength(s) >= 4 ==> t[3] == s[3];
  }

  /** Part of a character is none. */
  lemma CharacterCut(s: Text, p: nat)
    requires 0 < p < CharLength(s)
    ensures CharLength(s[..p]) == 0
  {
    var t := s[..p];
    assert t[0] == s[0];
    assert p >= 2 ==> t[1] == s[1];
    assert p >= 3 ==> t[2] == s[2];
  }

  /** Cutting a well-formed text at a boundary leaves a well-formed text. */
  lemma {:induction false} PrefixAtBoundary(s: Text, p: nat)
    requires WellFormed(s) && p <= |s| && Boundary(s, p)
    ensures WellFormed(s[..p])
    decreases |s|
  {
    if p > 0 {
      var n := CharLength(s);
      if p < n { InsideCharacter(s, p); }
      var rest := s[n..];
      assert p - n < |rest| ==> rest[p - n] == s[p];
      PrefixAtBoundary(rest, p - n);
      CharacterKept(s, p);
      assert s[..p][n..] == rest[..p - n];
    }
  }

  /** Cutting anywhere else breaks it. */
  lemma {:induction false} PrefixOffBoundary(s: Text, p: nat)
    requires WellFormed(s) && p <= |s| && !Boundary(s, p)
    ensures !WellFormed(s[..p])
    decreases |s|
  {
    var n := CharLength(s);
    var rest := s[n..];
    if p >= n {
      assert p - n < |rest| && rest[p - n] == s[p];
      PrefixOffBoundary(rest, p - n);
      CharacterKept(s, p);
      assert s[..p][n..] == rest[..p - n];
    } else {
      CharacterCut(s, p);
    }
  }

  // ---------------------------------------------------------------- characters and their encodings

  /** Unicode scalar values: all code points but the surrogates. */
  predicate Scalar(c: int) { 0 <= c <= 0xD7FF || 0xE000 <= c <= 0x10FFFF }

  /** Six bits more. */
  function Join(a: int, b: int): int { a * 64 + b }

  function Upper(c: int): int { c / 64 }

  function Lower(c: int): (b: int)
    ensures 0 <= b < 64
  {
    c % 64
  }

  lemma JoinParts(a: int, b: int)
    requires 0 <= b < 64
    ensures Upper(Join(a, b)) == a && Lower(Join(a, b)) == b
  {
  }

  lemma PartsJoin(c: int)
    ensures Join(Upper(c), Lower(c)) == c
  {
  }

  /** The encoding of a scalar value, six bits to every byte but the first, after section 3 of RFC 3629. */
  function Encode(c: int): (r: Text)
    requires Scalar(c)
    ensures 1 <= |r| <= 4
  {
    if c <= 0x7F then [c]
    else if c <= 0x7FF then [0xC0 + Upper(c), 0x80 + Lower(c)]
    else if c <= 0xFFFF then [0xE0 + Upper(Upper(c)), 0x80 + Lower(Upper(c)), 0x80 + Lower(c)]
    else [0xF0 + Upper(Upper(Upper(c))), 0x80 + Lower(Upper(Upper(c))), 0x80 + Lower(Upper(c)), 0x80 + Lower(c)]
  }

  function EncodeAll(cs: seq<int>): Text
    requires forall i | 0 <= i < |cs| :: Scalar(cs[i])
  {
    if cs == [] then [] else Encode(cs[0]) + EncodeAll(cs[1..])
  }

  /** The scalar value of the character at the front. */
  function Front(s: Text): int
    requires CharLength(s) > 0
  {
    match CharLength(s)
    case 1 => s[0]
    case 2 => Join(s[0] - 0xC0, s[1] - 0x80)
    case 3 => Join(Join(s[0] - 0xE0, s[1] - 0x80), s[2] - 0x80)
    case _ => Join(Join(Join(s[0] - 0xF0, s[1] - 0x80), s[2] - 0x80), s[3] - 0x80)
  }

  /** Bytes joined to a value, and the bounds that make its encoding one of three or four bytes. */
  lemma Three(a: int, b: int, c: int)
    requires 0 <= a < 16 && 0 <= b < 64 && 0 <= c < 64 && (a == 0 ==> b >= 32) && (a == 13 ==> b < 32)
    ensures var v := Join(Join(a, b), c);
            Scalar(v) && Encode(v) == [0xE0 + a, 0x80 + b, 0x80 + c]
  {
    JoinParts(a, b);
    JoinParts(Join(a, b), c);
  }

  lemma Four(a: int, b: int, c: int, d: int)
    requires 0 <= a < 5 && 0 <= b < 64 && 0 <= c < 64 && 0 <= d < 64 && (a == 0 ==> b >= 16) && (a == 4 ==> b < 16)
    ensures var v := Join(Join(Join(a, b), c), d);
            Scalar(v) && Encode(v) == [0xF0 + a, 0x80 + b, 0x80 + c, 0x80 + d]
  {
    var v := Join(Join(Join(a, b), c), d);
    JoinParts(a, b);
    JoinParts(Join(a, b), c);
    JoinParts(Join(Join(a, b), c), d);
    Sizes(a, b, c, d);
    EncodeFour(v, a, b, c, d);
  }

  lemma EncodeFour(v: int, a: int, b: int, c: int, d: int)
    requires 0xFFFF < v <= 0x10FFFF
    requires Upper(Upper(Upper(v))) == a && Lower(Upper(Upper(v))) == b && Lower(Upper(v)) == c && Lower(v) == d
    ensures Encode(v) == [0xF0 + a, 0x80 + b, 0x80 + c, 0x80 + d]
  {
  }

  lemma Sizes(a: int, b: int, c: int, d: int)
    requires 0 <= a < 5 && 0 <= b < 64 && 0 <= c < 64 && 0 <= d < 64 && (a == 0 ==> b >= 16) && (a == 4 ==> b < 16)
    ensures 0xFFFF < Join(Join(Join(a, b), c), d) <= 0x10FFFF
  {
    assert 16 <= Join(a, b) <= 4 * 64 + 15;
  }

  /** What is taken for a character is the encoding of a scalar value. */
  lemma FrontIsEncoded(s: Text)
    requires CharLength(s) > 0
    ensures Scalar(Front(s)) && Encode(Front(s)) == s[..CharLength(s)]
  {
    match CharLength(s)
    case 1 => assert s[..1] == [s[0]];
    case 2 => TwoAreEncoded(s);
    case 3 => ThreeAreEncoded(s);
    case 4 => FourAreEncoded(s);
  }

  lemma TwoAreEncoded(s: Text)
    requires CharLength(s) == 2
    ensures Scalar(Front(s)) && Encode(Front(s)) == s[..2]
  {
    JoinParts(s[0] - 0xC0, s[1] - 0x80);
  }

  lemma ThreeAreEncoded(s: Text)
    requires CharLength(s) == 3
    ensures Scalar(Front(s)) && Encode(Front(s)) == s[..3]
  {
    assert s[..3] == [s[0], s[1], s[2]];
    Three(s[0] - 0xE0, s[1] - 0x80, s[2] - 0x80);
  }

  lemma FourAreEncoded(s: Text)
    requires CharLength(s) == 4
    ensures Scalar(Front(s)) && Encode(Front(s)) == s[..4]
  {
    assert s[..4] == [s[0], s[1], s[2], s[3]];
    Four(s[0] - 0xF0, s[1] - 0x80, s[2] - 0x80, s[3] - 0x80);
  }

  /** Every encoding is taken for a character, whatever follows. */
  lemma EncodedIsFront(c: int, rest: Text)
    requires Scalar(c)
    ensures CharLength(Encode(c) + rest) == |Encode(c)| && Front(Encode(c) + rest) == c
  {
    PartsJoin(c);
    PartsJoin(Upper(c));
    PartsJoin(Upper(Upper(c)));
    assert (Encode(c) + rest)[..|Encode(c)|] == Encode(c);
  }

  lemma Reassembled(s: Text, n: nat)
    requires n <= |s|
    ensures s[..n] + s[n..] == s
  {
  }

  lemma EncodesMore(c: int, cs: seq<int>)
    requires Scalar(c) && forall i | 0 <= i < |cs| :: Scalar(cs[i])
    ensures (forall i | 0 <= i < |[c] + cs| :: Scalar(([c] + cs)[i])) && EncodeAll([c] + cs) == Encode(c) + EncodeAll(cs)
  {
    assert ([c] + cs)[1..] == cs;
  }

  /** The well-formed texts are the encodings of lists of scalar values. */
  lemma {:induction false} WellFormedIsEncoded(s: Text) returns (cs: seq<int>)
    requires WellFormed(s)
    ensures (forall i | 0 <= i < |cs| :: Scalar(cs[i])) && EncodeAll(cs) == s
    decreases |s|
  {
    cs := [];
    if s != [] {
      FrontIsEncoded(s);
      var more := WellFormedIsEncoded(s[CharLength(s)..]);
      cs := [Front(s)] + more;
      EncodesMore(Front(s), more);
      Reassembled(s, CharLength(s));
    }
  }

  lemma {:induction false} EncodedIsWellFormed(cs: seq<int>)
    requires forall i | 0 <= i < |cs| :: Scalar(cs[i])
    ensures WellFormed(EncodeAll(cs))
  {
    if cs != [] {
      EncodedIsWellFormed(cs[1..]);
      EncodedIsFront(cs[0], EncodeAll(cs[1..]));
      assert EncodeAll(cs)[|Encode(cs[0])|..] == EncodeAll(cs[1..]);
    }
  }

  /** Both directions at once. */
  lemma WellFormedIff(s: Text)
    ensures WellFormed(s) <==> exists cs: seq<int> :: (forall i | 0 <= i < |cs| :: Scalar(cs[i])) && EncodeAll(cs) == s
  {
    if WellFormed(s) { var cs := WellFormedIsEncoded(s); }
    if cs: seq<int> :| (forall i | 0 <= i < |cs| :: Scalar(cs[i])) && EncodeAll(cs) == s { EncodedIsWellFormed(cs); }
  }
}
