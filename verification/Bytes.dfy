/**
 Byte strings as the standard library trims them: white space is recognised by
 its UTF-8 encoding, and bytes that encode nothing are no space.
 */
module Bytes {

  /** A byte, written as the character with that code, so that ASCII text reads as itself. */
  type Octet = c: char | c < '\U{0100}'

  type Bytes = seq<Octet>

  // --- White space ---

  predicate IsSpace(c: char) {
    || '\U{0009}' <= c <= '\U{000D}' || c == ' ' || c == '\U{0085}' || c == '\U{00A0}' || c == '\U{1680}'
    || '\U{2000}' <= c <= '\U{200A}' || c == '\U{2028}' || c == '\U{2029}' || c == '\U{202F}' || c == '\U{205F}'
    || c == '\U{3000}'
  }

  predicate OneByteSpace(a: Octet) {
    '\U{0009}' <= a <= '\U{000D}' || a == ' '
  }

  predicate TwoByteSpace(a: Octet, b: Octet) {
    a == '\U{00C2}' && (b == '\U{0085}' || b == '\U{00A0}')
  }

  predicate ThreeByteSpace(a: Octet, b: Octet, c: Octet) {
    || (a == '\U{00E1}' && b == '\U{009A}' && c == '\U{0080}')
    || (a == '\U{00E2}' && b == '\U{0080}'
        && ('\U{0080}' <= c <= '\U{008A}' || c == '\U{00A8}' || c == '\U{00A9}' || c == '\U{00AF}'))
    || (a == '\U{00E2}' && b == '\U{0081}' && c == '\U{009F}')
    || (a == '\U{00E3}' && b == '\U{0080}' && c == '\U{0080}')
  }

  /** The length of the encoded space that s starts with, or 0. */
  function SpaceAtFront(s: Bytes): (n: nat)
    ensures n <= |s|
  {
    if |s| >= 1 && OneByteSpace(s[0]) then 1
    else if |s| >= 2 && TwoByteSpace(s[0], s[1]) then 2
    else if |s| >= 3 && ThreeByteSpace(s[0], s[1], s[2]) then 3
    else 0
  }

  function SpaceAtEnd(s: Bytes): (n: nat)
    ensures n <= |s|
  {
    var k := |s|;
    if k >= 1 && OneByteSpace(s[k - 1]) then 1
    else if k >= 2 && TwoByteSpace(s[k - 2], s[k - 1]) then 2
    else if k >= 3 && ThreeByteSpace(s[k - 3], s[k - 2], s[k - 1]) then 3
    else 0
  }

  function TrimLeft(s: Bytes): Bytes {
    if SpaceAtFront(s) > 0 then TrimLeft(s[SpaceAtFront(s)..]) else s
  }

  function TrimRight(s: Bytes): Bytes {
    if SpaceAtEnd(s) > 0 then TrimRight(s[..|s| - SpaceAtEnd(s)]) else s
  }

  function Trim(s: Bytes): Bytes {
    TrimRight(TrimLeft(s))
  }

  // --- The patterns are the encoded spaces ---

  function OctetOf(n: int): Octet
    requires 0 <= n < 256
  {
    n as char
  }

  /** The UTF-8 encoding of a scalar value (RFC 3629, section 3). */
  function Utf8(c: char): Bytes {
    var n := c as int;
    if n < 0x80 then [OctetOf(n)]
    else if n < 0x800 then [OctetOf(0xC0 + n / 0x40), OctetOf(0x80 + n % 0x40)]
    else if n < 0x1_0000 then
      [OctetOf(0xE0 + n / 0x1000), OctetOf(0x80 + n / 0x40 % 0x40), OctetOf(0x80 + n % 0x40)]
    else
      [OctetOf(0xF0 + n / 0x4_0000), OctetOf(0x80 + n / 0x1000 % 0x40), OctetOf(0x80 + n / 0x40 % 0x40),
       OctetOf(0x80 + n % 0x40)]
  }

  lemma ShortSpaces(c: char)
    requires c < '\U{0800}'
    ensures SpaceAtFront(Utf8(c)) == SpaceAtEnd(Utf8(c)) == if IsSpace(c) then |Utf8(c)| else 0
  {
  }

  lemma ThreeByteSpaces(c: char, a: int, b: int, d: int)
    requires '\U{0800}' <= c <= '\U{FFFF}'
    requires c as int == a * 0x1000 + b * 0x40 + d && 0 <= a < 16 && 0 <= b < 0x40 && 0 <= d < 0x40
    ensures ThreeByteSpace(OctetOf(0xE0 + a), OctetOf(0x80 + b), OctetOf(0x80 + d)) <==> IsSpace(c)
  {
  }

  lemma MiddleSpaces(c: char)
    requires '\U{0800}' <= c <= '\U{FFFF}'
    ensures SpaceAtFront(Utf8(c)) == SpaceAtEnd(Utf8(c)) == if IsSpace(c) then |Utf8(c)| else 0
  {
    var n := c as int;
    ThreeByteSpaces(c, n / 0x1000, n / 0x40 % 0x40, n % 0x40);
    var u := Utf8(c);
    assert u == [OctetOf(0xE0 + n / 0x1000), OctetOf(0x80 + n / 0x40 % 0x40), OctetOf(0x80 + n % 0x40)];
    hide IsSpace, ThreeByteSpace, Utf8;
  }

  lemma LongSpaces(c: char)
    requires c > '\U{FFFF}'
    ensures SpaceAtFront(Utf8(c)) == SpaceAtEnd(Utf8(c)) == 0 && !IsSpace(c)
  {
    var u := Utf8(c);
    assert |u| == 4 && u[0] >= '\U{00F0}' && u[1] >= '\U{0080}' && u[1] < '\U{00C0}' && u[2] >= '\U{0080}'
           && u[2] < '\U{00C0}' && u[3] >= '\U{0080}';
    hide Utf8;
  }

  /** An encoded character starts, and ends, with a space exactly when it is one. */
  lemma SpacesAreEncoded(c: char)
    ensures SpaceAtFront(Utf8(c)) == SpaceAtEnd(Utf8(c)) == if IsSpace(c) then |Utf8(c)| else 0
  {
    hide SpaceAtFront, SpaceAtEnd, Utf8, IsSpace;
    if c < '\U{0800}' {
      ShortSpaces(c);
    } else if c <= '\U{FFFF}' {
      MiddleSpaces(c);
    } else {
      LongSpaces(c);
    }
  }

  // --- Trimming and appended ASCII space ---

  lemma FrontAppend(s: Bytes, c: Octet)
    requires s != [] && OneByteSpace(c)
    ensures SpaceAtFront(s + [c]) == SpaceAtFront(s)
  {
  }

  lemma {:induction false} TrimLeftAppend(s: Bytes, c: Octet)
    requires OneByteSpace(c)
    ensures TrimLeft(s + [c]) == if TrimLeft(s) == [] then [] else TrimLeft(s) + [c]
    decreases |s|
  {
    if s == [] {
      assert (s + [c])[1..] == [];
    } else {
      FrontAppend(s, c);
      var n := SpaceAtFront(s);
      if n > 0 {
        assert (s + [c])[n..] == s[n..] + [c];
        TrimLeftAppend(s[n..], c);
      }
    }
  }

  lemma TrimRightAppend(s: Bytes, c: Octet)
    requires OneByteSpace(c)
    ensures TrimRight(s + [c]) == TrimRight(s)
  {
    assert (s + [c])[..|s|] == s;
  }

  lemma {:induction false} TrimAppend(s: Bytes, spaces: Bytes)
    requires forall c :: c in spaces ==> OneByteSpace(c)
    ensures Trim(s + spaces) == Trim(s)
    decreases |spaces|
  {
    if spaces == [] {
      assert s + spaces == s;
    } else {
      var n := |spaces| - 1;
      var front, c := spaces[..n], spaces[n];
      assert c in spaces && forall x :: x in front ==> x in spaces;
      assert s + spaces == (s + front) + [c];
      TrimLeftAppend(s + front, c);
      TrimRightAppend(TrimLeft(s + front), c);
      TrimAppend(s, front);
    }
  }
}
