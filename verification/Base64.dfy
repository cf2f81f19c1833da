/**
 The raw (unpadded) base64url encoding of RFC 4648, section 5, with the
 decoder's leniency: carriage returns and newlines are skipped, and the unused
 low bits of the last character are ignored.
 */
module Base64 {
  import opened Wrappers

  type Byte = x: int | 0 <= x < 256

  type Sextet = x: int | 0 <= x < 64

  function CharOf(v: Sextet): char {
    if v < 26 then 'A' + v as char
    else if v < 52 then 'a' + (v - 26) as char
    else if v < 62 then '0' + (v - 52) as char
    else if v == 62 then '-'
    else '_'
  }

  function ValueOf(c: char): Option<Sextet> {
    if 'A' <= c <= 'Z' then Some((c - 'A') as int)
    else if 'a' <= c <= 'z' then Some((c - 'a') as int + 26)
    else if '0' <= c <= '9' then Some((c - '0') as int + 52)
    else if c == '-' then Some(62)
    else if c == '_' then Some(63)
    else None
  }

  const ALPHABET := "ABCDEFGHIJKLMNOPQRSTUVWXYZ" + "abcdefghijklmnopqrstuvwxyz" + "0123456789" + "-_"

  lemma LetterOrder(v: int)
    requires 0 <= v < 26
    ensures ALPHABET[v] == 'A' + v as char && ALPHABET[26 + v] == 'a' + v as char
  {
    assert ALPHABET[v] == "ABCDEFGHIJKLMNOPQRSTUVWXYZ"[v];
    assert ALPHABET[26 + v] == "abcdefghijklmnopqrstuvwxyz"[v];
  }

  lemma DigitOrder(v: int)
    requires 0 <= v < 10
    ensures ALPHABET[52 + v] == '0' + v as char
  {
    assert ALPHABET[52 + v] == "0123456789"[v];
  }

  lemma CharOrder(v: Sextet)
    ensures CharOf(v) == ALPHABET[v]
  {
    if v < 26 { LetterOrder(v); } else if v < 52 { LetterOrder(v - 26); } else if v < 62 { DigitOrder(v - 52); }
  }

  /** The characters are those of the url-safe alphabet, in its order. */
  lemma AlphabetOrder(v: Sextet, c: char)
    ensures CharOf(v) == ALPHABET[v]
    ensures ValueOf(c) == Some(v) <==> c == ALPHABET[v]
  {
    hide CharOf, ValueOf;
    CharOrder(v);
    if ValueOf(c).Some? { CharOfValue(c); }
    ValueOfChar(v);
  }

  predicate InAlphabet(s: string) {
    forall i :: 0 <= i < |s| ==> ValueOf(s[i]).Some?
  }

  lemma ValueOfChar(v: Sextet)
    ensures ValueOf(CharOf(v)) == Some(v)
  {
  }

  lemma CharOfValue(c: char)
    requires ValueOf(c).Some?
    ensures CharOf(ValueOf(c).value) == c
  {
  }

  function Encode(bs: seq<Byte>): string {
    if |bs| == 0 then ""
    else if |bs| == 1 then [CharOf(bs[0] / 4), CharOf(bs[0] % 4 * 16)]
    else if |bs| == 2 then [CharOf(bs[0] / 4), CharOf(bs[0] % 4 * 16 + bs[1] / 16), CharOf(bs[1] % 16 * 4)]
    else
      [CharOf(bs[0] / 4), CharOf(bs[0] % 4 * 16 + bs[1] / 16), CharOf(bs[1] % 16 * 4 + bs[2] / 64), CharOf(bs[2] % 64)]
      + Encode(bs[3..])
  }

  function Strip(s: string): string {
    if s == "" then ""
    else if s[0] == '\r' || s[0] == '\n' then Strip(s[1..])
    else [s[0]] + Strip(s[1..])
  }

  /** The bytes of one group of two, three or four characters. */
  function Group(v: seq<Sextet>): seq<Byte>
    requires 2 <= |v| <= 4
  {
    var a := v[0] as int;
    var b := v[1] as int;
    [a * 4 + b / 16]
    + (if |v| > 2 then [b % 16 * 16 + v[2] / 4] else [])
    + (if |v| > 3 then [v[2] as int % 4 * 64 + v[3]] else [])
  }

  function Values(s: string): Option<seq<Sextet>> {
    if InAlphabet(s) then Some(seq(|s|, i requires 0 <= i < |s| => ValueOf(s[i]).value)) else None
  }

  function DecodeValues(v: seq<Sextet>): Option<seq<Byte>> {
    if |v| == 0 then Some([])
    else if |v| == 1 then None
    else if |v| < 4 then Some(Group(v))
    else
      match DecodeValues(v[4..])
      case Some(rest) => Some(Group(v[..4]) + rest)
      case None => None
  }

  function Decode(s: string): Option<seq<Byte>> {
    match Values(Strip(s))
    case Some(v) => DecodeValues(v)
    case None => None
  }

  // --- Encoded text is url-safe and decodes to its bytes ---

  lemma {:induction false} EncodeInAlphabet(bs: seq<Byte>)
    ensures InAlphabet(Encode(bs))
  {
    forall v: Sextet ensures ValueOf(CharOf(v)).Some? { ValueOfChar(v); }
    if |bs| >= 3 { EncodeInAlphabet(bs[3..]); }
  }

  /** No dot, carriage return or newline: an encoded part never breaks a dotted token. */
  lemma AlphabetIsSafe(s: string)
    requires InAlphabet(s)
    ensures '.' !in s && '\r' !in s && '\n' !in s
  {
    assert forall c :: c in s ==> ValueOf(c).Some?;
  }

  lemma {:induction false} StripSafe(s: string)
    requires '\r' !in s && '\n' !in s
    ensures Strip(s) == s
  {
    if s != "" {
      assert s == [s[0]] + s[1..];
      StripSafe(s[1..]);
    }
  }

  /** The six-bit values that encode the bytes. */
  function Sextets(bs: seq<Byte>): seq<Sextet> {
    if |bs| == 0 then []
    else if |bs| == 1 then [bs[0] / 4, bs[0] % 4 * 16]
    else if |bs| == 2 then [bs[0] / 4, bs[0] % 4 * 16 + bs[1] / 16, bs[1] % 16 * 4]
    else [bs[0] / 4, bs[0] % 4 * 16 + bs[1] / 16, bs[1] % 16 * 4 + bs[2] / 64, bs[2] % 64] + Sextets(bs[3..])
  }

  function Chars(v: seq<Sextet>): string {
    seq(|v|, i requires 0 <= i < |v| => CharOf(v[i]))
  }

  lemma {:induction false} EncodeIsChars(bs: seq<Byte>)
    ensures Encode(bs) == Chars(Sextets(bs))
  {
    if |bs| >= 3 {
      var head := [bs[0] / 4, bs[0] % 4 * 16 + bs[1] / 16, bs[1] % 16 * 4 + bs[2] / 64, bs[2] % 64];
      EncodeIsChars(bs[3..]);
      assert Sextets(bs) == head + Sextets(bs[3..]);
      assert Chars(head + Sextets(bs[3..])) == Chars(head) + Chars(Sextets(bs[3..]));
    }
  }

  lemma ValuesOfChars(v: seq<Sextet>)
    ensures Values(Chars(v)) == Some(v)
  {
    forall i | 0 <= i < |v|
      ensures ValueOf(Chars(v)[i]) == Some(v[i])
    {
      ValueOfChar(v[i]);
    }
    assert Values(Chars(v)).value == v;
  }

  lemma CharsOfValues(s: string)
    requires InAlphabet(s)
    ensures Chars(Values(s).value) == s
  {
    forall i | 0 <= i < |s|
      ensures Chars(Values(s).value)[i] == s[i]
    {
      CharOfValue(s[i]);
    }
  }

  lemma GroupBytes(a: Byte, b: Byte, c: Byte)
    ensures a / 4 * 4 + a % 4 * 16 / 16 == a
    ensures (a % 4 * 16 + b / 16) / 16 == a % 4 && (a % 4 * 16 + b / 16) % 16 == b / 16
    ensures (b % 16 * 4 + c / 64) / 4 == b % 16 && (b % 16 * 4 + c / 64) % 4 == c / 64
    ensures b / 16 * 16 + b % 16 == b && c / 64 * 64 + c % 64 == c
  {
  }

  lemma {:induction false} DecodeSextets(bs: seq<Byte>)
    ensures DecodeValues(Sextets(bs)) == Some(bs)
  {
    if |bs| == 1 {
      GroupBytes(bs[0], 0, 0);
      assert Group(Sextets(bs)) == [bs[0]];
      assert bs == [bs[0]];
    } else if |bs| == 2 {
      GroupBytes(bs[0], bs[1], 0);
      assert Group(Sextets(bs)) == [bs[0], bs[1]];
      assert bs == [bs[0], bs[1]];
    } else if |bs| >= 3 {
      GroupBytes(bs[0], bs[1], bs[2]);
      DecodeSextets(bs[3..]);
      var v := Sextets(bs);
      assert v[4..] == Sextets(bs[3..]);
      assert Group(v[..4]) == [bs[0], bs[1], bs[2]];
      assert bs == [bs[0], bs[1], bs[2]] + bs[3..];
    }
  }

  /** Decoding an encoding gives back the bytes. */
  lemma DecodeEncode(bs: seq<Byte>)
    ensures Decode(Encode(bs)) == Some(bs)
    ensures '.' !in Encode(bs)
  {
    EncodeInAlphabet(bs);
    AlphabetIsSafe(Encode(bs));
    StripSafe(Encode(bs));
    EncodeIsChars(bs);
    ValuesOfChars(Sextets(bs));
    DecodeSextets(bs);
  }

  // --- The bits ---

  /** Byte i, or zero past the end. */
  function ByteAt(bs: seq<Byte>, i: nat): int {
    if i < |bs| then bs[i] else 0
  }

  /** The value of character i, or zero past the end. */
  function ValueAt(s: string, i: nat): int {
    if i < |s| && ValueOf(s[i]).Some? then ValueOf(s[i]).value else 0
  }

  predicate SameBits(bs: seq<Byte>, s: string, i: nat) {
    ByteAt(bs, 3 * i) * 65_536 + ByteAt(bs, 3 * i + 1) * 256 + ByteAt(bs, 3 * i + 2)
    == ValueAt(s, 4 * i) * 262_144 + ValueAt(s, 4 * i + 1) * 4_096 + ValueAt(s, 4 * i + 2) * 64 + ValueAt(s, 4 * i + 3)
  }

  lemma FirstBits(bs: seq<Byte>)
    ensures SameBits(bs, Encode(bs), 0)
  {
    forall v: Sextet ensures ValueOf(CharOf(v)) == Some(v) { ValueOfChar(v); }
    hide ValueOf, CharOf;
  }

  lemma Later(bs: seq<Byte>, k: nat)
    requires |bs| >= 3
    ensures ByteAt(bs, k + 3) == ByteAt(bs[3..], k)
    ensures ValueAt(Encode(bs), k + 4) == ValueAt(Encode(bs[3..]), k)
  {
    hide ValueOf, CharOf;
    assert Encode(bs)[4..] == Encode(bs[3..]);
  }

  lemma LaterBits(bs: seq<Byte>, i: nat)
    requires |bs| >= 3
    ensures SameBits(bs, Encode(bs), i + 1) == SameBits(bs[3..], Encode(bs[3..]), i)
  {
    hide ByteAt, ValueAt, Encode;
    assert 3 * (i + 1) == 3 * i + 3 && 4 * (i + 1) == 4 * i + 4;
    Later(bs, 3 * i);
    Later(bs, 3 * i + 1);
    Later(bs, 3 * i + 2);
    Later(bs, 4 * i);
    Later(bs, 4 * i + 1);
    Later(bs, 4 * i + 2);
    Later(bs, 4 * i + 3);
  }

  /** Each three bytes and the four characters at their place are the same 24 bits, the last ones padded with zeros. */
  lemma {:induction false} EncodeKeepsBits(bs: seq<Byte>, i: nat)
    ensures |Encode(bs)| == (4 * |bs| + 2) / 3
    ensures SameBits(bs, Encode(bs), i)
  {
    hide SameBits, CharOf;
    if i == 0 { FirstBits(bs); }
    if |bs| >= 3 {
      EncodeKeepsBits(bs[3..], if i == 0 then 0 else i - 1);
      if i > 0 { LaterBits(bs, i - 1); }
    } else if i > 0 {
      NoBits(bs, i);
    }
  }

  lemma NoBits(bs: seq<Byte>, i: nat)
    requires |bs| < 3 && i > 0
    ensures SameBits(bs, Encode(bs), i)
  {
    assert |Encode(bs)| <= 4;
  }

  // --- What else decodes ---

  /** The low bits of the last character that no byte uses are zero. */
  predicate Canonical(v: seq<Sextet>) {
    && (|v| % 4 == 2 ==> v[|v| - 1] % 16 == 0)
    && (|v| % 4 == 3 ==> v[|v| - 1] % 4 == 0)
  }

  lemma {:induction false} DecodeValuesLength(v: seq<Sextet>)
    ensures DecodeValues(v).Some? <==> |v| % 4 != 1
  {
    if |v| >= 4 { DecodeValuesLength(v[4..]); }
  }

  lemma UngroupFour(v: seq<Sextet>)
    requires |v| == 4
    ensures Sextets(Group(v)) == v
  {
    SextetBits(v[0], v[1], v[2], v[3]);
    var g := Group(v);
    assert g[3..] == [];
    assert v == [v[0], v[1], v[2], v[3]];
  }

  lemma SextetBits(a: Sextet, b: Sextet, c: Sextet, d: Sextet)
    ensures (a * 4 + b / 16) / 4 == a && (a * 4 + b / 16) % 4 == b / 16
    ensures (b % 16 * 16 + c / 4) / 16 == b % 16 && (b % 16 * 16 + c / 4) % 16 == c / 4
    ensures (c % 4 * 64 + d) / 64 == c % 4 && (c % 4 * 64 + d) % 64 == d
    ensures b / 16 * 16 + b % 16 == b && c / 4 * 4 + c % 4 == c
  {
  }

  lemma SextetsPrefix(g: seq<Byte>, rest: seq<Byte>)
    requires |g| == 3
    ensures Sextets(g + rest) == Sextets(g) + Sextets(rest)
  {
    assert (g + rest)[3..] == rest && g[3..] == [];
  }

  lemma UngroupTwo(v: seq<Sextet>)
    requires |v| == 2
    ensures Sextets(Group(v)) == v <==> v[1] % 16 == 0
  {
    SextetBits(v[0], v[1], 0, 0);
    assert Sextets(Group(v)) == [v[0], v[1] / 16 * 16];
    assert v == [v[0], v[1]];
  }

  lemma UngroupThree(v: seq<Sextet>)
    requires |v| == 3
    ensures Sextets(Group(v)) == v <==> v[2] % 4 == 0
  {
    SextetBits(v[0], v[1], v[2], 0);
    assert Sextets(Group(v)) == [v[0], v[1], v[2] / 4 * 4];
    assert v == [v[0], v[1], v[2]];
  }

  lemma DecodeUnfolds(v: seq<Sextet>)
    requires DecodeValues(v).Some?
    ensures |v| == 0 ==> DecodeValues(v).value == []
    ensures 2 <= |v| < 4 ==> DecodeValues(v).value == Group(v)
    ensures |v| >= 4 ==> DecodeValues(v[4..]).Some?
                         && DecodeValues(v).value == Group(v[..4]) + DecodeValues(v[4..]).value
    ensures |v| != 1
  {
  }

  lemma {:induction false} SextetsDecoded(v: seq<Sextet>)
    requires DecodeValues(v).Some?
    ensures Sextets(DecodeValues(v).value) == v <==> Canonical(v)
  {
    hide Sextets, Group, DecodeValues;
    DecodeUnfolds(v);
    if |v| == 0 {
      SextetsEmpty();
    } else if |v| == 2 {
      UngroupTwo(v);
    } else if |v| == 3 {
      UngroupThree(v);
    } else {
      var g, rest := Group(v[..4]), DecodeValues(v[4..]).value;
      SextetsDecoded(v[4..]);
      UngroupFour(v[..4]);
      GroupLength(v[..4]);
      SextetsPrefix(g, rest);
      assert v == v[..4] + v[4..];
      assert (v[..4] + Sextets(rest))[4..] == Sextets(rest);
    }
  }

  lemma GroupLength(v: seq<Sextet>)
    requires 2 <= |v| <= 4
    ensures |Group(v)| == |v| - 1
  {
  }

  lemma SextetsEmpty()
    ensures Sextets([]) == []
  {
  }

  lemma {:induction false} StripBreak(a: string, c: char, b: string)
    requires c == '\r' || c == '\n'
    ensures Strip(a + [c] + b) == Strip(a + b)
  {
    if a == "" {
      assert ([c] + b)[1..] == b && "" + [c] + b == [c] + b && "" + b == b;
    } else {
      assert (a + [c] + b)[1..] == a[1..] + [c] + b && (a + b)[1..] == a[1..] + b;
      StripBreak(a[1..], c, b);
    }
  }

  /** A carriage return or newline anywhere makes no difference; text without any is decoded as it stands. */
  lemma LineBreaksAreSkipped(a: string, c: char, b: string)
    ensures c == '\r' || c == '\n' ==> Decode(a + [c] + b) == Decode(a + b)
    ensures '\r' !in a && '\n' !in a ==> Strip(a) == a
  {
    if c == '\r' || c == '\n' { StripBreak(a, c, b); }
    if '\r' !in a && '\n' !in a { StripSafe(a); }
  }

  /**
   Text decodes exactly when, without its line breaks, it is over the alphabet and
   no single character is left over; encoding the bytes again gives the text
   without its line breaks exactly when its unused bits are zero.
   */
  lemma DecodesWhen(s: string)
    ensures Decode(s).Some? <==> InAlphabet(Strip(s)) && |Strip(s)| % 4 != 1
    ensures Decode(s).Some? ==> (Encode(Decode(s).value) == Strip(s) <==> Canonical(Values(Strip(s)).value))
  {
    if Values(Strip(s)).Some? {
      var v := Values(Strip(s)).value;
      CharsOfValues(Strip(s));
      DecodeValuesLength(v);
      if DecodeValues(v).Some? {
        var bs := DecodeValues(v).value;
        SextetsDecoded(v);
        EncodeIsChars(bs);
        ValuesOfChars(Sextets(bs));
        ValuesOfChars(v);
      }
    }
  }
}
