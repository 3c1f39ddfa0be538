/**
 Query strings of signed HTTP requests: percent decoding and the split into
 parameters. Strings are their UTF-8 bytes.
 */
module HttpQuery {
  import opened PeerTable

  type Byte = x: nat | x < 256
  type Bytes = seq<Byte>

  const PERCENT: Byte := 0x25
  const PLUS: Byte := 0x2B
  const SPACE: Byte := 0x20
  const AMPERSAND: Byte := 0x26
  const EQUALS: Byte := 0x3D

  // ----------------------------------------------------------------- UTF-8

  predicate Tail(b: Byte) {
    0x80 <= b <= 0xBF
  }

  /** How many bytes the first character takes, zero if they are ill-formed: section 4 of RFC 3629. */
  function FirstChar(s: Bytes): (n: nat)
    ensures n <= |s|
  {
    if s == [] then 0
    else if s[0] <= 0x7F then 1
    else if |s| >= 2 && 0xC2 <= s[0] <= 0xDF && Tail(s[1]) then 2
    else if |s| >= 3 && Tail(s[1]) && Tail(s[2]) &&
            ((s[0] == 0xE0 && s[1] >= 0xA0) || 0xE1 <= s[0] <= 0xEC || (s[0] == 0xED && s[1] <= 0x9F) || 0xEE <= s[0] <= 0xEF)
    then 3
    else if |s| >= 4 && Tail(s[1]) && Tail(s[2]) && Tail(s[3]) &&
            ((s[0] == 0xF0 && s[1] >= 0x90) || 0xF1 <= s[0] <= 0xF3 || (s[0] == 0xF4 && s[1] <= 0x8F))
    then 4
    else 0
  }

  predicate ValidUtf8(s: Bytes)
    decreases |s|
  {
    s == [] || (FirstChar(s) > 0 && ValidUtf8(s[FirstChar(s)..]))
  }

  /** A Unicode scalar value: any code point but the surrogates. */
  predicate Scalar(c: nat) {
    c < 0xD800 || 0xE000 <= c <= 0x10FFFF
  }

  /** The bytes of one character: the table in section 3 of RFC 3629. */
  function Utf8(c: nat): Bytes
    requires Scalar(c)
  {
    if c < 0x80 then [c]
    else if c < 0x800 then [0xC0 + c / 64, 0x80 + c % 64]
    else if c < 0x10000 then [0xE0 + c / 4096, 0x80 + c / 64 % 64, 0x80 + c % 64]
    else [0xF0 + c / 262144, 0x80 + c / 4096 % 64, 0x80 + c / 64 % 64, 0x80 + c % 64]
  }

  ghost predicate IsText(cs: seq<nat>) {
    forall i | 0 <= i < |cs| :: Scalar(cs[i])
  }

  function Utf8All(cs: seq<nat>): Bytes
    requires IsText(cs)
  {
    if cs == [] then [] else Utf8(cs[0]) + Utf8All(cs[1..])
  }

  /** Only the bytes of the first character matter. */
  lemma FirstCharPrefix(a: Bytes, rest: Bytes)
    requires a != [] && FirstChar(a) == |a|
    ensures FirstChar(a + rest) == |a|
  {
    var s := a + rest;
    assert s[0] == a[0] && (|a| > 1 ==> s[1] == a[1]) && (|a| > 2 ==> s[2] == a[2]) && (|a| > 3 ==> s[3] == a[3]);
  }

  lemma LeadOfThree(c: nat)
    requires Scalar(c) && 0x800 <= c < 0x10000
    ensures c / 4096 < 16 && (c / 4096 == 0 ==> c / 64 % 64 >= 0x20) && (c / 4096 == 0xD ==> c / 64 % 64 < 0x20)
  {
    assert c / 64 == c / 4096 * 64 + c / 64 % 64;
  }

  lemma LeadOfFour(c: nat)
    requires 0x10000 <= c <= 0x10FFFF
    ensures c / 262144 <= 4
    ensures (c / 262144 == 0 ==> c / 4096 % 64 >= 0x10) && (c / 262144 == 4 ==> c / 4096 % 64 < 0x10)
  {
    assert c / 4096 == c / 262144 * 64 + c / 4096 % 64;
  }

  lemma FirstCharOf(c: nat, rest: Bytes)
    requires Scalar(c)
    ensures FirstChar(Utf8(c) + rest) == |Utf8(c)|
  {
    if 0x800 <= c < 0x10000 {
      LeadOfThree(c);
    } else if 0x10000 <= c {
      LeadOfFour(c);
    }
    FirstCharPrefix(Utf8(c), rest);
  }

  lemma Sixes(a: nat, b: nat, c: nat, d: nat)
    requires b < 64 && c < 64 && d < 64
    ensures
      var x := a * 262144 + b * 4096 + c * 64 + d;
      x / 262144 == a && x / 4096 % 64 == b && x / 64 % 64 == c && x % 64 == d
  {
    var x := a * 262144 + b * 4096 + c * 64 + d;
    assert x / 64 == a * 4096 + b * 64 + c;
    assert x / 4096 == a * 64 + b;
  }

  lemma TwoBytes(s: Bytes) returns (c: nat)
    requires |s| == 2 && 0xC2 <= s[0] <= 0xDF && Tail(s[1])
    ensures Scalar(c) && Utf8(c) == s
  {
    var a: int, b: int := s[0], s[1];
    c := (a - 0xC0) * 64 + (b - 0x80);
    assert c / 64 == a - 0xC0 && c % 64 == b - 0x80;
  }

  lemma ThreeBytes(s: Bytes) returns (c: nat)
    requires |s| == 3 && 0xE0 <= s[0] <= 0xEF && Tail(s[1]) && Tail(s[2])
    requires (s[0] == 0xE0 ==> s[1] >= 0xA0) && (s[0] == 0xED ==> s[1] <= 0x9F)
    ensures Scalar(c) && Utf8(c) == s
  {
    var x: int, y: int, z: int := s[0], s[1], s[2];
    c := (x - 0xE0) * 4096 + (y - 0x80) * 64 + (z - 0x80);
    Sixes(0, x - 0xE0, y - 0x80, z - 0x80);
    assert c / 4096 == x - 0xE0 && 0x800 <= c < 0x10000;
  }

  lemma FourBytes(s: Bytes) returns (c: nat)
    requires |s| == 4 && 0xF0 <= s[0] <= 0xF4 && Tail(s[1]) && Tail(s[2]) && Tail(s[3])
    requires (s[0] == 0xF0 ==> s[1] >= 0x90) && (s[0] == 0xF4 ==> s[1] <= 0x8F)
    ensures Scalar(c) && Utf8(c) == s
  {
    var w: int, x: int, y: int, z: int := s[0], s[1], s[2], s[3];
    c := (w - 0xF0) * 262144 + (x - 0x80) * 4096 + (y - 0x80) * 64 + (z - 0x80);
    Sixes(w - 0xF0, x - 0x80, y - 0x80, z - 0x80);
    assert 0x10000 <= c <= 0x10FFFF;
  }

  lemma FirstCharIs(s: Bytes) returns (c: nat)
    requires FirstChar(s) > 0
    ensures Scalar(c) && Utf8(c) == s[..FirstChar(s)]
  {
    var n := FirstChar(s);
    if n == 1 {
      c := s[0];
    } else if n == 2 {
      c := TwoBytes(s[..2]);
    } else if n == 3 {
      c := ThreeBytes(s[..3]);
    } else {
      c := FourBytes(s[..4]);
    }
  }

  lemma {:induction false} TextIsValid(cs: seq<nat>)
    requires IsText(cs)
    ensures ValidUtf8(Utf8All(cs))
  {
    if cs != [] {
      TextIsValid(cs[1..]);
      var s := Utf8All(cs);
      FirstCharOf(cs[0], Utf8All(cs[1..]));
      assert s[|Utf8(cs[0])|..] == Utf8All(cs[1..]);
    }
  }

  lemma OneMoreChar(c: nat, cs: seq<nat>)
    requires Scalar(c) && IsText(cs)
    ensures IsText([c] + cs) && Utf8All([c] + cs) == Utf8(c) + Utf8All(cs)
  {
    assert ([c] + cs)[1..] == cs;
  }

  lemma {:induction false} ValidIsText(s: Bytes) returns (cs: seq<nat>)
    requires ValidUtf8(s)
    ensures IsText(cs) && Utf8All(cs) == s
    decreases |s|
  {
    cs := [];
    if s != [] {
      var c := FirstCharIs(s);
      var rest := ValidIsText(s[FirstChar(s)..]);
      cs := [c] + rest;
      OneMoreChar(c, rest);
      assert s == s[..FirstChar(s)] + s[FirstChar(s)..];
    }
  }

  /** Well-formed means: the encoding of some characters. */
  lemma ValidUtf8Iff(s: Bytes)
    ensures ValidUtf8(s) <==> exists cs: seq<nat> :: IsText(cs) && Utf8All(cs) == s
  {
    if ValidUtf8(s) {
      var cs := ValidIsText(s);
    }
    if cs: seq<nat> :| IsText(cs) && Utf8All(cs) == s {
      TextIsValid(cs);
    }
  }

  // -------------------------------------------------------- percent decoding

  function HexValue(b: Byte): Option<Byte> {
    if 0x30 <= b <= 0x39 then Some(b - 0x30)
    else if 0x41 <= b <= 0x46 then Some(b - 0x41 + 10)
    else if 0x61 <= b <= 0x66 then Some(b - 0x61 + 10)
    else None
  }

  /** The text starts with a percent sign and two hexadecimal digits. */
  predicate IsEscape(s: Bytes) {
    |s| > 2 && s[0] == PERCENT && HexValue(s[1]).Some? && HexValue(s[2]).Some?
  }

  function EscapeValue(s: Bytes): Byte
    requires IsEscape(s)
  {
    HexValue(s[1]).value * 16 + HexValue(s[2]).value
  }

  /** Escapes become their bytes; everything else, malformed escapes included, stays. */
  function Unescape(s: Bytes): Bytes {
    if s == [] then []
    else if IsEscape(s) then [EscapeValue(s)] + Unescape(s[3..])
    else [s[0]] + Unescape(s[1..])
  }

  function PlusToSpace(s: Bytes): (r: Bytes)
    ensures |r| == |s| && forall i | 0 <= i < |s| :: r[i] == if s[i] == PLUS then SPACE else s[i]
  {
    if s == [] then [] else [if s[0] == PLUS then SPACE else s[0]] + PlusToSpace(s[1..])
  }

  function Decoded(s: Bytes): Bytes {
    var out := Unescape(PlusToSpace(s));
    if ValidUtf8(out) then out else []
  }

  method PctDecode(s: Bytes) returns (r: Bytes)
    ensures r == Decoded(s)
  {
    var bytes := PlusToSpace(s);
    var out: Bytes := [];
    var i := 0;
    while i < |bytes|
      invariant 0 <= i <= |bytes|
      invariant Unescape(bytes) == out + Unescape(bytes[i..])
    {
      if bytes[i] == PERCENT && i + 2 < |bytes| {
        var h, l := HexValue(bytes[i + 1]), HexValue(bytes[i + 2]);
        if h.Some? && l.Some? {
          UnescapeAt(bytes, i);
          Pushed(out, h.value * 16 + l.value, Unescape(bytes[i + 3..]));
          out := out + [h.value * 16 + l.value];
          i := i + 3;
          continue;
        }
      }
      UnescapeAt(bytes, i);
      Pushed(out, bytes[i], Unescape(bytes[i + 1..]));
      out := out + [bytes[i]];
      i := i + 1;
    }
    assert bytes[i..] == [];
    assert out + [] == out;
    r := if ValidUtf8(out) then out else [];
  }

  lemma Pushed(out: Bytes, b: Byte, rest: Bytes)
    ensures out + ([b] + rest) == out + [b] + rest
  {
  }

  lemma UnescapeAt(bytes: Bytes, i: nat)
    requires i < |bytes|
    ensures
      if IsEscape(bytes[i..])
      then i + 2 < |bytes| && Unescape(bytes[i..]) == [EscapeValue(bytes[i..])] + Unescape(bytes[i + 3..])
      else Unescape(bytes[i..]) == [bytes[i]] + Unescape(bytes[i + 1..])
  {
    if IsEscape(bytes[i..]) {
      assert bytes[i..][3..] == bytes[i + 3..];
    } else {
      assert bytes[i..][1..] == bytes[i + 1..];
    }
  }

  // ------------------------------------------------------------- round trip

  /** Letters, digits, hyphen, period, underscore and tilde: section 2.3 of RFC 3986. */
  predicate Unreserved(b: Byte) {
    0x41 <= b <= 0x5A || 0x61 <= b <= 0x7A || 0x30 <= b <= 0x39 || b == 0x2D || b == 0x2E || b == 0x5F || b == 0x7E
  }

  /** The digits from 0 to 15, in upper and in lower case: section 2.1 of RFC 3986. */
  const UPPER_DIGITS: Bytes :=
    [0x30, 0x31, 0x32, 0x33, 0x34, 0x35, 0x36, 0x37, 0x38, 0x39, 0x41, 0x42, 0x43, 0x44, 0x45, 0x46]
  const LOWER_DIGITS: Bytes :=
    [0x30, 0x31, 0x32, 0x33, 0x34, 0x35, 0x36, 0x37, 0x38, 0x39, 0x61, 0x62, 0x63, 0x64, 0x65, 0x66]

  predicate IsDigit(b: Byte, n: nat) {
    n < 16 && (b == UPPER_DIGITS[n] || b == LOWER_DIGITS[n])
  }

  /** `t` starts with a percent sign and the two digits of `b`, each in either case. */
  predicate Escapes(t: Bytes, b: Byte) {
    |t| > 2 && t[0] == PERCENT && IsDigit(t[1], b / 16) && IsDigit(t[2], b % 16)
  }

  lemma DigitIff(b: Byte, n: nat)
    ensures IsDigit(b, n) <==> HexValue(b).Some? && HexValue(b).value == n
  {
  }

  lemma EscapesIff(t: Bytes, b: Byte)
    ensures Escapes(t, b) <==> IsEscape(t) && EscapeValue(t) == b
  {
    if |t| > 2 {
      DigitIff(t[1], b / 16);
      DigitIff(t[2], b % 16);
    }
  }

  /**
   `t` encodes `s`: every byte as an escape with digits in either case, all but percent
   and plus signs possibly as themselves, spaces possibly as a plus sign.
   */
  predicate Encodes(t: Bytes, s: Bytes)
    decreases |s|
  {
    if s == [] then t == []
    else
      || (Escapes(t, s[0]) && Encodes(t[3..], s[1..]))
      || (t != [] && t[0] == s[0] && s[0] != PERCENT && s[0] != PLUS && Encodes(t[1..], s[1..]))
      || (t != [] && t[0] == PLUS && s[0] == SPACE && Encodes(t[1..], s[1..]))
  }

  /** The encoding of section 2.1 of RFC 3986: every byte outside the unreserved set is escaped. */
  function EncodeByte(b: Byte): Bytes {
    if Unreserved(b) then [b] else [PERCENT, UPPER_DIGITS[b / 16], UPPER_DIGITS[b % 16]]
  }

  function Encode(s: Bytes): Bytes {
    if s == [] then [] else EncodeByte(s[0]) + Encode(s[1..])
  }

  lemma {:induction false} EncodeEncodes(s: Bytes)
    ensures Encodes(Encode(s), s)
  {
    if s != [] {
      EncodeEncodes(s[1..]);
      var rest := Encode(s[1..]);
      if Unreserved(s[0]) {
        assert ([s[0]] + rest)[1..] == rest;
      } else {
        var t := EncodeByte(s[0]) + rest;
        assert t[3..] == rest;
        assert Escapes(t, s[0]);
      }
    }
  }

  lemma PlusToSpaceDrop(t: Bytes, n: nat)
    requires n <= |t|
    ensures PlusToSpace(t)[n..] == PlusToSpace(t[n..])
  {
  }

  /** Replacing plus signs neither makes nor breaks an escape. */
  lemma EscapeSurvives(t: Bytes)
    ensures IsEscape(PlusToSpace(t)) <==> IsEscape(t)
    ensures IsEscape(t) ==> EscapeValue(PlusToSpace(t)) == EscapeValue(t)
  {
  }

  /** Any encoding of a byte string unescapes to it. */
  lemma {:induction false} EncodedUnescapes(t: Bytes, s: Bytes)
    requires Encodes(t, s)
    ensures Unescape(PlusToSpace(t)) == s
    decreases |s|
  {
    if s != [] {
      EscapeSurvives(t);
      EscapesIff(t, s[0]);
      assert s == [s[0]] + s[1..];
      if Escapes(t, s[0]) && Encodes(t[3..], s[1..]) {
        EncodedUnescapes(t[3..], s[1..]);
        PlusToSpaceDrop(t, 3);
      } else {
        assert !IsEscape(t);
        EncodedUnescapes(t[1..], s[1..]);
        PlusToSpaceDrop(t, 1);
      }
    }
  }

  /** Decoding undoes encoding, for every string; bytes that are no string decode to nothing. */
  lemma DecodeUndoesEncode(t: Bytes, s: Bytes)
    requires Encodes(t, s)
    ensures Decoded(t) == if ValidUtf8(s) then s else []
  {
    EncodedUnescapes(t, s);
  }

  ghost predicate NoEscape(s: Bytes) {
    forall i | 0 <= i < |s| :: !IsEscape(s[i..])
  }

  lemma NoEscapeSplit(s: Bytes)
    requires s != []
    ensures NoEscape(s) <==> !IsEscape(s) && NoEscape(s[1..])
  {
    assert s[0..] == s;
    assert forall i | 0 <= i < |s| - 1 :: s[1..][i..] == s[i + 1..];
    if !IsEscape(s) && NoEscape(s[1..]) {
      forall i | 0 <= i < |s| ensures !IsEscape(s[i..]) {
        if i > 0 {
          assert s[1..][i - 1..] == s[i..];
        }
      }
    }
  }

  /** Unescaping shortens a text exactly when it holds an escape, and otherwise keeps it. */
  lemma {:induction false} UnescapeKeepsIff(s: Bytes)
    ensures |Unescape(s)| <= |s|
    ensures |Unescape(s)| == |s| <==> NoEscape(s)
    ensures NoEscape(s) ==> Unescape(s) == s
  {
    if s != [] {
      NoEscapeSplit(s);
      if IsEscape(s) {
        UnescapeKeepsIff(s[3..]);
      } else {
        UnescapeKeepsIff(s[1..]);
        assert s == [s[0]] + s[1..];
      }
    }
  }

  lemma UnchangedIfPlain(s: Bytes)
    requires ValidUtf8(s)
    ensures Decoded(s) == s <==> PLUS !in s && NoEscape(s)
  {
    var t := PlusToSpace(s);
    UnescapeKeepsIff(t);
    NoEscapeSurvives(s);
    if PLUS !in s {
      assert t == s;
    } else {
      var i :| 0 <= i < |s| && s[i] == PLUS;
      assert t[i] != s[i];
    }
  }

  /** A string is left alone exactly when it has no plus sign and nowhere the escape of a byte. */
  lemma UnchangedIff(s: Bytes)
    requires ValidUtf8(s)
    ensures Decoded(s) == s <==> PLUS !in s && forall i, b: Byte | 0 <= i < |s| :: !Escapes(s[i..], b)
  {
    UnchangedIfPlain(s);
    NoEscapeIff(s);
  }

  lemma NoEscapeIff(s: Bytes)
    ensures NoEscape(s) <==> forall i, b: Byte | 0 <= i < |s| :: !Escapes(s[i..], b)
  {
    forall i, b: Byte | 0 <= i < |s| ensures Escapes(s[i..], b) ==> IsEscape(s[i..]) { EscapesIff(s[i..], b); }
    if !NoEscape(s) {
      var i :| 0 <= i < |s| && IsEscape(s[i..]);
      EscapesIff(s[i..], EscapeValue(s[i..]));
    }
  }

  lemma NoEscapeSurvives(s: Bytes)
    ensures NoEscape(PlusToSpace(s)) <==> NoEscape(s)
  {
    forall i | 0 <= i < |s| ensures IsEscape(PlusToSpace(s)[i..]) <==> IsEscape(s[i..]) {
      PlusToSpaceDrop(s, i);
      EscapeSurvives(s[i..]);
    }
  }

  // ------------------------------------------------------------ parameters

  type Pairs = seq<(Bytes, Bytes)>

  /** Where `b` first occurs, or the length. */
  function IndexOf(s: Bytes, b: Byte): (i: nat)
    ensures i <= |s|
  {
    if s == [] || s[0] == b then 0 else IndexOf(s[1..], b) + 1
  }

  lemma {:induction false} IndexAfter(a: Bytes, b: Byte, rest: Bytes)
    requires b !in a
    ensures IndexOf(a + ([b] + rest), b) == |a|
  {
    if a == [] {
      assert a + ([b] + rest) == [b] + rest;
    } else {
      IndexAfter(a[1..], b, rest);
      assert (a + ([b] + rest))[1..] == a[1..] + ([b] + rest);
    }
  }

  lemma {:induction false} IndexAbsent(a: Bytes, b: Byte)
    requires b !in a
    ensures IndexOf(a, b) == |a|
  {
    if a != [] {
      IndexAbsent(a[1..], b);
    }
  }

  /** One piece between ampersands; empty pieces are skipped, a missing value is empty. */
  function PairOf(piece: Bytes): Pairs {
    var e := IndexOf(piece, EQUALS);
    if piece == [] then []
    else if e == |piece| then [(Decoded(piece), Decoded([]))]
    else [(Decoded(piece[..e]), Decoded(piece[e + 1..]))]
  }

  function PairsOf(query: Bytes): Pairs
    decreases |query|
  {
    var a := IndexOf(query, AMPERSAND);
    if a == |query| then PairOf(query) else PairOf(query[..a]) + PairsOf(query[a + 1..])
  }

  method ParsePiece(piece: Bytes) returns (pairs: Pairs)
    ensures pairs == PairOf(piece)
  {
    if piece == [] {
      return [];
    }
    var e := IndexOf(piece, EQUALS);
    var k := PctDecode(piece[..e]);
    var v := PctDecode(if e < |piece| then piece[e + 1..] else []);
    assert e == |piece| ==> piece[..e] == piece;
    pairs := [(k, v)];
  }

  lemma Regroup(a: Pairs, b: Pairs, c: Pairs)
    ensures a + (b + c) == a + b + c
  {
  }

  method ParseQuery(query: Option<Bytes>) returns (out: Pairs)
    ensures out == if query.Some? then PairsOf(query.value) else []
  {
    out := [];
    if query.None? {
      return;
    }
    var rest := query.value;
    var a := IndexOf(rest, AMPERSAND);
    while a < |rest|
      invariant a == IndexOf(rest, AMPERSAND)
      invariant PairsOf(query.value) == out + PairsOf(rest)
      decreases |rest|
    {
      var pairs := ParsePiece(rest[..a]);
      Regroup(out, pairs, PairsOf(rest[a + 1..]));
      out := out + pairs;
      rest := rest[a + 1..];
      a := IndexOf(rest, AMPERSAND);
    }
    var pairs := ParsePiece(rest);
    out := out + pairs;
  }

  /** A query as a client prints it. */
  function PrintedQuery(ps: Pairs): Bytes {
    if ps == [] then []
    else if |ps| == 1 then PrintedPair(ps[0])
    else PrintedPair(ps[0]) + ([AMPERSAND] + PrintedQuery(ps[1..]))
  }

  function PrintedPair(p: (Bytes, Bytes)): Bytes {
    Encode(p.0) + ([EQUALS] + Encode(p.1))
  }

  predicate ValidPair(p: (Bytes, Bytes)) {
    ValidUtf8(p.0) && ValidUtf8(p.1)
  }

  lemma EncodedByteAvoids(b: Byte)
    ensures forall i | 0 <= i < |EncodeByte(b)| :: EncodeByte(b)[i] != AMPERSAND && EncodeByte(b)[i] != EQUALS
  {
    if !Unreserved(b) {
      DigitIff(UPPER_DIGITS[b / 16], b / 16);
      DigitIff(UPPER_DIGITS[b % 16], b % 16);
    }
  }

  lemma {:induction false} EncodeAvoids(s: Bytes)
    ensures AMPERSAND !in Encode(s) && EQUALS !in Encode(s)
  {
    if s != [] {
      EncodeAvoids(s[1..]);
      EncodedByteAvoids(s[0]);
    }
  }

  lemma BareParses(text: Bytes, name: Bytes)
    requires text != [] && EQUALS !in text && Encodes(text, name) && ValidUtf8(name)
    ensures PairOf(text) == [(name, [])]
  {
    IndexAbsent(text, EQUALS);
    DecodeUndoesEncode(text, name);
    DecodeUndoesEncode([], []);
  }

  /** The first equals sign ends the name; the value may hold more of them. */
  lemma FullParses(text: Bytes, name: Bytes, valueText: Bytes, value: Bytes)
    requires EQUALS !in text && Encodes(text, name) && Encodes(valueText, value) && ValidPair((name, value))
    ensures PairOf(text + ([EQUALS] + valueText)) == [(name, value)]
  {
    IndexAfter(text, EQUALS, valueText);
    var piece := text + ([EQUALS] + valueText);
    assert piece[..|text|] == text && piece[|text| + 1..] == valueText;
    DecodeUndoesEncode(text, name);
    DecodeUndoesEncode(valueText, value);
  }

  lemma PrintedPairParses(p: (Bytes, Bytes))
    requires ValidPair(p)
    ensures PairOf(PrintedPair(p)) == [p] && AMPERSAND !in PrintedPair(p)
  {
    EncodeEncodes(p.0);
    EncodeEncodes(p.1);
    EncodeAvoids(p.0);
    EncodeAvoids(p.1);
    FullParses(Encode(p.0), p.0, Encode(p.1), p.1);
  }

  lemma FirstPiece(first: Bytes, rest: Bytes)
    requires AMPERSAND !in first
    ensures PairsOf(first + ([AMPERSAND] + rest)) == PairOf(first) + PairsOf(rest)
  {
    IndexAfter(first, AMPERSAND, rest);
    var q := first + ([AMPERSAND] + rest);
    assert q[..|first|] == first && q[|first| + 1..] == rest;
  }

  lemma OnlyPiece(piece: Bytes)
    requires AMPERSAND !in piece
    ensures PairsOf(piece) == PairOf(piece)
  {
    IndexAbsent(piece, AMPERSAND);
  }

  lemma PrintedMore(p: (Bytes, Bytes), ps: Pairs)
    requires ValidPair(p) && PairsOf(PrintedQuery(ps)) == ps
    ensures PairsOf(PrintedPair(p) + ([AMPERSAND] + PrintedQuery(ps))) == [p] + ps
  {
    PrintedPairParses(p);
    FirstPiece(PrintedPair(p), PrintedQuery(ps));
  }

  /** Parsing a printed query gives back every parameter, in order, empty names and values included. */
  lemma {:induction false} PrintedQueryParses(ps: Pairs)
    requires forall i | 0 <= i < |ps| :: ValidPair(ps[i])
    ensures PairsOf(PrintedQuery(ps)) == ps
  {
    if ps == [] {
    } else if |ps| == 1 {
      PrintedPairParses(ps[0]);
      OnlyPiece(PrintedPair(ps[0]));
      assert ps == [ps[0]];
    } else {
      PrintedQueryParses(ps[1..]);
      PrintedMore(ps[0], ps[1..]);
      assert ps == [ps[0]] + ps[1..];
    }
  }

  // Any query a client may print: empty pieces, names without a value, any encoding.

  datatype Piece = Skip | Bare(text: Bytes, name: Bytes) | Full(text: Bytes, name: Bytes, valueText: Bytes, value: Bytes)

  predicate WellPrinted(p: Piece) {
    match p
    case Skip => true
    case Bare(text, name) =>
      text != [] && AMPERSAND !in text && EQUALS !in text && Encodes(text, name) && ValidUtf8(name)
    case Full(text, name, valueText, value) =>
      && AMPERSAND !in text && EQUALS !in text && AMPERSAND !in valueText
      && Encodes(text, name) && Encodes(valueText, value) && ValidPair((name, value))
  }

  function PieceText(p: Piece): Bytes {
    match p
    case Skip => []
    case Bare(text, _) => text
    case Full(text, _, valueText, _) => text + ([EQUALS] + valueText)
  }

  function PieceMeans(p: Piece): Pairs {
    match p
    case Skip => []
    case Bare(_, name) => [(name, [])]
    case Full(_, name, _, value) => [(name, value)]
  }

  function QueryText(ps: seq<Piece>): Bytes {
    if ps == [] then []
    else if |ps| == 1 then PieceText(ps[0])
    else PieceText(ps[0]) + ([AMPERSAND] + QueryText(ps[1..]))
  }

  function QueryMeans(ps: seq<Piece>): Pairs {
    if ps == [] then [] else PieceMeans(ps[0]) + QueryMeans(ps[1..])
  }

  lemma PieceParses(p: Piece)
    requires WellPrinted(p)
    ensures PairOf(PieceText(p)) == PieceMeans(p) && AMPERSAND !in PieceText(p)
  {
    match p
    case Skip =>
    case Bare(text, name) => BareParses(text, name);
    case Full(text, name, valueText, value) => FullParses(text, name, valueText, value);
  }

  /** Whatever encoding a client chooses, each piece becomes its parameter, a bare name with an empty value, an empty piece nothing. */
  lemma {:induction false} AnyQueryParses(ps: seq<Piece>)
    requires forall i | 0 <= i < |ps| :: WellPrinted(ps[i])
    ensures PairsOf(QueryText(ps)) == QueryMeans(ps)
  {
    if ps == [] {
    } else {
      PieceParses(ps[0]);
      if |ps| == 1 {
        OnlyPiece(PieceText(ps[0]));
        assert QueryMeans(ps[1..]) == [];
      } else {
        AnyQueryParses(ps[1..]);
        FirstPiece(PieceText(ps[0]), QueryText(ps[1..]));
      }
    }
  }
}
