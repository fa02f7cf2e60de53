/**
 * Base 64 encoding with padding, section 4 of RFC 4648, as `base64.b64encode`
 * applies it to the raw bytes of an audio chunk. The encoding is described in
 * two layers: the bytes become a sequence of symbols (a 6-bit digit or the pad),
 * and each symbol is spelled as one character of Table 1 or `=`. The strict
 * decoder is the encoder's partner: it accepts exactly the strings the encoder
 * produces.
 */
module Base64 {
  import opened Wrappers

  type Byte = b: int | 0 <= b < 256

  /** A 6-bit value. */
  type Sextet = x: int | 0 <= x < 64

  /** One output position: a digit of the alphabet or the pad character. */
  datatype Symbol = Digit(x: Sextet) | Pad

  // ---------------------------------------------------------------------------
  // Arithmetic of one 24-bit group
  // ---------------------------------------------------------------------------

  /** Division by 64 with a remainder in range is unique. */
  lemma DivMod64(v: nat, q: nat, r: nat)
    requires r < 64 && v == q * 64 + r
    ensures v / 64 == q && v % 64 == r
  {
  }

  /** Division by 256 with a remainder in range is unique. */
  lemma DivMod256(v: nat, q: nat, r: nat)
    requires r < 256 && v == q * 256 + r
    ensures v / 256 == q && v % 256 == r
  {
  }

  /** Division by 4096 with a remainder in range is unique. */
  lemma DivMod4096(v: nat, q: nat, r: nat)
    requires r < 4096 && v == q * 4096 + r
    ensures v / 4096 == q
  {
  }

  /** Division by 65536 with a remainder in range is unique. */
  lemma DivMod65536(v: nat, q: nat, r: nat)
    requires r < 65536 && v == q * 65536 + r
    ensures v / 65536 == q && v % 65536 == r
  {
  }

  /** Division by 262144 with a remainder in range is unique. */
  lemma DivMod262144(v: nat, q: nat, r: nat)
    requires r < 262144 && v == q * 262144 + r
    ensures v / 262144 == q
  {
  }

  /** Splitting a 24-bit value into four sextets and joining them again is the identity. */
  lemma SextetsJoin(v: nat)
    requires v < 16777216
    ensures v / 262144 < 64
    ensures (v / 262144) * 262144 + (v / 4096 % 64) * 4096 + (v / 64 % 64) * 64 + v % 64 == v
  {
    var a, b := v / 64, v / 4096;
    DivMod64(v, a, v % 64);
    DivMod64(a, a / 64, a % 64);
    DivMod4096(v, a / 64, a % 64 * 64 + v % 64);
    DivMod64(b, b / 64, b % 64);
    DivMod262144(v, b / 64, b % 64 * 4096 + a % 64 * 64 + v % 64);
  }

  /** Joining four sextets and splitting the value again gives the same sextets. */
  lemma SextetsSplit(x0: Sextet, x1: Sextet, x2: Sextet, x3: Sextet)
    ensures var v := x0 * 262144 + x1 * 4096 + x2 * 64 + x3;
      v / 262144 == x0 && v / 4096 % 64 == x1 && v / 64 % 64 == x2 && v % 64 == x3
  {
    var v := x0 * 262144 + x1 * 4096 + x2 * 64 + x3;
    DivMod262144(v, x0, x1 * 4096 + x2 * 64 + x3);
    DivMod4096(v, x0 * 64 + x1, x2 * 64 + x3);
    DivMod64(x0 * 64 + x1, x0, x1);
    DivMod64(v, x0 * 4096 + x1 * 64 + x2, x3);
    DivMod64(x0 * 4096 + x1 * 64 + x2, x0 * 64 + x1, x2);
  }

  /** Splitting a 24-bit value into three bytes and joining them again is the identity. */
  lemma BytesJoin(v: nat)
    requires v < 16777216
    ensures v / 65536 < 256
    ensures (v / 65536) * 65536 + (v / 256 % 256) * 256 + v % 256 == v
  {
    var a := v / 256;
    DivMod256(v, a, v % 256);
    DivMod256(a, a / 256, a % 256);
    DivMod65536(v, a / 256, a % 256 * 256 + v % 256);
  }

  /** Joining three bytes and splitting the value again gives the same bytes. */
  lemma BytesSplit(b0: Byte, b1: Byte, b2: Byte)
    ensures var v := b0 * 65536 + b1 * 256 + b2;
      v / 65536 == b0 && v / 256 % 256 == b1 && v % 256 == b2
  {
    var v := b0 * 65536 + b1 * 256 + b2;
    DivMod65536(v, b0, b1 * 256 + b2);
    DivMod256(v, b0 * 256 + b1, b2);
    DivMod256(b0 * 256 + b1, b0, b1);
  }

  /** The 24-bit value of four sextets, most significant first. */
  function GroupValue(x0: Sextet, x1: Sextet, x2: Sextet, x3: Sextet): (v: nat)
    ensures v < 16777216
  {
    x0 * 262144 + x1 * 4096 + x2 * 64 + x3
  }

  /** The three bytes of a 24-bit value, most significant first. */
  function GroupBytes(v: nat): (r: seq<Byte>)
    requires v < 16777216
    ensures |r| == 3
  {
    BytesJoin(v);
    [v / 65536, v / 256 % 256, v % 256]
  }

  /** The four digits of a 24-bit value, most significant sextet first. */
  function ValueSymbols(v: nat): (q: seq<Symbol>)
    requires v < 16777216
    ensures |q| == 4 && q[0].Digit? && q[1].Digit? && q[2].Digit? && q[3].Digit?
  {
    SextetsJoin(v);
    [Digit(v / 262144), Digit(v / 4096 % 64), Digit(v / 64 % 64), Digit(v % 64)]
  }

  /** The four digits of one 24-bit group b0 b1 b2. */
  function GroupSymbols(b0: Byte, b1: Byte, b2: Byte): (q: seq<Symbol>)
    ensures |q| == 4 && q[0].Digit? && q[1].Digit? && q[2].Digit? && q[3].Digit?
  {
    ValueSymbols(b0 * 65536 + b1 * 256 + b2)
  }

  /** The digits of a group denote the group's 24-bit value. */
  lemma GroupSymbolsValue(b0: Byte, b1: Byte, b2: Byte)
    ensures var q := GroupSymbols(b0, b1, b2);
      GroupValue(q[0].x, q[1].x, q[2].x, q[3].x) == b0 * 65536 + b1 * 256 + b2
  {
    SextetsJoin(b0 * 65536 + b1 * 256 + b2);
  }

  /** The digits of the value of four digits are those digits. */
  lemma ValueSymbolsOf(x0: Sextet, x1: Sextet, x2: Sextet, x3: Sextet)
    ensures ValueSymbols(GroupValue(x0, x1, x2, x3)) == [Digit(x0), Digit(x1), Digit(x2), Digit(x3)]
  {
    SextetsSplit(x0, x1, x2, x3);
  }

  /** The digits of a group are the digits of its value. */
  lemma GroupSymbolsOfValue(b0: Byte, b1: Byte, b2: Byte, v: nat)
    requires v < 16777216 && b0 * 65536 + b1 * 256 + b2 == v
    ensures GroupSymbols(b0, b1, b2) == ValueSymbols(v)
  {
  }

  /** The group of the bytes that four digits denote is those four digits. */
  lemma GroupOfValue(x0: Sextet, x1: Sextet, x2: Sextet, x3: Sextet)
    ensures var r := GroupBytes(GroupValue(x0, x1, x2, x3));
      GroupSymbols(r[0], r[1], r[2]) == [Digit(x0), Digit(x1), Digit(x2), Digit(x3)]
  {
    var v := GroupValue(x0, x1, x2, x3);
    var r := GroupBytes(v);
    BytesJoin(v);
    GroupSymbolsOfValue(r[0], r[1], r[2], v);
    ValueSymbolsOf(x0, x1, x2, x3);
  }

  // ---------------------------------------------------------------------------
  // Symbols
  // ---------------------------------------------------------------------------

  /** Section 4 of RFC 4648 on symbols: full groups, then a padded last group of one or two bytes. */
  function Symbols(data: seq<Byte>): (t: seq<Symbol>)
    ensures |t| == 4 * ((|data| + 2) / 3)
    decreases |data|
  {
    if |data| == 0 then []
    else if |data| == 1 then GroupSymbols(data[0], 0, 0)[..2] + [Pad, Pad]
    else if |data| == 2 then GroupSymbols(data[0], data[1], 0)[..3] + [Pad]
    else
      var q := GroupSymbols(data[0], data[1], data[2]);
      var rest := Symbols(data[3..]);
      assert (|data| + 2) / 3 == (|data[3..]| + 2) / 3 + 1;
      q + rest
  }

  /**
   * Strict decoding of symbols: a sequence of groups, pads only at the end of
   * the last one, and the bits that padding discards are zero (section 3.5 of
   * RFC 4648).
   */
  function DecodeSymbols(t: seq<Symbol>): (r: Option<seq<Byte>>)
    ensures r.Some? ==> 4 * ((|r.value| + 2) / 3) == |t|
    decreases |t|
  {
    if |t| == 0 then Some([])
    else if |t| < 4 || t[0].Pad? || t[1].Pad? then None
    else if |t| == 4 && t[2].Pad? && t[3].Pad? then
      var v := GroupValue(t[0].x, t[1].x, 0, 0);
      if v % 65536 == 0 then Some(GroupBytes(v)[..1]) else None
    else if t[2].Pad? then None
    else if |t| == 4 && t[3].Pad? then
      var v := GroupValue(t[0].x, t[1].x, t[2].x, 0);
      if v % 256 == 0 then Some(GroupBytes(v)[..2]) else None
    else if t[3].Pad? then None
    else
      var v := GroupValue(t[0].x, t[1].x, t[2].x, t[3].x);
      match DecodeSymbols(t[4..])
      case None => None
      case Some(rest) =>
        assert (|rest| + 5) / 3 == (|rest| + 2) / 3 + 1;
        Some(GroupBytes(v) + rest)
  }

  /** With one byte in the last group, the low 16 bits and the third and fourth sextets are zero. */
  lemma OneBytePadding(b0: Byte)
    ensures var q := GroupSymbols(b0, 0, 0); q[2] == Digit(0) && q[3] == Digit(0)
    ensures (b0 * 65536) % 65536 == 0
  {
    var v := b0 * 65536;
    DivMod64(v, b0 * 1024, 0);
    DivMod64(b0 * 1024, b0 * 16, 0);
    DivMod65536(v, b0, 0);
  }

  /** With two bytes in the last group, the low 8 bits and the fourth sextet are zero. */
  lemma TwoBytePadding(b0: Byte, b1: Byte)
    ensures GroupSymbols(b0, b1, 0)[3] == Digit(0)
    ensures (b0 * 65536 + b1 * 256) % 256 == 0
  {
    var v := b0 * 65536 + b1 * 256;
    DivMod64(v, b0 * 1024 + b1 * 4, 0);
    DivMod256(v, b0 * 256 + b1, 0);
  }

  lemma DecodeOneByte(b0: Byte)
    ensures DecodeSymbols(Symbols([b0])) == Some([b0])
  {
    var q := GroupSymbols(b0, 0, 0);
    var t := Symbols([b0]);
    assert t == [q[0], q[1], Pad, Pad];
    OneBytePadding(b0);
    GroupSymbolsValue(b0, 0, 0);
    var v := GroupValue(q[0].x, q[1].x, 0, 0);
    assert v == b0 * 65536;
    BytesSplit(b0, 0, 0);
    assert GroupBytes(v)[..1] == [b0];
  }

  lemma DecodeTwoBytes(b0: Byte, b1: Byte)
    ensures DecodeSymbols(Symbols([b0, b1])) == Some([b0, b1])
  {
    var q := GroupSymbols(b0, b1, 0);
    var t := Symbols([b0, b1]);
    assert t == [q[0], q[1], q[2], Pad];
    TwoBytePadding(b0, b1);
    GroupSymbolsValue(b0, b1, 0);
    var v := GroupValue(q[0].x, q[1].x, q[2].x, 0);
    assert v == b0 * 65536 + b1 * 256;
    BytesSplit(b0, b1, 0);
    assert GroupBytes(v)[..2] == [b0, b1];
  }

  lemma DecodeFullGroup(b0: Byte, b1: Byte, b2: Byte, rest: seq<Symbol>)
    ensures DecodeSymbols(GroupSymbols(b0, b1, b2) + rest) == match DecodeSymbols(rest)
      case None => None
      case Some(bytes) => Some([b0, b1, b2] + bytes)
  {
    var q := GroupSymbols(b0, b1, b2);
    var t := q + rest;
    assert t[..4] == q && t[4..] == rest;
    GroupSymbolsValue(b0, b1, b2);
    BytesSplit(b0, b1, b2);
    assert GroupBytes(GroupValue(q[0].x, q[1].x, q[2].x, q[3].x)) == [b0, b1, b2];
  }

  /** Decoding the symbols of some bytes gives back the bytes. */
  lemma {:induction false} DecodeSymbolsOf(data: seq<Byte>)
    ensures DecodeSymbols(Symbols(data)) == Some(data)
    decreases |data|
  {
    if |data| == 1 {
      assert data == [data[0]];
      DecodeOneByte(data[0]);
    } else if |data| == 2 {
      assert data == [data[0], data[1]];
      DecodeTwoBytes(data[0], data[1]);
    } else if |data| >= 3 {
      DecodeSymbolsOf(data[3..]);
      DecodeFullGroup(data[0], data[1], data[2], Symbols(data[3..]));
      assert data == [data[0], data[1], data[2]] + data[3..];
    }
  }

  /** A value whose low 16 bits are zero has a zero second and third byte. */
  lemma LowBytesZero(v: nat)
    requires v < 16777216 && v % 65536 == 0
    ensures v / 256 % 256 == 0 && v % 256 == 0
  {
    var k := v / 65536;
    DivMod256(v, 256 * k, 0);
    DivMod256(256 * k, k, 0);
  }

  lemma SymbolsOfOneByte(x0: Sextet, x1: Sextet)
    requires GroupValue(x0, x1, 0, 0) % 65536 == 0
    ensures Symbols(GroupBytes(GroupValue(x0, x1, 0, 0))[..1]) == [Digit(x0), Digit(x1), Pad, Pad]
  {
    var v := GroupValue(x0, x1, 0, 0);
    var r := GroupBytes(v);
    GroupOfValue(x0, x1, 0, 0);
    LowBytesZero(v);
    assert r[1] == 0 && r[2] == 0;
    assert r[..1] == [r[0]];
    assert GroupSymbols(r[0], 0, 0)[..2] == [Digit(x0), Digit(x1)];
  }

  lemma SymbolsOfTwoBytes(x0: Sextet, x1: Sextet, x2: Sextet)
    requires GroupValue(x0, x1, x2, 0) % 256 == 0
    ensures Symbols(GroupBytes(GroupValue(x0, x1, x2, 0))[..2]) == [Digit(x0), Digit(x1), Digit(x2), Pad]
  {
    var v := GroupValue(x0, x1, x2, 0);
    var r := GroupBytes(v);
    GroupOfValue(x0, x1, x2, 0);
    assert r[2] == 0;
    assert r[..2] == [r[0], r[1]];
    assert GroupSymbols(r[0], r[1], 0)[..3] == [Digit(x0), Digit(x1), Digit(x2)];
  }

  lemma SymbolsOfFullGroup(x0: Sextet, x1: Sextet, x2: Sextet, x3: Sextet, rest: seq<Byte>)
    ensures Symbols(GroupBytes(GroupValue(x0, x1, x2, x3)) + rest) == [Digit(x0), Digit(x1), Digit(x2), Digit(x3)] + Symbols(rest)
  {
    var r := GroupBytes(GroupValue(x0, x1, x2, x3));
    GroupOfValue(x0, x1, x2, x3);
    var data := r + rest;
    assert data[0] == r[0] && data[1] == r[1] && data[2] == r[2];
    assert data[3..] == rest;
  }

  /** How `DecodeSymbols` reads a sequence that starts with four digits. */
  lemma DecodeGroupStep(x0: Sextet, x1: Sextet, x2: Sextet, x3: Sextet, rest: seq<Symbol>)
    ensures DecodeSymbols([Digit(x0), Digit(x1), Digit(x2), Digit(x3)] + rest) == match DecodeSymbols(rest)
      case None => None
      case Some(bytes) => Some(GroupBytes(GroupValue(x0, x1, x2, x3)) + bytes)
  {
    var t := [Digit(x0), Digit(x1), Digit(x2), Digit(x3)] + rest;
    assert t[4..] == rest;
  }

  lemma SymbolsOfDecodedGroup(x0: Sextet, x1: Sextet, x2: Sextet, x3: Sextet, rest: seq<Symbol>)
    requires DecodeSymbols(rest).Some? && Symbols(DecodeSymbols(rest).value) == rest
    ensures var t := [Digit(x0), Digit(x1), Digit(x2), Digit(x3)] + rest;
      DecodeSymbols(t).Some? && Symbols(DecodeSymbols(t).value) == t
  {
    DecodeGroupStep(x0, x1, x2, x3, rest);
    SymbolsOfFullGroup(x0, x1, x2, x3, DecodeSymbols(rest).value);
  }

  /** Symbols that decode are the symbols of what they decode to: the decoder accepts nothing else. */
  lemma {:induction false} SymbolsOfDecode(t: seq<Symbol>)
    requires DecodeSymbols(t).Some?
    ensures Symbols(DecodeSymbols(t).value) == t
    decreases |t|
  {
    if |t| == 4 && t[2].Pad? && t[3].Pad? {
      assert DecodeSymbols(t) == Some(GroupBytes(GroupValue(t[0].x, t[1].x, 0, 0))[..1]);
      SymbolsOfOneByte(t[0].x, t[1].x);
      assert t == [Digit(t[0].x), Digit(t[1].x), Pad, Pad];
    } else if |t| == 4 && t[3].Pad? {
      assert DecodeSymbols(t) == Some(GroupBytes(GroupValue(t[0].x, t[1].x, t[2].x, 0))[..2]);
      SymbolsOfTwoBytes(t[0].x, t[1].x, t[2].x);
      assert t == [Digit(t[0].x), Digit(t[1].x), Digit(t[2].x), Pad];
    } else if |t| >= 4 {
      assert t[0].Digit? && t[1].Digit? && t[2].Digit? && t[3].Digit?;
      assert DecodeSymbols(t[4..]).Some?;
      SymbolsOfDecode(t[4..]);
      assert t[..4] == [Digit(t[0].x), Digit(t[1].x), Digit(t[2].x), Digit(t[3].x)];
      assert t == t[..4] + t[4..];
      SymbolsOfDecodedGroup(t[0].x, t[1].x, t[2].x, t[3].x, t[4..]);
    }
  }

  // ---------------------------------------------------------------------------
  // Characters
  // ---------------------------------------------------------------------------

  /** Table 1 of RFC 4648: the character for a 6-bit value. */
  function SextetChar(x: Sextet): char {
    if x < 26 then ('A' as int + x) as char
    else if x < 52 then ('a' as int + x - 26) as char
    else if x < 62 then ('0' as int + x - 52) as char
    else if x == 62 then '+'
    else '/'
  }

  predicate IsBase64Char(c: char) {
    'A' <= c <= 'Z' || 'a' <= c <= 'z' || '0' <= c <= '9' || c == '+' || c == '/'
  }

  /** The inverse of Table 1. */
  function CharSextet(c: char): Sextet
    requires IsBase64Char(c)
  {
    if 'A' <= c <= 'Z' then c as int - 'A' as int
    else if 'a' <= c <= 'z' then c as int - 'a' as int + 26
    else if '0' <= c <= '9' then c as int - '0' as int + 52
    else if c == '+' then 62
    else 63
  }

  /** The character of a symbol. */
  function SymbolChar(y: Symbol): char {
    match y
    case Digit(x) => SextetChar(x)
    case Pad => '='
  }

  /** The symbol a character denotes, if it is in the alphabet or is the pad. */
  function CharSymbol(c: char): Option<Symbol> {
    if IsBase64Char(c) then Some(Digit(CharSextet(c)))
    else if c == '=' then Some(Pad)
    else None
  }

  /** The characters of a sequence of symbols. */
  function Spell(t: seq<Symbol>): (s: string)
    ensures |s| == |t|
  {
    seq(|t|, i requires 0 <= i < |t| => SymbolChar(t[i]))
  }

  /** The symbols of a string, if every character is in the alphabet or is the pad. */
  function ReadSymbols(s: string): (r: Option<seq<Symbol>>)
    ensures r.Some? ==> |r.value| == |s|
  {
    if forall i | 0 <= i < |s| :: CharSymbol(s[i]).Some? then
      Some(seq(|s|, i requires 0 <= i < |s| && CharSymbol(s[i]).Some? => CharSymbol(s[i]).value))
    else None
  }

  /** `base64.b64encode(data).decode("utf-8")`. */
  function Encode(data: seq<Byte>): (s: string)
    ensures |s| == 4 * ((|data| + 2) / 3)
  {
    Spell(Symbols(data))
  }

  /** The strict decoder: every character is a symbol and the symbols decode. */
  function Decode(s: string): Option<seq<Byte>> {
    match ReadSymbols(s)
    case None => None
    case Some(t) => DecodeSymbols(t)
  }

  /** Table 1 read backwards: the character of a 6-bit value is in the alphabet and denotes that value. */
  lemma SextetCharInverse(x: Sextet)
    ensures IsBase64Char(SextetChar(x)) && CharSextet(SextetChar(x)) == x
  {
  }

  /** Every alphabet character is the character of the value it denotes. */
  lemma CharSextetInverse(c: char)
    requires IsBase64Char(c)
    ensures SextetChar(CharSextet(c)) == c
  {
  }

  /** Reading back the characters of symbols gives the symbols. */
  lemma ReadSpell(t: seq<Symbol>)
    ensures ReadSymbols(Spell(t)) == Some(t)
  {
    var s := Spell(t);
    forall i | 0 <= i < |s|
      ensures CharSymbol(s[i]) == Some(t[i])
    {
      if t[i].Digit? {
        SextetCharInverse(t[i].x);
      }
    }
    assert forall i | 0 <= i < |s| :: CharSymbol(s[i]).Some?;
    assert ReadSymbols(s).Some?;
    var r := ReadSymbols(s).value;
    assert forall i | 0 <= i < |r| :: r[i] == t[i];
    assert r == t;
  }

  /** Symbols read from a string spell that string. */
  lemma SpellRead(s: string)
    requires ReadSymbols(s).Some?
    ensures Spell(ReadSymbols(s).value) == s
  {
    var t := ReadSymbols(s).value;
    forall i | 0 <= i < |s|
      ensures SymbolChar(t[i]) == s[i]
    {
      assert CharSymbol(s[i]).Some?;
      if IsBase64Char(s[i]) {
        CharSextetInverse(s[i]);
      }
    }
  }

  /** Every character of an encoding is from the alphabet or is the pad `=`. */
  lemma EncodeAlphabet(data: seq<Byte>)
    ensures forall i | 0 <= i < |Encode(data)| :: IsBase64Char(Encode(data)[i]) || Encode(data)[i] == '='
  {
    var t := Symbols(data);
    forall i | 0 <= i < |t|
      ensures IsBase64Char(Spell(t)[i]) || Spell(t)[i] == '='
    {
      if t[i].Digit? {
        SextetCharInverse(t[i].x);
      }
    }
  }

  /** Decoding an encoding gives back the bytes. */
  lemma DecodeEncode(data: seq<Byte>)
    ensures Decode(Encode(data)) == Some(data)
  {
    ReadSpell(Symbols(data));
    DecodeSymbolsOf(data);
  }

  /** A string that decodes is the encoding of what it decodes to. */
  lemma EncodeDecode(s: string)
    requires Decode(s).Some?
    ensures Encode(Decode(s).value) == s
  {
    var t := ReadSymbols(s).value;
    SymbolsOfDecode(t);
    SpellRead(s);
  }

  /** Different byte strings have different encodings. */
  lemma EncodeInjective(a: seq<Byte>, b: seq<Byte>)
    requires Encode(a) == Encode(b)
    ensures a == b
  {
    DecodeEncode(a);
    DecodeEncode(b);
  }

}
