/** UTF-8 as section 3 of RFC 3629 defines it, and the decoder that walks arbitrary bytes. */
module Utf8 {
  type Byte = b: int | 0 <= b < 0x100

  type Bytes = seq<Byte>

  /** A Unicode scalar value: surrogates are not encodable. */
  type Rune = r: int | 0 <= r < 0xD800 || 0xE000 <= r <= 0x10FFFF

  const RUNE_ERROR: Rune := 0xFFFD

  /** One decoding step: a character, or one byte that starts no valid sequence. */
  datatype Sym = Char(r: Rune) | Invalid

  datatype Decoded = Decoded(sym: Sym, size: nat)

  /** unicode.IsSpace: the white space of Unicode, not only of ASCII. */
  predicate IsSpace(r: Rune) {
    || 0x09 <= r <= 0x0D || r == 0x20 || r == 0x85 || r == 0xA0 || r == 0x1680
    || 0x2000 <= r <= 0x200A || r == 0x2028 || r == 0x2029 || r == 0x202F || r == 0x205F || r == 0x3000
  }

  predicate IsCont(b: Byte) {
    0x80 <= b <= 0xBF
  }

  function Encode(r: Rune): (bs: Bytes)
    ensures 1 <= |bs| <= 4 && !IsCont(bs[0])
    ensures r == 0x20 || bs[|bs| - 1] != 0x20
    ensures r == 0 || 0 !in bs
  {
    if r < 0x80 then [r]
    else if r < 0x800 then [0xC0 + r / 0x40, 0x80 + r % 0x40]
    else if r < 0x10000 then [0xE0 + r / 0x40 / 0x40, 0x80 + r / 0x40 % 0x40, 0x80 + r % 0x40]
    else [0xF0 + r / 0x40 / 0x40 / 0x40, 0x80 + r / 0x40 / 0x40 % 0x40, 0x80 + r / 0x40 % 0x40, 0x80 + r % 0x40]
  }

  /** The table of RFC 3629: how many bytes a character takes, and the bits each of them carries. */
  lemma EncodingTable(r: Rune)
    ensures var e: seq<int> := Encode(r);
      && |e| == (if r < 0x80 then 1 else if r < 0x800 then 2 else if r < 0x10000 then 3 else 4)
      && (forall i :: 0 < i < |e| ==> 0x80 <= e[i] < 0xC0)
      && (|e| == 1 ==> r == e[0])
      && (|e| == 2 ==> 0xC0 <= e[0] < 0xE0 && r == (e[0] - 0xC0) * 64 + (e[1] - 0x80))
      && (|e| == 3 ==> 0xE0 <= e[0] < 0xF0 && r == (e[0] - 0xE0) * 4096 + (e[1] - 0x80) * 64 + (e[2] - 0x80))
      && (|e| == 4 ==> 0xF0 <= e[0] < 0xF8
                       && r == (e[0] - 0xF0) * 262144 + (e[1] - 0x80) * 4096 + (e[2] - 0x80) * 64 + (e[3] - 0x80))
  {
  }

  /** The second byte of a three- or four-byte sequence is further restricted by the first. */
  predicate SecondOk(b0: Byte, b1: Byte) {
    && IsCont(b1)
    && (b0 == 0xE0 ==> b1 >= 0xA0)
    && (b0 == 0xED ==> b1 <= 0x9F)
    && (b0 == 0xF0 ==> b1 >= 0x90)
    && (b0 == 0xF4 ==> b1 <= 0x8F)
  }

  /** utf8.DecodeRune: the first character of `b` and the bytes it takes. */
  function DecodeRune(b: Bytes): (d: Decoded)
    requires b != []
    ensures 1 <= d.size <= |b|
  {
    if b[0] < 0x80 then
      Decoded(Char(b[0]), 1)
    else if 0xC2 <= b[0] <= 0xDF && |b| >= 2 && IsCont(b[1]) then
      Decoded(Char(Bits(b[0], 0xC0) * 0x40 + Bits(b[1], 0x80)), 2)
    else if 0xE0 <= b[0] <= 0xEF && |b| >= 3 && SecondOk(b[0], b[1]) && IsCont(b[2]) then
      Decoded(Char((Bits(b[0], 0xE0) * 0x40 + Bits(b[1], 0x80)) * 0x40 + Bits(b[2], 0x80)), 3)
    else if 0xF0 <= b[0] <= 0xF4 && |b| >= 4 && SecondOk(b[0], b[1]) && IsCont(b[2]) && IsCont(b[3]) then
      Decoded(Char(((Bits(b[0], 0xF0) * 0x40 + Bits(b[1], 0x80)) * 0x40 + Bits(b[2], 0x80)) * 0x40
                   + Bits(b[3], 0x80)), 4)
    else
      Decoded(Invalid, 1)
  }

  /** The payload bits of a byte below its marker. */
  function Bits(b: Byte, marker: int): int {
    b - marker
  }

  /** Every character's encoding decodes to it, whatever follows. */
  lemma DecodeEncoded(r: Rune, rest: Bytes)
    ensures DecodeRune(Encode(r) + rest) == Decoded(Char(r), |Encode(r)|)
    ensures (Encode(r) + rest)[|Encode(r)|..] == rest
  {
    var b := Encode(r) + rest;
    assert forall i :: 0 <= i < |Encode(r)| ==> b[i] == Encode(r)[i];
  }

  lemma Digit(high: int, low: int)
    requires 0 <= low < 0x40
    ensures (high * 0x40 + low) / 0x40 == high && (high * 0x40 + low) % 0x40 == low
  {
  }

  /** Nothing but an encoding decodes to a character: no overlong form, no surrogate. */
  lemma EncodedIfDecoded(b: Bytes)
    requires b != [] && DecodeRune(b).sym.Char?
    ensures Encode(DecodeRune(b).sym.r) == b[..DecodeRune(b).size]
  {
    var n := DecodeRune(b).size;
    if n == 2 {
      Digit(Bits(b[0], 0xC0), Bits(b[1], 0x80));
    } else if n == 3 {
      EncodedIfDecoded3(b);
    } else if n == 4 {
      EncodedIfDecoded4(b);
    }
  }

  lemma EncodedIfDecoded3(b: Bytes)
    requires b != [] && DecodeRune(b).size == 3
    ensures Encode(DecodeRune(b).sym.r) == b[..3]
  {
    var high := Bits(b[0], 0xE0) * 0x40 + Bits(b[1], 0x80);
    Digit(high, Bits(b[2], 0x80));
    Digit(Bits(b[0], 0xE0), Bits(b[1], 0x80));
  }

  lemma EncodedIfDecoded4(b: Bytes)
    requires b != [] && DecodeRune(b).size == 4
    ensures Encode(DecodeRune(b).sym.r) == b[..4]
  {
    var top := Bits(b[0], 0xF0) * 0x40 + Bits(b[1], 0x80);
    var high := top * 0x40 + Bits(b[2], 0x80);
    Digit(high, Bits(b[3], 0x80));
    Digit(top, Bits(b[2], 0x80));
    Digit(Bits(b[0], 0xF0), Bits(b[1], 0x80));
  }

  /** What a `range` over the bytes sees. */
  function Syms(b: Bytes): (ss: seq<Sym>)
    ensures |ss| <= |b|
  {
    if b == [] then [] else
    var d := DecodeRune(b);
    [d.sym] + Syms(b[d.size..])
  }

  function RuneOf(s: Sym): Rune {
    if s.Char? then s.r else RUNE_ERROR
  }

  /** []rune(b): invalid bytes become U+FFFD. */
  function Runes(b: Bytes): (rs: seq<Rune>)
    ensures |rs| == |Syms(b)|
  {
    seq(|Syms(b)|, i requires 0 <= i < |Syms(b)| => RuneOf(Syms(b)[i]))
  }

  function Chars(rs: seq<Rune>): (ss: seq<Sym>)
    ensures |ss| == |rs|
  {
    seq(|rs|, i requires 0 <= i < |rs| => Char(rs[i]))
  }

  /** string(rs). */
  function EncodeAll(rs: seq<Rune>): Bytes {
    if rs == [] then [] else Encode(rs[0]) + EncodeAll(rs[1..])
  }

  predicate Valid(b: Bytes) {
    forall s | s in Syms(b) :: s.Char?
  }

  /** Encoding loses nothing: decoding returns the characters. */
  lemma {:induction false} SymsOfEncoded(rs: seq<Rune>)
    ensures Syms(EncodeAll(rs)) == Chars(rs)
    ensures Runes(EncodeAll(rs)) == rs && Valid(EncodeAll(rs))
  {
    if rs != [] {
      DecodeEncoded(rs[0], EncodeAll(rs[1..]));
      SymsOfEncoded(rs[1..]);
      assert Chars(rs) == [Char(rs[0])] + Chars(rs[1..]);
    }
  }

  lemma FirstRune(b: Bytes)
    requires b != [] && Valid(b)
    ensures var d := DecodeRune(b);
      d.sym.Char? && Valid(b[d.size..]) && Runes(b) == [d.sym.r] + Runes(b[d.size..])
  {
    var d := DecodeRune(b);
    var rest := b[d.size..];
    assert Syms(b) == [d.sym] + Syms(rest);
    assert d.sym in Syms(b) && forall s :: s in Syms(rest) ==> s in Syms(b);
  }

  /** A character is decoded exactly where its encoding stands. */
  lemma DecodesExactly(b: Bytes, r: Rune)
    requires b != []
    ensures Encode(r) <= b <==> DecodeRune(b) == Decoded(Char(r), |Encode(r)|)
  {
    if Encode(r) <= b {
      assert b == Encode(r) + b[|Encode(r)|..];
      DecodeEncoded(r, b[|Encode(r)|..]);
    } else if DecodeRune(b) == Decoded(Char(r), |Encode(r)|) {
      EncodedIfDecoded(b);
    }
  }

  lemma RunesFrom(b: Bytes)
    requires b != []
    ensures Runes(b) == [RuneOf(DecodeRune(b).sym)] + Runes(b[DecodeRune(b).size..])
  {
    assert Syms(b) == [DecodeRune(b).sym] + Syms(b[DecodeRune(b).size..]);
  }

  lemma DecodedStands(b: Bytes)
    requires b != []
    ensures DecodeRune(b).sym.Char? ==> exists r: Rune :: Encode(r) <= b
  {
    if DecodeRune(b).sym.Char? {
      EncodedIfDecoded(b);
      assert Encode(DecodeRune(b).sym.r) <= b;
    }
  }

  /** Reading on: past a whole encoding, or past a single byte that starts none and counts as U+FFFD. */
  lemma ReadsOn(b: Bytes)
    requires b != []
    ensures if exists r: Rune :: Encode(r) <= b
            then exists r: Rune :: Encode(r) <= b && Runes(b) == [r] + Runes(b[|Encode(r)|..])
            else Runes(b) == [0xFFFD] + Runes(b[1..])
  {
    RunesFrom(b);
    DecodedStands(b);
    if r: Rune :| Encode(r) <= b {
      DecodesExactly(b, r);
    }
  }

  lemma EncodeCons(r: Rune, rs: seq<Rune>)
    ensures EncodeAll([r] + rs) == Encode(r) + EncodeAll(rs)
  {
    assert ([r] + rs)[1..] == rs;
  }

  lemma {:induction false} EncodedIfValid(b: Bytes)
    requires Valid(b)
    ensures EncodeAll(Runes(b)) == b
  {
    if b != [] {
      var d := DecodeRune(b);
      FirstRune(b);
      EncodedIfValid(b[d.size..]);
      EncodedFromFirst(b, d.sym.r, d.size, Runes(b[d.size..]));
    }
  }

  lemma EncodedFromFirst(b: Bytes, r: Rune, n: nat, rs: seq<Rune>)
    requires b != [] && DecodeRune(b) == Decoded(Char(r), n) && EncodeAll(rs) == b[n..]
    ensures EncodeAll([r] + rs) == b
  {
    EncodedIfDecoded(b);
    EncodeCons(r, rs);
    assert b == b[..n] + b[n..];
  }

  /** Valid bytes are exactly the encodings of character sequences. */
  lemma ValidIffEncoded(b: Bytes)
    ensures Valid(b) <==> EncodeAll(Runes(b)) == b
  {
    if Valid(b) {
      EncodedIfValid(b);
    } else if EncodeAll(Runes(b)) == b {
      SymsOfEncoded(Runes(b));
    }
  }

  lemma AppendAssociative(a: Bytes, b: Bytes, c: Bytes)
    ensures (a + b) + c == a + (b + c)
  {
  }

  lemma {:induction false} EncodeAllConcat(xs: seq<Rune>, ys: seq<Rune>)
    ensures EncodeAll(xs + ys) == EncodeAll(xs) + EncodeAll(ys)
  {
    if xs == [] {
      assert xs + ys == ys;
    } else {
      EncodeAllConcat(xs[1..], ys);
      assert (xs + ys)[1..] == xs[1..] + ys;
      AppendAssociative(Encode(xs[0]), EncodeAll(xs[1..]), EncodeAll(ys));
    }
  }

  lemma SameFirst(a: Bytes, b: Bytes)
    requires a != [] && (b == [] || !IsCont(b[0]))
    ensures DecodeRune(a + b) == DecodeRune(a)
  {
    if b == [] {
      assert a + b == a;
    } else {
      assert (a + b)[|a|] == b[0];
      assert forall i :: 0 <= i < |a| ==> (a + b)[i] == a[i];
    }
  }

  /** UTF-8 resynchronises: text that starts a character is decoded alike after anything. */
  lemma {:induction false} SymsConcat(a: Bytes, b: Bytes)
    requires b == [] || !IsCont(b[0])
    ensures Syms(a + b) == Syms(a) + Syms(b)
  {
    if a == [] {
      assert a + b == b;
    } else {
      SameFirst(a, b);
      var n := DecodeRune(a).size;
      assert (a + b)[n..] == a[n..] + b;
      SymsConcat(a[n..], b);
    }
  }

  /** Reading a text goes through a whole character in its middle undisturbed. */
  lemma SymsAround(a: Bytes, r: Rune, b: Bytes)
    ensures Syms(a + Encode(r) + b) == Syms(a) + [Char(r)] + Syms(b)
  {
    var tail := Encode(r) + b;
    assert a + Encode(r) + b == a + tail;
    SymsConcat(a, tail);
    assert Syms(tail) == [Char(r)] + Syms(b) by { DecodeEncoded(r, b); }
  }
}
