/** SanitizeBM25Query: one pass over arbitrary bytes, and the normal form it computes. */
module Sanitize {
  import opened Utf8

  const MAX_QUERY_RUNES := 4096

  const SP: Rune := 0x20

  /** unicode.IsControl. */
  predicate IsControl(r: Rune) {
    r <= 0x1F || 0x7F <= r <= 0x9F
  }

  predicate IsZeroWidth(r: Rune) {
    || r in {0xFEFF, 0x200B, 0x200C, 0x200D, 0x00AD, 0x2060, 0x180E}
    || 0x200E <= r <= 0x200F || 0x202A <= r <= 0x202E || 0x2066 <= r <= 0x2069
  }

  // ---------- the declarative form ----------

  datatype Kind = Drop | Separate | Keep

  predicate IsDropped(r: Rune) {
    r == 0 || (IsControl(r) && !IsSpace(r)) || IsZeroWidth(r)
  }

  function KindOf(s: Sym): Kind {
    match s
    case Invalid => Separate
    case Char(r) => if IsDropped(r) then Drop else if IsSpace(r) then Separate else Keep
  }

  /** The runs of kept characters between separators, empty runs included. */
  function Fields(ss: seq<Sym>): (ws: seq<seq<Rune>>)
    ensures ws != []
  {
    if ss == [] then [[]] else
    var ws := Fields(ss[1..]);
    match KindOf(ss[0])
    case Drop => ws
    case Separate => [[]] + ws
    case Keep => [[ss[0].r] + ws[0]] + ws[1..]
  }

  function NonEmpty(ws: seq<seq<Rune>>): seq<seq<Rune>> {
    if ws == [] then [] else (if ws[0] == [] then [] else [ws[0]]) + NonEmpty(ws[1..])
  }

  function Join(ws: seq<seq<Rune>>): seq<Rune> {
    if ws == [] then [] else if |ws| == 1 then ws[0] else ws[0] + [SP] + Join(ws[1..])
  }

  /** Non-empty words joined by single spaces, before any cut. */
  function Normal(q: Bytes): seq<Rune> {
    Join(NonEmpty(Fields(Syms(q))))
  }

  /** The cut keeps 4096 runes, or 4097 when it would otherwise end in a space. */
  function Cut(f: seq<Rune>): seq<Rune> {
    if |f| <= MAX_QUERY_RUNES then f
    else if f[MAX_QUERY_RUNES - 1] != SP then f[..MAX_QUERY_RUNES]
    else f[..MAX_QUERY_RUNES + 1]
  }

  // ---------- what remains to be emitted from a point of the scan ----------

  /** After a space or at the start: the normal form of the rest. */
  function Fresh(ss: seq<Sym>): seq<Rune> {
    Join(NonEmpty(Fields(ss)))
  }

  /** Inside a word: the rest of the word, then the other words, each after a space. */
  function Inside(ss: seq<Sym>): seq<Rune> {
    var ws := Fields(ss);
    var more := NonEmpty(ws[1..]);
    ws[0] + (if more == [] then [] else [SP] + Join(more))
  }

  lemma JoinEmpty(ws: seq<seq<Rune>>)
    ensures Join(NonEmpty(ws)) == [] <==> NonEmpty(ws) == []
  {
    if ws != [] && ws[0] == [] {
      JoinEmpty(ws[1..]);
      assert NonEmpty(ws) == NonEmpty(ws[1..]);
    }
  }

  lemma FreshIsInside(ss: seq<Sym>)
    requires Fields(ss)[0] != []
    ensures Fresh(ss) == Inside(ss)
  {
    var ws := Fields(ss);
    var more := NonEmpty(ws[1..]);
    assert NonEmpty(ws) == [ws[0]] + more;
    if more != [] {
      assert ([ws[0]] + more)[1..] == more;
    }
  }

  lemma StepDrop(ss: seq<Sym>)
    requires ss != [] && KindOf(ss[0]) == Drop
    ensures Fresh(ss) == Fresh(ss[1..]) && Inside(ss) == Inside(ss[1..])
  {
  }

  lemma StepSeparate(ss: seq<Sym>)
    requires ss != [] && KindOf(ss[0]) == Separate
    ensures Fresh(ss) == Fresh(ss[1..])
    ensures Inside(ss) == if Fresh(ss[1..]) == [] then [] else [SP] + Fresh(ss[1..])
  {
    var ws := Fields(ss[1..]);
    assert Fields(ss)[1..] == ws;
    assert NonEmpty(Fields(ss)) == NonEmpty(ws);
    JoinEmpty(ws);
  }

  lemma StepKeep(ss: seq<Sym>)
    requires ss != [] && KindOf(ss[0]) == Keep
    ensures Fresh(ss) == Inside(ss) == [ss[0].r] + Inside(ss[1..])
  {
    var ws := Fields(ss[1..]);
    assert Fields(ss)[1..] == ws[1..];
    FreshIsInside(ss);
  }

  // ---------- the one-pass form ----------

  /** strings.TrimRight(b, " "). */
  function TrimRight(b: Bytes): Bytes {
    if b != [] && b[|b| - 1] == SP then TrimRight(b[..|b| - 1]) else b
  }

  /**
   Where the scan stands: `text` has been written, `rest` is still to be read, and
   `f` is the normal form of the whole query. A trailing space is provisional.
   */
  ghost predicate Scanning(text: seq<Rune>, prevSpace: bool, rest: seq<Sym>, f: seq<Rune>) {
    var n := |text|;
    if !prevSpace then
      text != [] && text[n - 1] != SP && f == text + Inside(rest)
    else if text == [] then
      f == Fresh(rest)
    else
      && n > 1 && text[n - 1] == SP && text[n - 2] != SP
      && f == if Fresh(rest) == [] then text[..n - 1] else text + Fresh(rest)
  }

  lemma SpaceAfterWord(text: seq<Rune>, rest: seq<Rune>)
    ensures (text + [SP])[..|text|] == text
    ensures text + (if rest == [] then [] else [SP] + rest) == if rest == [] then text else text + [SP] + rest
  {
  }

  lemma ScanSpace(text: seq<Rune>, prevSpace: bool, ss: seq<Sym>, f: seq<Rune>)
    requires ss != [] && KindOf(ss[0]) == Separate && Scanning(text, prevSpace, ss, f)
    ensures Scanning(if prevSpace then text else text + [SP], true, ss[1..], f)
  {
    StepSeparate(ss);
    if !prevSpace {
      SpaceAfterWord(text, Fresh(ss[1..]));
    }
  }

  lemma ScanDrop(text: seq<Rune>, prevSpace: bool, ss: seq<Sym>, f: seq<Rune>)
    requires ss != [] && KindOf(ss[0]) == Drop && Scanning(text, prevSpace, ss, f)
    ensures Scanning(text, prevSpace, ss[1..], f)
  {
    StepDrop(ss);
  }

  lemma ScanKeep(text: seq<Rune>, prevSpace: bool, ss: seq<Sym>, f: seq<Rune>)
    requires ss != [] && KindOf(ss[0]) == Keep && Scanning(text, prevSpace, ss, f)
    ensures Scanning(text + [ss[0].r], false, ss[1..], f)
  {
    StepKeep(ss);
    assert text + ([ss[0].r] + Inside(ss[1..])) == text + [ss[0].r] + Inside(ss[1..]);
  }

  lemma LastByte(text: seq<Rune>, r: Rune)
    ensures EncodeAll(text + [r]) == EncodeAll(text) + Encode(r)
  {
    EncodeAllConcat(text, [r]);
    assert EncodeAll([r]) == Encode(r) + EncodeAll([r][1..]);
  }

  lemma {:induction false} EncodedEnd(text: seq<Rune>)
    requires text != [] && text[|text| - 1] != SP
    ensures EncodeAll(text) != [] && EncodeAll(text)[|EncodeAll(text)| - 1] != SP
  {
    if |text| > 1 {
      EncodedEnd(text[1..]);
    } else {
      assert text[1..] == [];
    }
  }

  lemma NothingToTrim(text: seq<Rune>)
    requires text == [] || text[|text| - 1] != SP
    ensures TrimRight(EncodeAll(text)) == EncodeAll(text)
  {
    if text != [] {
      EncodedEnd(text);
    }
  }

  lemma OneToTrim(text: seq<Rune>)
    requires text != [] && text[|text| - 1] != SP
    ensures TrimRight(EncodeAll(text + [SP])) == EncodeAll(text)
  {
    LastByte(text, SP);
    NothingToTrim(text);
    var bs := EncodeAll(text + [SP]);
    assert bs[|bs| - 1] == SP && bs[..|bs| - 1] == EncodeAll(text);
  }

  lemma NothingLeft()
    ensures Inside([]) == [] && Fresh([]) == []
  {
    assert Fields([]) == [[]] && NonEmpty([[]]) == [];
  }

  /** The scan read everything: what was written, less a trailing space, is the whole normal form. */
  lemma ScanEnds(text: seq<Rune>, prevSpace: bool, f: seq<Rune>)
    requires Scanning(text, prevSpace, [], f) && |text| <= MAX_QUERY_RUNES
    ensures TrimRight(EncodeAll(text)) == EncodeAll(Cut(f))
  {
    NothingLeft();
    assert text + [] == text;
    assert f == if prevSpace && text != [] then text[..|text| - 1] else text;
    if prevSpace && text != [] {
      assert text == f + [SP];
      OneToTrim(f);
    } else {
      NothingToTrim(text);
    }
  }

  /** The scan stopped at the cap, just after a kept character. */
  lemma ScanStops(text: seq<Rune>, rest: seq<Sym>, f: seq<Rune>)
    requires Scanning(text, false, rest, f) && MAX_QUERY_RUNES <= |text| <= MAX_QUERY_RUNES + 1
    requires |text| == MAX_QUERY_RUNES + 1 ==> text[MAX_QUERY_RUNES - 1] == SP
    ensures TrimRight(EncodeAll(text)) == EncodeAll(Cut(f))
  {
    NothingToTrim(text);
    assert f[..|text|] == text;
    assert |f| == |text| ==> f == text;
  }

  /** Writes a separating space unless one is already pending. */
  method WriteSpace(b: Bytes, runes: nat, prevSpace: bool, ghost text: seq<Rune>, ghost ss: seq<Sym>,
                    ghost f: seq<Rune>)
      returns (b': Bytes, runes': nat, ghost text': seq<Rune>)
    requires ss != [] && KindOf(ss[0]) == Separate && Scanning(text, prevSpace, ss, f)
    requires b == EncodeAll(text) && runes == |text|
    ensures Scanning(text', true, ss[1..], f) && b' == EncodeAll(text') && runes' == |text'|
    ensures text' == if prevSpace then text else text + [SP]
  {
    b', runes', text' := b, runes, text;
    ScanSpace(text, prevSpace, ss, f);
    if !prevSpace {
      LastByte(text, SP);
      b', runes', text' := b + [0x20], runes + 1, text + [SP];
    }
  }

  method WriteRune(b: Bytes, runes: nat, ghost prevSpace: bool, r: Rune, ghost text: seq<Rune>, ghost ss: seq<Sym>,
                   ghost f: seq<Rune>)
      returns (b': Bytes, runes': nat, ghost text': seq<Rune>)
    requires ss != [] && ss[0] == Char(r) && KindOf(ss[0]) == Keep && Scanning(text, prevSpace, ss, f)
    requires b == EncodeAll(text) && runes == |text| <= MAX_QUERY_RUNES && (runes == MAX_QUERY_RUNES ==> prevSpace)
    ensures Scanning(text', false, ss[1..], f) && b' == EncodeAll(text') && runes' == |text'| <= MAX_QUERY_RUNES + 1
    ensures |text'| == MAX_QUERY_RUNES + 1 ==> text'[MAX_QUERY_RUNES - 1] == SP
  {
    ScanKeep(text, prevSpace, ss, f);
    LastByte(text, r);
    b', runes', text' := b + Encode(r), runes + 1, text + [r];
  }

  lemma NextSym(q: Bytes, i: nat)
    requires i < |q|
    ensures i + DecodeRune(q[i..]).size <= |q|
    ensures Syms(q[i..]) == [DecodeRune(q[i..]).sym] + Syms(q[i + DecodeRune(q[i..]).size..])
  {
    var d := DecodeRune(q[i..]);
    assert q[i..][d.size..] == q[i + d.size..];
  }

  method SanitizeBM25Query(q: Bytes) returns (out: Bytes)
    ensures out == EncodeAll(Cut(Normal(q)))
  {
    if q == [] {
      return [];
    }
    var b: Bytes := [];
    ghost var text: seq<Rune> := [];
    ghost var f := Normal(q);
    var runes: nat, prevSpace, i := 0, true, 0;
    assert q[0..] == q;
    while i < |q|
      invariant 0 <= i <= |q|
      invariant b == EncodeAll(text) && runes == |text|
      invariant Scanning(text, prevSpace, Syms(q[i..]), f)
      invariant runes <= MAX_QUERY_RUNES && (runes == MAX_QUERY_RUNES ==> prevSpace)
    {
      var d := DecodeRune(q[i..]);
      ghost var ss := Syms(q[i..]);
      NextSym(q, i);
      i := i + d.size;
      assert ss[0] == d.sym && ss[1..] == Syms(q[i..]);
      if d.sym.Invalid? {
        b, runes, text := WriteSpace(b, runes, prevSpace, text, ss, f);
        prevSpace := true;
        continue;
      }
      var r := d.sym.r;
      if IsDropped(r) {
        ScanDrop(text, prevSpace, ss, f);
        continue;
      }
      if IsSpace(r) {
        b, runes, text := WriteSpace(b, runes, prevSpace, text, ss, f);
        prevSpace := true;
        continue;
      }
      b, runes, text := WriteRune(b, runes, prevSpace, r, text, ss, f);
      prevSpace := false;
      if runes >= MAX_QUERY_RUNES {
        ScanStops(text, ss[1..], f);
        return TrimRight(b);
      }
    }
    ScanEnds(text, prevSpace, f);
    out := TrimRight(b);
  }
}
