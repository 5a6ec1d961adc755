/** What the keyword retriever may rely on after sanitising, for every byte string. */
module SanitizeTheorems {
  import opened Utf8
  import opened Sanitize

  /** The result of SanitizeBM25Query, as its method contract states it. */
  function Sanitized(q: Bytes): Bytes {
    EncodeAll(Cut(Normal(q)))
  }

  predicate Kept(r: Rune) {
    KindOf(Char(r)) == Keep
  }

  /** Kept characters and single spaces between them; it may begin with a space. */
  predicate Tidy(rs: seq<Rune>) {
    && (forall i | 0 <= i < |rs| :: rs[i] == SP || Kept(rs[i]))
    && (forall i | 0 <= i < |rs| - 1 :: rs[i] == SP ==> rs[i + 1] != SP)
    && (rs != [] ==> rs[|rs| - 1] != SP)
  }

  /** Tidy, and no leading space either. */
  predicate Clean(rs: seq<Rune>) {
    Tidy(rs) && (rs != [] ==> rs[0] != SP)
  }

  lemma {:induction false} ScanIsClean(ss: seq<Sym>)
    ensures Clean(Fresh(ss)) && Tidy(Inside(ss))
  {
    if ss == [] {
      NothingLeft();
    } else {
      ScanIsClean(ss[1..]);
      match KindOf(ss[0])
      case Drop => StepDrop(ss);
      case Separate =>
        StepSeparate(ss);
        TidyCons(SP, Fresh(ss[1..]));
      case Keep =>
        StepKeep(ss);
        TidyCons(ss[0].r, Inside(ss[1..]));
    }
  }

  lemma TidyCons(r: Rune, rs: seq<Rune>)
    requires Tidy(rs)
    ensures Kept(r) ==> Clean([r] + rs)
    ensures r == SP && rs != [] && rs[0] != SP ==> Tidy([r] + rs)
  {
    var all := [r] + rs;
    assert forall i :: 0 < i < |all| ==> all[i] == rs[i - 1];
  }

  /** Text that is already clean is its own normal form. */
  lemma {:induction false} Rebuilds(rs: seq<Rune>)
    requires Tidy(rs)
    ensures Clean(rs) ==> Fresh(Chars(rs)) == rs
    ensures Inside(Chars(rs)) == rs
  {
    if rs == [] {
      NothingLeft();
    } else {
      var ss := Chars(rs);
      assert ss[1..] == Chars(rs[1..]);
      assert rs == [rs[0]] + rs[1..];
      Rebuilds(rs[1..]);
      if rs[0] == SP {
        StepSeparate(ss);
      } else {
        StepKeep(ss);
      }
    }
  }

  lemma CleanIsNormal(rs: seq<Rune>)
    requires Clean(rs)
    ensures Normal(EncodeAll(rs)) == rs
  {
    SymsOfEncoded(rs);
    Rebuilds(rs);
  }

  /** Cutting leaves clean text that needs no second cut. */
  lemma CutIsClean(f: seq<Rune>)
    requires Clean(f)
    ensures Clean(Cut(f)) && Cut(Cut(f)) == Cut(f) && Cut(f) <= f
    ensures |Cut(f)| <= MAX_QUERY_RUNES + 1
    ensures |Cut(f)| == MAX_QUERY_RUNES + 1 <==> |f| > MAX_QUERY_RUNES && f[MAX_QUERY_RUNES - 1] == SP
  {
    var n := |Cut(f)|;
    assert Cut(f) == f[..n];
    assert forall i :: 0 <= i < n ==> f[..n][i] == f[i];
  }

  /** Sanitising is a fixed-point function on all byte strings, truncated ones included. */
  lemma Idempotent(q: Bytes)
    ensures Sanitized(Sanitized(q)) == Sanitized(q)
  {
    ScanIsClean(Syms(q));
    CutIsClean(Normal(q));
    CleanIsNormal(Cut(Normal(q)));
  }

  /** The output is valid UTF-8 without NUL, the encoding of its own runes, and its text is clean. */
  lemma OutputWellFormed(q: Bytes)
    ensures Valid(Sanitized(q)) && 0 !in Sanitized(q) && Clean(Runes(Sanitized(q)))
    ensures EncodeAll(Runes(Sanitized(q))) == Sanitized(q)
  {
    ScanIsClean(Syms(q));
    CutIsClean(Normal(q));
    SymsOfEncoded(Cut(Normal(q)));
    NoNul(Cut(Normal(q)));
    ValidIffEncoded(Sanitized(q));
  }

  /** Text that the cut leaves as it is. */
  predicate Uncut(rs: seq<Rune>) {
    |rs| <= MAX_QUERY_RUNES || (|rs| == MAX_QUERY_RUNES + 1 && rs[MAX_QUERY_RUNES - 1] == SP)
  }

  lemma UncutIff(f: seq<Rune>)
    ensures Uncut(Cut(f)) && (Uncut(f) <==> Cut(f) == f)
  {
    if |f| == MAX_QUERY_RUNES + 1 {
      assert f[..MAX_QUERY_RUNES + 1] == f;
    }
  }

  /** Exactly the valid, clean and short enough byte strings pass through unchanged. */
  lemma UnchangedIff(q: Bytes)
    ensures Sanitized(q) == q <==> Valid(q) && Clean(Runes(q)) && Uncut(Runes(q))
  {
    OutputWellFormed(q);
    if Sanitized(q) == q {
      SymsOfEncoded(Cut(Normal(q)));
      UncutIff(Normal(q));
    }
    if Valid(q) && Clean(Runes(q)) && Uncut(Runes(q)) {
      ValidIffEncoded(q);
      CleanIsNormal(Runes(q));
      UncutIff(Runes(q));
    }
  }

  lemma {:induction false} NoNul(rs: seq<Rune>)
    requires forall i :: 0 <= i < |rs| ==> rs[i] != 0
    ensures 0 !in EncodeAll(rs)
  {
    if rs != [] {
      NoNul(rs[1..]);
    }
  }

  /**
   The cap promised for the output does not hold: it is exceeded, by one rune,
   exactly when the normal form is longer than the cap and has a space at the cap.
   */
  lemma CapExceededIff(q: Bytes)
    ensures |Runes(Sanitized(q))| <= MAX_QUERY_RUNES + 1
    ensures |Runes(Sanitized(q))| > MAX_QUERY_RUNES
       <==> |Normal(q)| > MAX_QUERY_RUNES && Normal(q)[MAX_QUERY_RUNES - 1] == SP
  {
    ScanIsClean(Syms(q));
    CutIsClean(Normal(q));
    SymsOfEncoded(Cut(Normal(q)));
  }

  /** 4095 letters, a space and one more letter. */
  function LongQuery(): (rs: seq<Rune>)
    ensures |rs| == MAX_QUERY_RUNES + 1
  {
    seq<Rune>(MAX_QUERY_RUNES - 1, i => 0x61) + [SP, 0x61]
  }

  /** All 4097 runes of that query come back. */
  lemma CapExceededWitness()
    ensures Sanitized(EncodeAll(LongQuery())) == EncodeAll(LongQuery())
    ensures |Runes(Sanitized(EncodeAll(LongQuery())))| == MAX_QUERY_RUNES + 1
  {
    var rs := LongQuery();
    assert Clean(rs);
    CleanIsNormal(rs);
    UncutIff(rs);
    SymsOfEncoded(rs);
  }

  function WithoutSpaces(rs: seq<Rune>): seq<Rune> {
    if rs == [] then [] else (if rs[0] == SP then [] else [rs[0]]) + WithoutSpaces(rs[1..])
  }

  /** The kept characters of the scan, in order. */
  function KeptOf(ss: seq<Sym>): seq<Rune> {
    if ss == [] then [] else (if KindOf(ss[0]) == Keep then [ss[0].r] else []) + KeptOf(ss[1..])
  }

  lemma {:induction false} ScanKeepsText(ss: seq<Sym>)
    ensures WithoutSpaces(Fresh(ss)) == KeptOf(ss) && WithoutSpaces(Inside(ss)) == KeptOf(ss)
  {
    if ss == [] {
      NothingLeft();
    } else {
      ScanKeepsText(ss[1..]);
      match KindOf(ss[0])
      case Drop => StepDrop(ss);
      case Separate =>
        StepSeparate(ss);
        assert ([SP] + Fresh(ss[1..]))[1..] == Fresh(ss[1..]);
      case Keep =>
        StepKeep(ss);
        assert ([ss[0].r] + Inside(ss[1..]))[1..] == Inside(ss[1..]);
    }
  }

  /** Below the cap no kept character is lost, changed or moved. */
  lemma NothingLost(q: Bytes)
    ensures WithoutSpaces(Normal(q)) == KeptOf(Syms(q))
    ensures |Normal(q)| <= MAX_QUERY_RUNES ==> WithoutSpaces(Runes(Sanitized(q))) == KeptOf(Syms(q))
  {
    ScanKeepsText(Syms(q));
    SymsOfEncoded(Cut(Normal(q)));
  }

  // ---------- which characters do what ----------

  predicate WhiteSpace(r: Rune) {
    || r in {0x09, 0x0A, 0x0B, 0x0C, 0x0D, 0x20, 0x85, 0xA0, 0x1680, 0x2028, 0x2029, 0x202F, 0x205F, 0x3000}
    || 0x2000 <= r <= 0x200A
  }

  /** The control characters that are not white space, and the characters of no width. */
  predicate Vanishing(r: Rune) {
    || 0x00 <= r <= 0x08 || 0x0E <= r <= 0x1F || 0x7F <= r <= 0x84 || 0x86 <= r <= 0x9F
    || r in {0x00AD, 0x180E, 0x200B, 0x200C, 0x200D, 0x200E, 0x200F, 0x2060, 0xFEFF}
    || 0x202A <= r <= 0x202E || 0x2066 <= r <= 0x2069
  }

  lemma KindsAre(r: Rune)
    ensures KindOf(Char(r)) == Separate <==> WhiteSpace(r)
    ensures KindOf(Char(r)) == Drop <==> Vanishing(r)
    ensures KindOf(Invalid) == Separate
  {
  }

  /** Two normal forms with one space between them, unless one is empty. */
  function Spaced(x: seq<Rune>, y: seq<Rune>): seq<Rune> {
    if x == [] then y else if y == [] then x else x + [0x20] + y
  }

  lemma {:induction false} FieldsSplit(ss: seq<Sym>, s: Sym, tt: seq<Sym>)
    requires KindOf(s) == Separate
    ensures Fields(ss + [s] + tt) == Fields(ss) + Fields(tt)
  {
    var all := ss + [s] + tt;
    if ss == [] {
      assert all[1..] == tt;
    } else {
      assert all[1..] == ss[1..] + [s] + tt;
      FieldsSplit(ss[1..], s, tt);
    }
  }

  lemma {:induction false} FieldsSkip(ss: seq<Sym>, s: Sym, tt: seq<Sym>)
    requires KindOf(s) == Drop
    ensures Fields(ss + [s] + tt) == Fields(ss + tt)
  {
    var all := ss + [s] + tt;
    if ss == [] {
      assert all[1..] == tt && ss + tt == tt;
    } else {
      assert all[1..] == ss[1..] + [s] + tt && (ss + tt)[1..] == ss[1..] + tt;
      FieldsSkip(ss[1..], s, tt);
    }
  }

  lemma {:induction false} NonEmptySplit(x: seq<seq<Rune>>, y: seq<seq<Rune>>)
    ensures NonEmpty(x + y) == NonEmpty(x) + NonEmpty(y)
  {
    if x == [] {
      assert x + y == y;
    } else {
      assert (x + y)[1..] == x[1..] + y;
      NonEmptySplit(x[1..], y);
    }
  }

  lemma {:induction false} NoneIsEmpty(x: seq<seq<Rune>>)
    ensures forall w :: w in NonEmpty(x) ==> w != []
  {
    if x != [] {
      NoneIsEmpty(x[1..]);
    }
  }

  lemma {:induction false} JoinSplit(x: seq<seq<Rune>>, y: seq<seq<Rune>>)
    requires (forall w :: w in x ==> w != []) && (forall w :: w in y ==> w != [])
    ensures Join(x + y) == Spaced(Join(x), Join(y))
  {
    if x == [] {
      assert x + y == y;
    } else if y == [] {
      assert x + y == x;
    } else {
      assert (x + y)[1..] == x[1..] + y;
      assert x[0] in x && y[0] in y && (|x| > 1 ==> x[1] in x);
      assert forall w :: w in x[1..] ==> w in x;
      JoinSplit(x[1..], y);
      JoinedWords(x, y);
    }
  }

  lemma JoinedWords(x: seq<seq<Rune>>, y: seq<seq<Rune>>)
    requires x != [] && y != [] && x[0] != [] && y[0] != []
    requires Join(x[1..] + y) == Spaced(Join(x[1..]), Join(y)) && (x + y)[1..] == x[1..] + y
    requires |x| > 1 ==> x[1] != []
    ensures Join(x + y) == Spaced(Join(x), Join(y))
  {
    assert Join(y) != [] && Join(x) != [];
    if |x| == 1 {
      assert Join(x[1..]) == [] && Join(x) == x[0];
    } else {
      assert Join(x[1..]) != [];
      assert Join(x) == x[0] + [SP] + Join(x[1..]);
      var a, b, c, sp := x[0], Join(x[1..]), Join(y), [SP];
      assert a + sp + (b + sp + c) == (a + sp + b) + sp + c;
    }
  }

  lemma FreshSplit(ss: seq<Sym>, s: Sym, tt: seq<Sym>)
    requires KindOf(s) == Separate
    ensures Fresh(ss + [s] + tt) == Spaced(Fresh(ss), Fresh(tt))
  {
    FieldsSplit(ss, s, tt);
    NonEmptySplit(Fields(ss), Fields(tt));
    NoneIsEmpty(Fields(ss));
    NoneIsEmpty(Fields(tt));
    JoinSplit(NonEmpty(Fields(ss)), NonEmpty(Fields(tt)));
  }

  /** White space separates words: both sides are normalised on their own and joined by one space. */
  lemma WhiteSpaceSeparates(a: Bytes, r: Rune, b: Bytes)
    requires WhiteSpace(r)
    ensures Normal(a + Encode(r) + b) == Spaced(Normal(a), Normal(b))
  {
    SymsAround(a, r, b);
    KindsAre(r);
    FreshSplit(Syms(a), Char(r), Syms(b));
  }

  /** So does a byte that occurs in no character at all. */
  lemma InvalidByteSeparates(a: Bytes, x: Byte, b: Bytes)
    requires x == 0xC0 || x == 0xC1 || x >= 0xF5
    ensures Normal(a + [x] + b) == Spaced(Normal(a), Normal(b))
  {
    var tail := [x] + b;
    assert a + [x] + b == a + tail;
    SymsConcat(a, tail);
    assert tail[1..] == b && Syms(tail) == [Invalid] + Syms(b);
    assert Syms(a + [x] + b) == Syms(a) + [Invalid] + Syms(b);
    FreshSplit(Syms(a), Invalid, Syms(b));
  }

  /** Control and zero-width characters vanish without a trace, within a word too. */
  lemma VanishingLeaveNoTrace(a: Bytes, r: Rune, b: Bytes)
    requires Vanishing(r) && (b == [] || !(0x80 <= b[0] < 0xC0))
    ensures Normal(a + Encode(r) + b) == Normal(a + b)
  {
    SymsAround(a, r, b);
    SymsConcat(a, b);
    KindsAre(r);
    FieldsSkip(Syms(a), Char(r), Syms(b));
  }

  /** Any other character stands for itself. */
  lemma OthersAreKept(r: Rune)
    requires !WhiteSpace(r) && !Vanishing(r)
    ensures Normal(Encode(r)) == [r]
  {
    assert Encode(r) == EncodeAll([r]) by {
      EncodeCons(r, []);
      assert [r] + [] == [r];
    }
    assert Clean([r]) by { KindsAre(r); }
    CleanIsNormal([r]);
  }

  /** The cut in full: up to 4096 runes nothing is cut, else the first 4096, or 4097 if the 4096th is a space. */
  lemma CutLength(q: Bytes)
    ensures Runes(Sanitized(q)) <= Normal(q)
    ensures var n := |Normal(q)|;
      |Runes(Sanitized(q))| == if n <= 4096 then n else if Normal(q)[4095] != 0x20 then 4096 else 4097
  {
    SymsOfEncoded(Cut(Normal(q)));
  }
}
