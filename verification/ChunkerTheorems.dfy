/** What Split promises for every body and every option set. */
module ChunkerTheorems {
  import opened Utf8
  import opened Chunker

  // ---------- which runes and options ----------

  /** Sentences end at a full stop, an exclamation or question mark, or a new line; blanks are space, tab and line ends. */
  lemma RuneClasses(r: Rune)
    ensures In(Terminator, r) <==> r == 0x2E || r == 0x21 || r == 0x3F || r == 0x0A
    ensures In(Blank, r) <==> r == 0x20 || r == 0x09 || r == 0x0A || r == 0x0D
    ensures In(NotBlank, r) <==> !In(Blank, r) && !IsBlank(r)
  {
  }

  /** Positive sizes are kept, but a maximum never falls below the target; an overlap too large becomes a quarter of it. */
  lemma OptionsMeaning(opts: Options)
    ensures var n := Normalise(opts);
      && (opts.targetChars > 0 ==> n.targetChars == opts.targetChars)
      && (opts.targetChars <= 0 ==> n.targetChars == 500)
      && (opts.maxChars >= n.targetChars ==> n.maxChars == opts.maxChars)
      && (0 < opts.maxChars < n.targetChars ==> n.maxChars == n.targetChars)
      && (opts.maxChars <= 0 ==> n.maxChars == if n.targetChars <= 700 then 700 else n.targetChars)
      && (0 <= opts.overlap < n.targetChars ==> n.overlap == opts.overlap)
      && (opts.overlap < 0 ==> n.overlap == 0)
      && (opts.overlap >= n.targetChars ==> n.overlap * 4 <= n.targetChars < n.overlap * 4 + 4)
  {
  }

  /** The white space of Unicode, rune by rune. */
  predicate WhiteSpace(r: Rune) {
    || r in {0x09, 0x0A, 0x0B, 0x0C, 0x0D, 0x20, 0x85, 0xA0, 0x1680, 0x2028, 0x2029, 0x202F, 0x205F, 0x3000}
    || 0x2000 <= r <= 0x200A
  }

  /** Trimming removes white space at both ends and nothing else. */
  lemma TrimSpaceMeaning(body: Text)
    ensures exists lo: nat, hi: nat :: IsTrimmed(body, lo, hi) && TrimSpace(body) == body[lo..hi]
  {
    var v := TrimWindow(body, Window(0, |body|));
    forall k | 0 <= k < v.lo || v.hi <= k < |body| ensures WhiteSpace(body[k]) {
      if !IsSpace(body[k]) {
        TrimKeeps(body, Window(0, |body|), k);
      }
    }
    assert IsTrimmed(body, v.lo, v.hi);
  }

  ghost predicate IsTrimmed(body: Text, lo: nat, hi: nat) {
    && lo <= hi <= |body|
    && (forall k :: 0 <= k < lo || hi <= k < |body| ==> WhiteSpace(body[k]))
    && (lo < hi ==> !WhiteSpace(body[lo]) && !WhiteSpace(body[hi - 1]))
  }

  // ---------- where windows end ----------

  /** Position `i` of [lo, hi) is the first whose rune is in `c`. */
  ghost predicate IsFirst(c: Class, t: Text, lo: nat, hi: nat, i: nat)
    requires hi <= |t|
  {
    lo <= i < hi && In(c, t[i]) && NoneIn(c, t, lo, i)
  }

  ghost predicate NoneIn(c: Class, t: Text, lo: nat, hi: nat)
    requires hi <= |t|
  {
    forall k :: lo <= k < hi ==> !In(c, t[k])
  }

  /**
   `end` is just past the first sentence terminator from the target on and the blanks
   after it; without a terminator, at the first blank; else at the target.
   */
  ghost predicate EndsCleanly(t: Text, target: nat, hardEnd: nat, end: nat)
    requires target <= hardEnd <= |t| && end <= hardEnd
  {
    || (exists k: nat :: IsFirst(Terminator, t, target, hardEnd, k) && AfterSentence(t, k, hardEnd, end))
    || (NoneIn(Terminator, t, target, hardEnd) && IsFirst(Blank, t, target, hardEnd, end))
    || (NoneIn(Terminator, t, target, hardEnd) && NoneIn(Blank, t, target, hardEnd) && end == target)
  }

  /** Past position `k` and every blank that follows it, up to `hardEnd`. */
  ghost predicate AfterSentence(t: Text, k: nat, hardEnd: nat, end: nat)
    requires end <= hardEnd <= |t|
  {
    k < end && NoneIn(NotBlank, t, k + 1, end) && (end < hardEnd ==> !IsBlank(t[end]))
  }

  lemma BoundaryMeaning(t: Text, target: nat, hardEnd: nat)
    requires target <= hardEnd <= |t|
    ensures EndsCleanly(t, target, hardEnd, Boundary(t, target, hardEnd))
  {
    var stop := First(Terminator, t, target, hardEnd);
    FirstIsLeast(Terminator, t, target, hardEnd);
    if stop < hardEnd {
      FirstIsLeast(NotBlank, t, stop + 1, hardEnd);
      assert IsFirst(Terminator, t, target, hardEnd, stop);
      assert AfterSentence(t, stop, hardEnd, Boundary(t, target, hardEnd));
    } else {
      FirstIsLeast(Blank, t, target, hardEnd);
    }
  }

  /** Every window ends at such a place between its target and its maximum, or at the end of the text. */
  lemma WindowEnds(t: Text, o: Options, i: nat)
    requires Normal(o) && i < |Windows(t, 0, o)|
    ensures Windows(t, 0, o)[i].lo < |t| && EndsWell(t, o, Windows(t, 0, o)[i])
  {
    WindowsComplete(t, o, 0);
    assert IsWindow(t, o, Windows(t, 0, o)[i]);
    EndOfMeaning(t, o, Windows(t, 0, o)[i].lo);
  }

  ghost predicate EndsWell(t: Text, o: Options, w: Window)
    requires Normal(o)
  {
    var target, hardEnd := w.lo + o.targetChars, Min(w.lo + o.maxChars, |t|);
    if target >= |t| then w.hi == |t|
    else target <= w.hi <= hardEnd && EndsCleanly(t, target, hardEnd, w.hi)
  }

  lemma EndOfMeaning(t: Text, o: Options, cursor: nat)
    requires Normal(o) && cursor < |t|
    ensures EndsWell(t, o, Window(cursor, EndOf(t, cursor, o)))
  {
    if cursor + o.targetChars < |t| {
      BoundaryMeaning(t, cursor + o.targetChars, Min(cursor + o.maxChars, |t|));
    }
  }

  /**
   Each window is not empty and at most `maxChars` long. The next one starts at least
   `targetChars - overlap` >= 1 past its start, so the loop terminates and its guard
   against a cursor that does not move never fires.
   */
  lemma WindowShape(t: Text, o: Options, i: nat, j: nat)
    requires Normal(o) && |t| > 0 && i < |Windows(t, 0, o)| && j == i + 1
    ensures var w := Windows(t, 0, o)[i];
      w.lo < w.hi <= w.lo + o.maxChars && w.hi <= |t|
    ensures j < |Windows(t, 0, o)| ==>
      var w, next := Windows(t, 0, o)[i], Windows(t, 0, o)[j];
      w.hi >= w.lo + o.targetChars && next.lo == w.hi - o.overlap >= w.lo + (o.targetChars - o.overlap) > w.lo
  {
    WindowsComplete(t, o, 0);
    LinkedSizes(t, o, Windows(t, 0, o), i);
    if j < |Windows(t, 0, o)| {
      LinkedNext(t, o, 0, Windows(t, 0, o), i, j);
    }
  }

  lemma LinkedSizes(t: Text, o: Options, ws: seq<Window>, i: nat)
    requires Normal(o) && Linked(t, o, 0, ws) && i < |ws|
    ensures ws[i].lo < ws[i].hi <= |t| && ws[i].hi <= ws[i].lo + o.maxChars
    ensures ws[i].hi < |t| ==> ws[i].lo + o.targetChars <= ws[i].hi
  {
    assert IsWindow(t, o, ws[i]);
  }

  // ---------- reconstruction ----------

  /** The first window followed by each later window without its first `overlap` runes. */
  function Glue(t: Text, ws: seq<Window>, overlap: nat): Text
    requires InText(t, ws)
  {
    if ws == [] then [] else
    var n := |ws| - 1;
    var w := ws[n];
    Glue(t, ws[..n], overlap) + (if n == 0 || w.lo + overlap > w.hi then Slice(t, w) else t[w.lo + overlap..w.hi])
  }

  lemma GlueStep(t: Text, ws: seq<Window>, w: Window, overlap: nat)
    requires InText(t, ws + [w]) && InText(t, ws) && ws != [] && w.lo + overlap <= w.hi <= |t|
    ensures Glue(t, ws + [w], overlap) == Glue(t, ws, overlap) + t[w.lo + overlap..w.hi]
  {
    assert (ws + [w])[..|ws|] == ws;
  }

  lemma {:induction false} GluePrefix(t: Text, o: Options, ws: seq<Window>, n: nat)
    requires Normal(o) && Linked(t, o, 0, ws) && InText(t, ws) && 0 < n <= |ws|
    ensures Glue(t, ws[..n], o.overlap) == t[..ws[n - 1].hi]
  {
    if n == 1 {
      assert ws[..1][..0] == [];
      assert Slice(t, ws[0]) == t[..ws[0].hi];
    } else {
      GluePrefix(t, o, ws, n - 1);
      LinkedNext(t, o, 0, ws, n - 2, n - 1);
      LinkedSizes(t, o, ws, n - 1);
      GlueNext(t, o.overlap, ws, n - 1);
    }
  }

  lemma GlueNext(t: Text, overlap: nat, ws: seq<Window>, n: nat)
    requires InText(t, ws) && 0 < n < |ws|
    requires Glue(t, ws[..n], overlap) == t[..ws[n - 1].hi]
    requires ws[n].lo + overlap == ws[n - 1].hi <= ws[n].hi
    ensures Glue(t, ws[..n + 1], overlap) == t[..ws[n].hi]
  {
    assert ws[..n + 1] == ws[..n] + [ws[n]];
    GlueStep(t, ws[..n], ws[n], overlap);
    assert t[..ws[n].hi] == t[..ws[n - 1].hi] + t[ws[n - 1].hi..ws[n].hi];
  }

  /** The raw windows, overlaps removed, are the text: nothing is lost, repeated or reordered. */
  lemma Reconstruction(t: Text, o: Options)
    requires Normal(o) && |t| > 0
    ensures InText(t, Windows(t, 0, o)) && Glue(t, Windows(t, 0, o), o.overlap) == t
  {
    WindowsInText(t, 0, o);
    WindowsComplete(t, o, 0);
    var ws := Windows(t, 0, o);
    GluePrefix(t, o, ws, |ws|);
    assert ws[..|ws|] == ws && t[..|t|] == t;
  }

  // ---------- coverage ----------

  /** Position `k` of the text lies in window `w`. */
  predicate Holds(w: Window, k: nat) {
    w.lo <= k < w.hi
  }

  lemma {:induction false} SomeWindow(t: Text, o: Options, ws: seq<Window>, n: nat, k: nat) returns (i: nat)
    requires Normal(o) && Linked(t, o, 0, ws) && InText(t, ws) && 0 < n <= |ws| && k < ws[n - 1].hi
    ensures i < n && Holds(ws[i], k)
  {
    if ws[n - 1].lo <= k {
      i := n - 1;
    } else {
      LinkedNext(t, o, 0, ws, n - 2, n - 1);
      i := SomeWindow(t, o, ws, n - 1, k);
    }
  }

  lemma {:induction false} SpanOfWindow(t: Text, ws: seq<Window>, i: nat, k: nat) returns (j: nat)
    requires InText(t, ws) && i < |ws| && Holds(ws[i], k) && !IsSpace(t[k])
    ensures j < |Spans(t, ws)| && Holds(Spans(t, ws)[j], k)
  {
    var n := |ws| - 1;
    if i == n {
      TrimKeeps(t, ws[n], k);
      j := |Spans(t, ws)| - 1;
    } else {
      j := SpanOfWindow(t, ws[..n], i, k);
    }
  }

  /** The chunk's text is a stretch of `t` that contains position `k`. */
  ghost predicate Covers(t: Text, c: Chunk, k: nat) {
    exists lo: nat :: IsAt(t, c, lo) && lo <= k < lo + |c.text|
  }

  predicate IsAt(t: Text, c: Chunk, lo: nat) {
    lo + |c.text| <= |t| && t[lo..lo + |c.text|] == c.text
  }

  lemma LongCovered(t: Text, o: Options, k: nat) returns (j: nat)
    requires Normal(o) && k < |t| && !IsSpace(t[k])
    ensures j < |LongChunks(t, o)| && Covers(t, LongChunks(t, o)[j], k)
  {
    WindowsInText(t, 0, o);
    WindowsComplete(t, o, 0);
    var ws := Windows(t, 0, o);
    var i := SomeWindow(t, o, ws, |ws|, k);
    j := SpanOfWindow(t, ws, i, k);
    SpanCovers(t, Spans(t, ws), j, k);
  }

  lemma SpanCovers(t: Text, ss: seq<Window>, j: nat, k: nat)
    requires InText(t, ss) && j < |ss| && Holds(ss[j], k)
    ensures Covers(t, ChunksAt(t, ss)[j], k)
  {
    assert IsAt(t, ChunksAt(t, ss)[j], ss[j].lo);
  }

  /** Every rune of the body that is not white space lies in some returned chunk. */
  lemma EveryRuneCovered(body: Text, opts: Options, k: nat)
    requires k < |TrimSpace(body)| && !IsSpace(TrimSpace(body)[k])
    ensures exists c :: c in SplitOf(body, opts) && Covers(TrimSpace(body), c, k)
  {
    var o, t := Normalise(opts), TrimSpace(body);
    if |t| <= o.maxChars {
      assert IsAt(t, Chunk(0, t), 0);
      assert Chunk(0, t) in SplitOf(body, opts);
    } else {
      var j := LongCovered(t, o, k);
      assert LongChunks(t, o)[j] in SplitOf(body, opts);
    }
  }

  // ---------- sizes ----------

  predicate Trimmed(t: Text) {
    t != [] ==> !IsSpace(t[0]) && !IsSpace(t[|t| - 1])
  }

  /** Every span is what trimming leaves of some window. */
  lemma {:induction false} SpanFrom(t: Text, ws: seq<Window>, j: nat) returns (i: nat)
    requires InText(t, ws) && j < |Spans(t, ws)|
    ensures i < |ws| && Spans(t, ws)[j] == TrimWindow(t, ws[i]) && Spans(t, ws)[j].lo < Spans(t, ws)[j].hi
  {
    var n := |ws| - 1;
    if j < |Spans(t, ws[..n])| {
      i := SpanFrom(t, ws[..n], j);
    } else {
      i := n;
    }
  }

  lemma LongSizes(t: Text, o: Options, j: nat)
    requires Normal(o) && |t| > 0 && j < |LongChunks(t, o)|
    ensures var c := LongChunks(t, o)[j];
      c.index == j && 0 < |c.text| <= o.maxChars && Trimmed(c.text)
  {
    WindowsInText(t, 0, o);
    WindowsComplete(t, o, 0);
    var ws := Windows(t, 0, o);
    var i := SpanFrom(t, ws, j);
    LinkedSizes(t, o, ws, i);
    SliceTrimmed(t, ws[i]);
  }

  lemma SliceTrimmed(t: Text, w: Window)
    requires w.lo <= w.hi <= |t|
    ensures Trimmed(Slice(t, TrimWindow(t, w))) && |Slice(t, TrimWindow(t, w))| <= w.hi - w.lo
  {
  }

  /** Chunks are numbered from zero, never longer than `maxChars`, and trimmed. */
  lemma ChunkSizes(body: Text, opts: Options, i: nat)
    requires i < |SplitOf(body, opts)|
    ensures var c := SplitOf(body, opts)[i];
      c.index == i && |c.text| <= Normalise(opts).maxChars && Trimmed(c.text)
  {
    SliceTrimmed(body, Window(0, |body|));
    if |TrimSpace(body)| > Normalise(opts).maxChars {
      LongSizes(TrimSpace(body), Normalise(opts), i);
    }
  }

  /** There is always a chunk; an empty one is returned only for a body that is all white space. */
  lemma EmptyOnlyForEmpty(body: Text, opts: Options)
    ensures SplitOf(body, opts) != []
    ensures TrimSpace(body) == [] ==> SplitOf(body, opts) == [Chunk(0, [])]
    ensures TrimSpace(body) != [] ==> forall c :: c in SplitOf(body, opts) ==> c.text != []
  {
    var o, t := Normalise(opts), TrimSpace(body);
    if |t| > o.maxChars {
      FirstChunk(body, o);
      forall j | 0 <= j < |LongChunks(t, o)| ensures LongChunks(t, o)[j].text != [] {
        LongSizes(t, o, j);
      }
    }
  }

  lemma TrimmedIsFixed(t: Text)
    requires Trimmed(t)
    ensures TrimSpace(t) == t
  {
    assert TrimWindow(t, Window(0, |t|)) == Window(0, |t|);
  }

  /** Splitting the text of a chunk again gives back that text as the only chunk. */
  lemma ChunksAreFixed(body: Text, opts: Options, i: nat)
    requires i < |SplitOf(body, opts)|
    ensures SplitOf(SplitOf(body, opts)[i].text, opts) == [Chunk(0, SplitOf(body, opts)[i].text)]
  {
    ChunkSizes(body, opts, i);
    TrimmedIsFixed(SplitOf(body, opts)[i].text);
  }

  // ---------- how many chunks ----------

  lemma {:induction false} StartsAdvance(t: Text, o: Options, ws: seq<Window>, i: nat)
    requires Normal(o) && Linked(t, o, 0, ws) && i < |ws|
    ensures ws[i].lo >= i * (o.targetChars - o.overlap)
  {
    if i > 0 {
      StartsAdvance(t, o, ws, i - 1);
      LinkedNext(t, o, 0, ws, i - 1, i);
      assert i * (o.targetChars - o.overlap) == (i - 1) * (o.targetChars - o.overlap) + (o.targetChars - o.overlap);
    }
  }

  lemma StartBound(t: Text, o: Options, ws: seq<Window>)
    requires Normal(o) && Linked(t, o, 0, ws) && |ws| >= 2
    ensures (|ws| - 2) * (o.targetChars - o.overlap) < |t| - o.targetChars
  {
    var i := |ws| - 2;
    StartsAdvance(t, o, ws, i);
    LinkedNext(t, o, 0, ws, i, i + 1);
    LinkedSizes(t, o, ws, i);
  }

  /**
   A long body of n runes gives fewer than 2 + (n - targetChars) / (targetChars - overlap)
   chunks: at most one more than that quotient rounded up.
   */
  lemma ChunkCountBound(body: Text, opts: Options)
    requires |TrimSpace(body)| > Normalise(opts).maxChars
    ensures var o := Normalise(opts);
      (|SplitOf(body, opts)| - 2) * (o.targetChars - o.overlap) < |TrimSpace(body)| - o.targetChars
  {
    LongCount(TrimSpace(body), Normalise(opts));
  }

  lemma LongCount(t: Text, o: Options)
    requires Normal(o) && |t| > o.maxChars
    ensures (|LongChunks(t, o)| - 2) * (o.targetChars - o.overlap) < |t| - o.targetChars
  {
    WindowsInText(t, 0, o);
    WindowsComplete(t, o, 0);
    var ws := Windows(t, 0, o);
    var n := |LongChunks(t, o)|;
    assert n <= |ws|;
    if |ws| >= 2 {
      StartBound(t, o, ws);
      Monotone(n - 2, |ws| - 2, o.targetChars - o.overlap);
    } else {
      Monotone(n - 2, 0, o.targetChars - o.overlap);
    }
  }

  lemma Monotone(a: int, b: int, step: int)
    requires a <= b && step > 0
    ensures a * step <= b * step
  {
  }

  // ---------- no overlap, no duplication ----------

  function Solid(t: Text): Text {
    if t == [] then [] else Solid(t[..|t| - 1]) + (if IsSpace(t[|t| - 1]) then [] else [t[|t| - 1]])
  }

  function Texts(cs: seq<Chunk>): Text {
    if cs == [] then [] else Texts(cs[..|cs| - 1]) + cs[|cs| - 1].text
  }

  lemma {:induction false} SolidConcat(x: Text, y: Text)
    ensures Solid(x + y) == Solid(x) + Solid(y)
  {
    if y == [] {
      assert x + y == x;
    } else {
      var n := |y| - 1;
      assert (x + y)[..|x| + n] == x + y[..n];
      SolidConcat(x, y[..n]);
    }
  }

  lemma SolidFront(t: Text, w: Window)
    requires w.lo < w.hi <= |t| && IsSpace(t[w.lo])
    ensures Solid(Slice(t, Window(w.lo + 1, w.hi))) == Solid(Slice(t, w))
  {
    var rest := Slice(t, Window(w.lo + 1, w.hi));
    assert Slice(t, w) == [t[w.lo]] + rest;
    SolidConcat([t[w.lo]], rest);
    assert [t[w.lo]][..0] == [];
  }

  lemma SolidBack(t: Text, w: Window)
    requires w.lo < w.hi <= |t| && IsSpace(t[w.hi - 1])
    ensures Solid(Slice(t, Window(w.lo, w.hi - 1))) == Solid(Slice(t, w))
  {
    var s := Slice(t, w);
    assert s[..|s| - 1] == Slice(t, Window(w.lo, w.hi - 1));
  }

  lemma {:induction false} SolidTrim(t: Text, w: Window)
    requires w.lo <= w.hi <= |t|
    ensures Solid(Slice(t, TrimWindow(t, w))) == Solid(Slice(t, w))
    decreases w.hi - w.lo
  {
    if w.lo < w.hi && IsSpace(t[w.lo]) {
      SolidTrim(t, Window(w.lo + 1, w.hi));
      SolidFront(t, w);
    } else if w.lo < w.hi && IsSpace(t[w.hi - 1]) {
      SolidTrim(t, Window(w.lo, w.hi - 1));
      SolidBack(t, w);
    } else {
      assert TrimWindow(t, w) == w;
    }
  }

  /** The chunk texts of the first `n` windows, without white space. */
  function SolidOf(t: Text, ws: seq<Window>): Text
    requires InText(t, ws)
  {
    Solid(Texts(ChunksAt(t, Spans(t, ws))))
  }

  lemma {:induction false} SolidSpans(t: Text, o: Options, ws: seq<Window>, n: nat)
    requires Normal(o) && o.overlap == 0 && Linked(t, o, 0, ws) && InText(t, ws) && 0 < n <= |ws|
    ensures SolidOf(t, ws[..n]) == Solid(t[..ws[n - 1].hi])
  {
    LinkedSizes(t, o, ws, n - 1);
    if n == 1 {
      SolidNext(t, ws, 0, 0);
    } else {
      SolidSpans(t, o, ws, n - 1);
      LinkedNext(t, o, 0, ws, n - 2, n - 1);
      SolidNext(t, ws, n - 1, ws[n - 2].hi);
    }
  }

  lemma SolidNext(t: Text, ws: seq<Window>, n: nat, at: nat)
    requires InText(t, ws) && n < |ws| && at == ws[n].lo && (n == 0 ==> at == 0)
    requires n > 0 ==> SolidOf(t, ws[..n]) == Solid(t[..at])
    ensures SolidOf(t, ws[..n + 1]) == Solid(t[..ws[n].hi])
  {
    assert ws[..n + 1] == ws[..n] + [ws[n]];
    AppendSpan(t, ws[..n], ws[n]);
    if n == 0 {
      assert ws[..0] == [];
    }
    SolidGrows(t, at, ws[n].hi);
  }

  lemma SolidGrows(t: Text, lo: nat, hi: nat)
    requires lo <= hi <= |t|
    ensures Solid(t[..hi]) == Solid(t[..lo]) + Solid(Slice(t, Window(lo, hi)))
  {
    assert t[..hi] == t[..lo] + Slice(t, Window(lo, hi));
    SolidConcat(t[..lo], Slice(t, Window(lo, hi)));
  }

  lemma AppendSpan(t: Text, ws: seq<Window>, w: Window)
    requires InText(t, ws) && w.lo <= w.hi <= |t|
    ensures InText(t, ws + [w])
    ensures SolidOf(t, ws + [w]) == SolidOf(t, ws) + Solid(Slice(t, w))
  {
    SpansStep(t, ws, w);
    var ss, v := Spans(t, ws), TrimWindow(t, w);
    SolidTrim(t, w);
    if v.lo < v.hi {
      ChunksStep(t, ss, v);
      var cs := ChunksAt(t, ss + [v]);
      assert cs[..|cs| - 1] == ChunksAt(t, ss);
      SolidConcat(Texts(ChunksAt(t, ss)), Slice(t, v));
    } else {
      assert Slice(t, v) == [];
      assert ss + [] == ss;
    }
  }

  /**
   Without overlap, which is what Options{} gives, the chunk texts carry every rune
   of the body that is not white space exactly once and in order.
   */
  lemma NoOverlapKeepsText(body: Text, opts: Options)
    requires Normalise(opts).overlap == 0
    ensures Solid(Texts(SplitOf(body, opts))) == Solid(body)
  {
    var o, t := Normalise(opts), TrimSpace(body);
    SolidTrim(body, Window(0, |body|));
    assert Slice(body, Window(0, |body|)) == body;
    if |t| <= o.maxChars {
      var cs := SplitOf(body, opts);
      assert cs == [Chunk(0, t)];
      assert Texts(cs[..0]) == [] && cs[0].text == t;
      assert Texts(cs) == [] + t == t;
    } else {
      WindowsInText(t, 0, o);
      WindowsComplete(t, o, 0);
      var ws := Windows(t, 0, o);
      SolidSpans(t, o, ws, |ws|);
      assert ws[..|ws|] == ws && t[..|t|] == t;
    }
  }

  /** When an option set leaves an overlap: any positive one below the target, else a quarter of the target. */
  predicate Overlapping(opts: Options) {
    0 < opts.overlap && (opts.overlap < Normalise(opts).targetChars || Normalise(opts).targetChars >= 4)
  }

  /** Adjacent windows share text exactly under such options; zero options are not among them. */
  lemma SharesContextIff(t: Text, opts: Options, i: nat, j: nat)
    requires j == i + 1 < |Windows(t, 0, Normalise(opts))|
    ensures Windows(t, 0, Normalise(opts))[j].lo < Windows(t, 0, Normalise(opts))[i].hi <==> Overlapping(opts)
    ensures Normalise(opts).overlap == 0 <==> !Overlapping(opts)
  {
    if |t| > 0 {
      WindowShape(t, Normalise(opts), i, j);
    }
  }

  /** The server's options: 500 runes aimed for, 700 at most, and no overlap at all. */
  lemma ServerOptions()
    ensures Normalise(Options(0, 0, 0)) == Options(500, 700, 0)
  {
  }
}
