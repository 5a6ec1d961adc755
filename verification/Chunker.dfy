/** chunker.Split: cutting a body into bounded, overlapping chunks at clean boundaries. */
module Chunker {
  import opened Utf8

  type Text = seq<Rune>

  datatype Options = Options(targetChars: int, maxChars: int, overlap: int)

  datatype Chunk = Chunk(index: nat, text: Text)

  /** A stretch [lo, hi) of the body. */
  datatype Window = Window(lo: nat, hi: nat)

  const DEFAULT_TARGET_CHARS := 500
  const DEFAULT_MAX_CHARS := 700

  /** Defaults and clamps. A zero overlap stays zero: there is no default for it. */
  function Normalise(o: Options): (n: Options)
    ensures 0 < n.targetChars <= n.maxChars && 0 <= n.overlap < n.targetChars
  {
    var target := if o.targetChars <= 0 then DEFAULT_TARGET_CHARS else o.targetChars;
    var max0 := if o.maxChars <= 0 then DEFAULT_MAX_CHARS else o.maxChars;
    var max1 := if max0 < target then target else max0;
    var overlap0 := if o.overlap < 0 then 0 else o.overlap;
    var overlap1 := if overlap0 >= target then target / 4 else overlap0;
    Options(target, max1, overlap1)
  }

  predicate Normal(o: Options) {
    0 < o.targetChars <= o.maxChars && 0 <= o.overlap < o.targetChars
  }

  predicate IsBlank(r: Rune) {
    r == 0x20 || r == 0x09 || r == 0x0A || r == 0x0D
  }

  predicate IsTerminator(r: Rune) {
    r == 0x2E || r == 0x21 || r == 0x3F || r == 0x0A
  }

  /** The three kinds of rune that the boundary search looks for. */
  datatype Class = Terminator | Blank | NotBlank

  predicate In(c: Class, r: Rune) {
    match c
    case Terminator => IsTerminator(r)
    case Blank => IsBlank(r)
    case NotBlank => !IsBlank(r)
  }

  // ---------- where a window ends ----------

  /** The first position in [lo, hi) whose rune is in `c`, or `hi`. */
  function First(c: Class, t: Text, lo: nat, hi: nat): (i: nat)
    requires lo <= hi <= |t|
    ensures lo <= i <= hi
    decreases hi - lo
  {
    if lo == hi || In(c, t[lo]) then lo else First(c, t, lo + 1, hi)
  }

  /** Past the first sentence end and its blanks, else the first blank, else the target. */
  function Boundary(t: Text, target: nat, hardEnd: nat): (end: nat)
    requires target <= hardEnd <= |t|
    ensures target <= end <= hardEnd
  {
    var stop := First(Terminator, t, target, hardEnd);
    if stop < hardEnd then First(NotBlank, t, stop + 1, hardEnd)
    else
      var blank := First(Blank, t, target, hardEnd);
      if blank < hardEnd then blank else target
  }

  function Min(a: int, b: int): int {
    if a < b then a else b
  }

  function EndOf(t: Text, cursor: nat, o: Options): (end: nat)
    requires Normal(o) && cursor < |t|
    ensures cursor < end <= |t|
    ensures end == |t| || cursor + o.targetChars <= end <= cursor + o.maxChars
    ensures end <= cursor + o.maxChars
  {
    if cursor + o.targetChars >= |t| then |t|
    else Boundary(t, cursor + o.targetChars, Min(cursor + o.maxChars, |t|))
  }

  method PreferBoundary(t: Text, target: nat, hardEnd: nat) returns (end: nat)
    requires target <= hardEnd <= |t|
    ensures end == if target >= |t| then |t| else Boundary(t, target, hardEnd)
  {
    if target >= |t| {
      return |t|;
    }
    var i := target;
    while i < hardEnd
      invariant target <= i <= hardEnd
      invariant First(Terminator, t, target, hardEnd) == First(Terminator, t, i, hardEnd)
    {
      if IsTerminator(t[i]) {
        var j := i + 1;
        while j < hardEnd && IsBlank(t[j])
          invariant i < j <= hardEnd
          invariant First(NotBlank, t, i + 1, hardEnd) == First(NotBlank, t, j, hardEnd)
        {
          j := j + 1;
        }
        return j;
      }
      i := i + 1;
    }
    i := target;
    while i < hardEnd
      invariant target <= i <= hardEnd
      invariant First(Blank, t, target, hardEnd) == First(Blank, t, i, hardEnd)
    {
      if IsBlank(t[i]) {
        return i;
      }
      i := i + 1;
    }
    return target;
  }

  // ---------- trimming ----------

  /** strings.TrimSpace applied to t[lo..hi], as the stretch that remains. */
  function TrimWindow(t: Text, w: Window): (v: Window)
    requires w.lo <= w.hi <= |t|
    ensures w.lo <= v.lo <= v.hi <= w.hi
    ensures v.lo < v.hi ==> !IsSpace(t[v.lo]) && !IsSpace(t[v.hi - 1])
    decreases w.hi - w.lo
  {
    if w.lo == w.hi then w
    else if IsSpace(t[w.lo]) then TrimWindow(t, Window(w.lo + 1, w.hi))
    else if IsSpace(t[w.hi - 1]) then TrimWindow(t, Window(w.lo, w.hi - 1))
    else w
  }

  /** Trimming drops nothing but white space. */
  lemma {:induction false} TrimKeeps(t: Text, w: Window, k: nat)
    requires w.lo <= k < w.hi <= |t| && !IsSpace(t[k])
    ensures TrimWindow(t, w).lo <= k < TrimWindow(t, w).hi
    decreases w.hi - w.lo
  {
    if IsSpace(t[w.lo]) {
      TrimKeeps(t, Window(w.lo + 1, w.hi), k);
    } else if IsSpace(t[w.hi - 1]) {
      TrimKeeps(t, Window(w.lo, w.hi - 1), k);
    }
  }

  /** First is the least position whose rune is in `c`, when there is one. */
  lemma {:induction false} FirstIsLeast(c: Class, t: Text, lo: nat, hi: nat)
    requires lo <= hi <= |t|
    ensures First(c, t, lo, hi) < hi ==> In(c, t[First(c, t, lo, hi)])
    ensures forall k :: lo <= k < First(c, t, lo, hi) ==> !In(c, t[k])
    decreases hi - lo
  {
    if lo < hi && !In(c, t[lo]) {
      FirstIsLeast(c, t, lo + 1, hi);
    }
  }

  function Slice(t: Text, w: Window): Text
    requires w.lo <= w.hi <= |t|
  {
    t[w.lo..w.hi]
  }

  function TrimSpace(t: Text): Text {
    Slice(t, TrimWindow(t, Window(0, |t|)))
  }

  // ---------- the windows and the chunks ----------

  /** The raw windows from `cursor` on: each starts `overlap` runes before the last one ended. */
  function Windows(t: Text, cursor: nat, o: Options): (ws: seq<Window>)
    requires Normal(o)
    decreases |t| - cursor
  {
    if cursor >= |t| then [] else
    var end := EndOf(t, cursor, o);
    if end >= |t| then [Window(cursor, end)] else [Window(cursor, end)] + Windows(t, end - o.overlap, o)
  }

  predicate InText(t: Text, ws: seq<Window>) {
    forall i | 0 <= i < |ws| :: ws[i].lo <= ws[i].hi <= |t|
  }

  /** The windows trimmed, without those of which nothing is left. */
  function Spans(t: Text, ws: seq<Window>): (ss: seq<Window>)
    requires InText(t, ws)
    ensures InText(t, ss) && |ss| <= |ws|
  {
    if ws == [] then [] else
    var n := |ws| - 1;
    var v := TrimWindow(t, ws[n]);
    Spans(t, ws[..n]) + (if v.lo < v.hi then [v] else [])
  }

  /** One chunk for each span, numbered from zero. */
  function ChunksAt(t: Text, ss: seq<Window>): (cs: seq<Chunk>)
    requires InText(t, ss)
    ensures |cs| == |ss|
  {
    seq(|ss|, i requires 0 <= i < |ss| => Chunk(i, Slice(t, ss[i])))
  }

  function LongChunks(t: Text, o: Options): seq<Chunk>
    requires Normal(o)
  {
    WindowsInText(t, 0, o);
    ChunksAt(t, Spans(t, Windows(t, 0, o)))
  }

  lemma InTextCons(t: Text, w: Window, ws: seq<Window>)
    requires InText(t, ws) && w.lo <= w.hi <= |t|
    ensures InText(t, [w] + ws)
  {
  }

  lemma {:induction false} WindowsInText(t: Text, cursor: nat, o: Options)
    requires Normal(o)
    ensures InText(t, Windows(t, cursor, o))
    decreases |t| - cursor
  {
    if cursor < |t| {
      var end := EndOf(t, cursor, o);
      if end < |t| {
        WindowsInText(t, end - o.overlap, o);
        InTextCons(t, Window(cursor, end), Windows(t, end - o.overlap, o));
      }
    }
  }

  /** What Split returns. */
  function SplitOf(body: Text, opts: Options): seq<Chunk> {
    var o := Normalise(opts);
    var t := TrimSpace(body);
    if t == [] then [Chunk(0, [])]
    else if |t| <= o.maxChars then [Chunk(0, t)]
    else LongChunks(t, o)
  }

  lemma SpansStep(t: Text, ws: seq<Window>, w: Window)
    requires InText(t, ws) && w.lo <= w.hi <= |t|
    ensures InText(t, ws + [w])
    ensures Spans(t, ws + [w]) == Spans(t, ws) + (if TrimWindow(t, w).lo < TrimWindow(t, w).hi then [TrimWindow(t, w)] else [])
  {
    assert (ws + [w])[..|ws|] == ws;
  }

  lemma ChunksStep(t: Text, ss: seq<Window>, v: Window)
    requires InText(t, ss) && v.lo <= v.hi <= |t|
    ensures InText(t, ss + [v])
    ensures ChunksAt(t, ss + [v]) == ChunksAt(t, ss) + [Chunk(|ss|, Slice(t, v))]
  {
  }

  /** The body of the loop: trims one window and keeps it unless nothing is left. */
  method AppendPiece(t: Text, w: Window, ghost done: seq<Window>, out: seq<Chunk>, idx: nat)
      returns (out': seq<Chunk>, idx': nat)
    requires InText(t, done) && w.lo <= w.hi <= |t|
    requires out == ChunksAt(t, Spans(t, done)) && idx == |out|
    ensures InText(t, done + [w])
    ensures out' == ChunksAt(t, Spans(t, done + [w])) && idx' == |out'|
  {
    out', idx' := out, idx;
    SpansStep(t, done, w);
    var piece := Slice(t, TrimWindow(t, w));
    if piece != [] {
      ChunksStep(t, Spans(t, done), TrimWindow(t, w));
      out', idx' := out + [Chunk(idx, piece)], idx + 1;
    }
  }

  predicate IsWindow(t: Text, o: Options, w: Window)
    requires Normal(o)
  {
    w.lo < |t| && w.hi == EndOf(t, w.lo, o)
  }

  /** Window `w` is cut after `v`. */
  predicate Follows(t: Text, o: Options, v: Window, w: Window) {
    v.hi < |t| && w.lo == v.hi - o.overlap
  }

  /** Windows cut one after the other from `from`, each starting before the end of the text. */
  ghost predicate Linked(t: Text, o: Options, from: nat, ws: seq<Window>)
    requires Normal(o)
  {
    && (ws != [] ==> ws[0].lo == from)
    && (forall i :: 0 <= i < |ws| ==> IsWindow(t, o, ws[i]))
    && (forall i, j :: 0 <= i && j == i + 1 < |ws| ==> Follows(t, o, ws[i], ws[j]))
  }

  /** Linked windows that reach the end of the text. */
  ghost predicate Complete(t: Text, o: Options, from: nat, ws: seq<Window>)
    requires Normal(o)
  {
    Linked(t, o, from, ws) && ws != [] && ws[|ws| - 1].hi == |t|
  }

  lemma {:induction false} WindowsComplete(t: Text, o: Options, from: nat)
    requires Normal(o) && from < |t|
    ensures Complete(t, o, from, Windows(t, from, o))
    decreases |t| - from
  {
    var end := EndOf(t, from, o);
    if end < |t| {
      var rest := Windows(t, end - o.overlap, o);
      WindowsComplete(t, o, end - o.overlap);
      LinkedCons(t, o, from, rest);
      assert Windows(t, from, o) == [Window(from, end)] + rest;
    } else {
      LinkedLast(t, o, from);
      assert Windows(t, from, o) == [Window(from, end)];
    }
  }

  lemma LinkedLast(t: Text, o: Options, from: nat)
    requires Normal(o) && from < |t| && EndOf(t, from, o) == |t|
    ensures Complete(t, o, from, [Window(from, |t|)])
  {
  }

  lemma LinkedCons(t: Text, o: Options, from: nat, ws: seq<Window>)
    requires Normal(o) && from < |t| && EndOf(t, from, o) < |t|
    requires Complete(t, o, EndOf(t, from, o) - o.overlap, ws)
    ensures Complete(t, o, from, [Window(from, EndOf(t, from, o))] + ws)
  {
    var all := [Window(from, EndOf(t, from, o))] + ws;
    assert forall i :: 0 < i < |all| ==> all[i] == ws[i - 1];
    forall i, j | 0 <= i && j == i + 1 < |all|
      ensures Follows(t, o, all[i], all[j])
    {
      if i > 0 {
        assert Follows(t, o, ws[i - 1], ws[i]);
      }
    }
    assert all[|all| - 1] == ws[|ws| - 1];
  }

  lemma LinkedNext(t: Text, o: Options, from: nat, ws: seq<Window>, i: nat, j: nat)
    requires Normal(o) && Linked(t, o, from, ws) && j == i + 1 < |ws|
    ensures ws[i].hi < |t| && ws[j].lo == ws[i].hi - o.overlap && ws[j].lo > ws[i].lo
  {
    assert Follows(t, o, ws[i], ws[j]) && IsWindow(t, o, ws[i]);
  }

  /** The cut is determined: two complete cuts of one text are the same. */
  lemma CompleteUnique(t: Text, o: Options, from: nat, ws: seq<Window>, vs: seq<Window>)
    requires Normal(o) && Complete(t, o, from, ws) && Complete(t, o, from, vs)
    ensures ws == vs
  {
    var last := if |ws| <= |vs| then |ws| - 1 else |vs| - 1;
    SameAt(t, o, from, ws, vs, last);
    if last + 1 < |ws| {
      LinkedNext(t, o, from, ws, last, last + 1);
    }
    if last + 1 < |vs| {
      LinkedNext(t, o, from, vs, last, last + 1);
    }
    forall i | 0 <= i < |ws| ensures ws[i] == vs[i] {
      SameAt(t, o, from, ws, vs, i);
    }
  }

  lemma {:induction false} SameAt(t: Text, o: Options, from: nat, ws: seq<Window>, vs: seq<Window>, i: nat)
    requires Normal(o) && Linked(t, o, from, ws) && Linked(t, o, from, vs)
    requires i < |ws| && i < |vs|
    ensures ws[i] == vs[i]
  {
    assert IsWindow(t, o, ws[i]) && IsWindow(t, o, vs[i]);
    if i > 0 {
      SameAt(t, o, from, ws, vs, i - 1);
      assert Follows(t, o, ws[i - 1], ws[i]) && Follows(t, o, vs[i - 1], vs[i]);
    }
  }

  method Split(body: Text, opts: Options) returns (out: seq<Chunk>)
    ensures out == SplitOf(body, opts)
  {
    var o := Normalise(opts);
    var t := TrimSpace(body);
    if t == [] {
      return [Chunk(0, [])];
    }
    if |t| <= o.maxChars {
      return [Chunk(0, t)];
    }
    out := SplitLong(t, o);
    FirstChunk(body, o);
    var whole := [Chunk(0, t)];
    if |out| == 0 {
      out := whole;
    }
  }

  /** The chunk loop. */
  method SplitLong(t: Text, o: Options) returns (out: seq<Chunk>)
    requires Normal(o) && |t| > 0
    ensures out == LongChunks(t, o)
  {
    out := [];
    var idx: nat, cursor: nat := 0, 0;
    ghost var done: seq<Window> := [];
    while cursor < |t|
      invariant cursor < |t| && Linked(t, o, 0, done) && NextIs(t, o, done, cursor)
      invariant InText(t, done) && out == ChunksAt(t, Spans(t, done)) && idx == |out|
      decreases |t| - cursor
    {
      var end := WindowEnd(t, cursor, o);
      out, idx := AppendPiece(t, Window(cursor, end), done, out, idx);
      LinkedAppend(t, o, done, cursor);
      done := done + [Window(cursor, end)];
      if end >= |t| {
        break;
      }
      var next := end - o.overlap;
      if next <= cursor {
        next := end;
      }
      cursor := next;
    }
    CutIsWindows(t, o, done);
  }

  method WindowEnd(t: Text, cursor: nat, o: Options) returns (end: nat)
    requires Normal(o) && cursor < |t|
    ensures end == EndOf(t, cursor, o)
  {
    var target := Min(cursor + o.targetChars, |t|);
    // Try to extend to a clean boundary up to the maximum.
    var hardEnd := Min(cursor + o.maxChars, |t|);
    end := PreferBoundary(t, target, hardEnd);
  }

  lemma CutIsWindows(t: Text, o: Options, done: seq<Window>)
    requires Normal(o) && |t| > 0 && Complete(t, o, 0, done) && InText(t, done)
    ensures ChunksAt(t, Spans(t, done)) == LongChunks(t, o)
  {
    WindowsComplete(t, o, 0);
    CompleteUnique(t, o, 0, done, Windows(t, 0, o));
  }

  /** The cursor after the windows `done`. */
  ghost predicate NextIs(t: Text, o: Options, done: seq<Window>, cursor: nat) {
    if done == [] then cursor == 0
    else done[|done| - 1].hi < |t| && cursor == done[|done| - 1].hi - o.overlap
  }

  lemma LinkedAppend(t: Text, o: Options, done: seq<Window>, cursor: nat)
    requires Normal(o) && cursor < |t| && Linked(t, o, 0, done) && NextIs(t, o, done, cursor)
    ensures Linked(t, o, 0, done + [Window(cursor, EndOf(t, cursor, o))])
  {
  }

  /** A trimmed body that is not empty starts with a rune that survives trimming. */
  lemma FirstChunk(body: Text, o: Options)
    requires Normal(o) && TrimSpace(body) != []
    ensures LongChunks(TrimSpace(body), o) != []
  {
    var t := TrimSpace(body);
    assert !IsSpace(t[0]);
    WindowsInText(t, 0, o);
    WindowsComplete(t, o, 0);
    var ws := Windows(t, 0, o);
    assert ws[0].lo <= 0 < ws[0].hi;
    TrimKeeps(t, ws[0], 0);
    SpansNonEmpty(t, ws, 0);
  }

  lemma {:induction false} SpansNonEmpty(t: Text, ws: seq<Window>, i: nat)
    requires InText(t, ws) && i < |ws| && TrimWindow(t, ws[i]).lo < TrimWindow(t, ws[i]).hi
    ensures Spans(t, ws) != []
  {
    if i < |ws| - 1 {
      SpansNonEmpty(t, ws[..|ws| - 1], i);
    }
  }
}
