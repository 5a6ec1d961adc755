/** internal/rerank: the second ranking of fused candidates. */
module Rerank {
  import opened Wrappers
  import opened Order
  import opened Utf8

  type Token = Bytes

  /** What the scorer takes from the standard library: unicode tables and a square root. */
  datatype Library = Library(isWord: Rune -> bool, toLower: Rune -> Rune, sqrt: real -> real)

  /** All that scoring needs of a square root in order to divide by it. */
  ghost predicate IsPositive(sqrt: real -> real) {
    forall x: real :: x > 0.0 ==> sqrt(x) > 0.0
  }

  /** In exact arithmetic a square root is the non-negative number whose square is its argument. */
  ghost predicate IsRoot(sqrt: real -> real) {
    IsPositive(sqrt) && forall x: real :: x >= 0.0 ==> sqrt(x) >= 0.0 && sqrt(x) * sqrt(x) == x
  }

  datatype Candidate = Candidate(chunkId: string, docId: string, snippet: Bytes, priorScore: real, priorRank: int)

  datatype Scored = Scored(candidate: Candidate, rerankScore: real)

  datatype RerankError = SidecarFailed | WrongScoreCount

  /** The two implementations; `answer` stands for the sidecar: its reply to a query and passages. */
  datatype Reranker =
    | Heuristic(targetSnippetTokens: int)
    | CrossEncoder(answer: (Bytes, seq<Bytes>) -> Option<seq<real>>)

  // ---------- tokens ----------

  function Lower(u: Library, run: seq<Rune>): (ls: seq<Rune>)
    ensures |ls| == |run|
  {
    seq<Rune>(|run|, i requires 0 <= i < |run| => u.toLower(run[i]))
  }

  function TokenOf(u: Library, run: seq<Rune>): Token {
    EncodeAll(Lower(u, run))
  }

  /** The word runes at the end of `rs`. */
  function Open(u: Library, rs: seq<Rune>): (run: seq<Rune>)
    ensures |run| <= |rs|
  {
    if rs == [] || !u.isWord(rs[|rs| - 1]) then [] else Open(u, rs[..|rs| - 1]) + [rs[|rs| - 1]]
  }

  function Flushed(u: Library, run: seq<Rune>): set<Token> {
    if run == [] then {} else {TokenOf(u, run)}
  }

  /** The tokens that a rune outside of words has ended. */
  function Closed(u: Library, rs: seq<Rune>): set<Token> {
    if rs == [] then {} else
    var n := |rs| - 1;
    Closed(u, rs[..n]) + (if u.isWord(rs[n]) then {} else Flushed(u, Open(u, rs[..n])))
  }

  function Tokens(u: Library, rs: seq<Rune>): set<Token> {
    Closed(u, rs) + Flushed(u, Open(u, rs))
  }

  method TokenSet(u: Library, s: Bytes) returns (out: set<Token>)
    ensures out == Tokens(u, Runes(s))
  {
    if s == [] {
      return {};
    }
    out := {};
    var b: Bytes := [];
    var pos := 0;
    ghost var seen: seq<Rune> := [];
    assert s[0..] == s;
    while pos < |s|
      invariant pos <= |s| && Runes(s) == seen + Runes(s[pos..])
      invariant out == Closed(u, seen) && b == TokenOf(u, Open(u, seen))
      decreases |s| - pos
    {
      var d := DecodeRune(s[pos..]);
      var r := RuneOf(d.sym);
      ReadOn(s, pos, seen);
      out, b := Consume(u, out, b, seen, r);
      seen := seen + [r];
      pos := pos + d.size;
    }
    assert Runes(s) == seen;
    out, b := Flush(u, out, b, Open(u, seen));
  }

  lemma ReadOn(s: Bytes, pos: nat, seen: seq<Rune>)
    requires pos < |s| && Runes(s) == seen + Runes(s[pos..])
    ensures var d := DecodeRune(s[pos..]);
      Runes(s) == seen + [RuneOf(d.sym)] + Runes(s[pos + d.size..])
  {
    NextRune(s, pos);
    var d := DecodeRune(s[pos..]);
    assert seen + ([RuneOf(d.sym)] + Runes(s[pos + d.size..])) == seen + [RuneOf(d.sym)] + Runes(s[pos + d.size..]);
  }

  /** The loop body: a word rune extends the token under way, any other rune ends it. */
  method Consume(u: Library, out: set<Token>, b: Bytes, ghost seen: seq<Rune>, r: Rune)
      returns (out': set<Token>, b': Bytes)
    requires out == Closed(u, seen) && b == TokenOf(u, Open(u, seen))
    ensures out' == Closed(u, seen + [r]) && b' == TokenOf(u, Open(u, seen + [r]))
  {
    assert (seen + [r])[..|seen|] == seen;
    if u.isWord(r) {
      out', b' := out, b + Encode(u.toLower(r));
      TokenGrows(u, Open(u, seen), r);
    } else {
      out', b' := Flush(u, out, b, Open(u, seen));
    }
  }

  method Flush(u: Library, out: set<Token>, b: Bytes, ghost run: seq<Rune>) returns (out': set<Token>, b': Bytes)
    requires b == TokenOf(u, run)
    ensures out' == out + Flushed(u, run) && b' == []
  {
    if b == [] {
      return out, [];
    }
    out', b' := out + {b}, [];
  }

  lemma NextRune(s: Bytes, pos: nat)
    requires pos < |s|
    ensures var d := DecodeRune(s[pos..]);
      Runes(s[pos..]) == [RuneOf(d.sym)] + Runes(s[pos + d.size..])
  {
    var d := DecodeRune(s[pos..]);
    assert s[pos..][d.size..] == s[pos + d.size..];
  }

  lemma TokenGrows(u: Library, run: seq<Rune>, r: Rune)
    ensures TokenOf(u, run + [r]) == TokenOf(u, run) + Encode(u.toLower(r))
  {
    assert Lower(u, run + [r]) == Lower(u, run) + [u.toLower(r)];
    EncodeAllConcat(Lower(u, run), [u.toLower(r)]);
    assert EncodeAll([u.toLower(r)]) == Encode(u.toLower(r)) + EncodeAll([]);
  }

  // ---------- the heuristic score ----------

  function Denominator(u: Library, q: nat, t: nat): (d: real)
    requires IsPositive(u.sqrt)
    ensures d > 0.0
  {
    if q > 0 && t > 0 then
      PositiveRoot(u, q, t);
      u.sqrt((q * t) as real)
    else 1.0
  }

  lemma PositiveRoot(u: Library, q: nat, t: nat)
    requires IsPositive(u.sqrt) && q > 0 && t > 0
    ensures u.sqrt((q * t) as real) > 0.0
  {
    assert q * t >= 1;
    assert (q * t) as real > 0.0;
  }

  function Penalty(size: nat, target: nat): (p: real)
    requires target > 0
  {
    var excess := if size <= target then 0 else size - target;
    1.0 / (1.0 + excess as real / target as real)
  }

  /** Shared tokens over the geometric mean of the two sizes, less a penalty for long snippets. */
  function ScoreOf(u: Library, target: nat, q: set<Token>, t: set<Token>): real
    requires IsPositive(u.sqrt) && target > 0
  {
    |q * t| as real / Denominator(u, |q|, |t|) * Penalty(|t|, target)
  }

  function EffectiveTarget(target: int): (t: nat)
    ensures t > 0
  {
    if target <= 0 then 60 else target
  }

  function HeuristicScore(u: Library, target: int, query: Bytes, snippet: Bytes): real
    requires IsPositive(u.sqrt)
  {
    ScoreOf(u, EffectiveTarget(target), Tokens(u, Runes(query)), Tokens(u, Runes(snippet)))
  }

  function HeuristicScores(u: Library, target: int, query: Bytes, cands: seq<Candidate>): (scores: seq<real>)
    requires IsPositive(u.sqrt)
    ensures |scores| == |cands|
  {
    seq(|cands|, i requires 0 <= i < |cands| => HeuristicScore(u, target, query, cands[i].snippet))
  }

  // ---------- the stable sort ----------

  function Attach(cands: seq<Candidate>, scores: seq<real>): (xs: seq<Scored>)
    requires |cands| == |scores|
    ensures |xs| == |cands|
  {
    seq(|cands|, i requires 0 <= i < |cands| => Scored(cands[i], scores[i]))
  }

  /** A stable sort compares positions when everything else is equal. */
  datatype Placed = Placed(entry: Scored, place: nat)

  predicate Better(x: Scored, y: Scored) {
    if x.rerankScore != y.rerankScore then x.rerankScore > y.rerankScore
    else x.candidate.priorRank < y.candidate.priorRank
  }

  predicate PlacedBefore(x: Placed, y: Placed) {
    Better(x.entry, y.entry) || (!Better(y.entry, x.entry) && x.place < y.place)
  }

  function Place(xs: seq<Scored>): (ps: seq<Placed>)
    ensures |ps| == |xs|
    ensures forall i :: 0 <= i < |ps| ==> ps[i] == Placed(xs[i], i)
  {
    seq(|xs|, i requires 0 <= i < |xs| => Placed(xs[i], i))
  }

  function Unplace(ps: seq<Placed>): (xs: seq<Scored>)
    ensures |xs| == |ps|
    ensures forall i :: 0 <= i < |xs| ==> xs[i] == ps[i].entry
  {
    seq(|ps|, i requires 0 <= i < |ps| => ps[i].entry)
  }

  lemma PlacedTotal(xs: seq<Scored>)
    ensures TotalOn(PlacedBefore, Elems(Place(xs)))
  {
  }

  ghost function StableOrder(xs: seq<Scored>): (ps: seq<Placed>)
    ensures Elems(ps) == Elems(Place(xs))
  {
    PlacedTotal(xs);
    SortSet(PlacedBefore, Elems(Place(xs)))
  }

  /** Descending by score, then ascending by prior rank, then as before. */
  ghost function StableSorted(xs: seq<Scored>): seq<Scored> {
    Unplace(StableOrder(xs))
  }

  /** sort.SliceStable. */
  method SortStable(xs: seq<Scored>) returns (ys: seq<Scored>)
    ensures ys == StableSorted(xs)
  {
    PlacedTotal(xs);
    var ps := Sort(PlacedBefore, Place(xs));
    ys := Unplace(ps);
  }

  // ---------- Rerank ----------

  function Cutoff(topN: int, n: nat): (k: nat) {
    if topN <= 0 then n else topN
  }

  function Snippets(cands: seq<Candidate>): (ss: seq<Bytes>)
    ensures |ss| == |cands|
  {
    seq(|cands|, i requires 0 <= i < |cands| => cands[i].snippet)
  }

  /** The scores a reranker gives to the candidates, in their order. */
  function ScoresOf(u: Library, r: Reranker, query: Bytes, cands: seq<Candidate>): (scores: Result<seq<real>, RerankError>)
    requires IsPositive(u.sqrt)
    ensures scores.Ok? ==> |scores.value| == |cands|
  {
    match r
    case Heuristic(target) => Ok(HeuristicScores(u, target, query, cands))
    case CrossEncoder(answer) =>
      if cands == [] then Ok([]) else
      match answer(query, Snippets(cands))
      case None => Err(SidecarFailed)
      case Some(scores) => if |scores| != |cands| then Err(WrongScoreCount) else Ok(scores)
  }

  ghost function RerankOf(u: Library, r: Reranker, query: Bytes, cands: seq<Candidate>, topN: int)
      : Result<seq<Scored>, RerankError>
    requires IsPositive(u.sqrt)
  {
    match ScoresOf(u, r, query, cands)
    case Err(e) => Err(e)
    case Ok(scores) => Ok(Take(StableSorted(Attach(cands, scores)), Cutoff(topN, |cands|)))
  }

  method Rerank(u: Library, r: Reranker, query: Bytes, cands: seq<Candidate>, topN: int)
      returns (out: Result<seq<Scored>, RerankError>)
    requires IsPositive(u.sqrt)
    ensures out == RerankOf(u, r, query, cands, topN)
  {
    match r
    case Heuristic(target) =>
      var scored := RerankHeuristic(u, target, query, cands, topN);
      out := Ok(scored);
    case CrossEncoder(answer) =>
      out := RerankCrossEncoder(u, answer, query, cands, topN);
  }

  /** HeuristicReranker.Rerank. */
  method RerankHeuristic(u: Library, target: int, query: Bytes, cands: seq<Candidate>, topN: int)
      returns (out: seq<Scored>)
    requires IsPositive(u.sqrt)
    ensures Ok(out) == RerankOf(u, Heuristic(target), query, cands, topN)
  {
    var n := if topN <= 0 then |cands| else topN;
    out := ScoreAll(u, target, query, cands);
    assert out == Attach(cands, HeuristicScores(u, target, query, cands));
    out := SortStable(out);
    if |out| > n {
      out := out[..n];
    }
  }

  method ScoreAll(u: Library, target: int, query: Bytes, cands: seq<Candidate>) returns (out: seq<Scored>)
    requires IsPositive(u.sqrt)
    ensures |out| == |cands| && forall j :: 0 <= j < |out| ==> IsScored(u, target, query, cands[j], out[j])
  {
    var want := if target <= 0 then 60 else target;
    var qTokens := TokenSet(u, query);
    out := [];
    for i := 0 to |cands|
      invariant |out| == i && forall j :: 0 <= j < i ==> IsScored(u, target, query, cands[j], out[j])
    {
      var s := ScoreOne(u, target, want, query, qTokens, cands[i]);
      out := out + [s];
    }
  }

  predicate IsScored(u: Library, target: int, query: Bytes, c: Candidate, s: Scored)
    requires IsPositive(u.sqrt)
  {
    s == Scored(c, HeuristicScore(u, target, query, c.snippet))
  }

  method ScoreOne(u: Library, ghost target: int, want: nat, ghost query: Bytes, qTokens: set<Token>, c: Candidate)
      returns (s: Scored)
    requires IsPositive(u.sqrt) && want == EffectiveTarget(target) && qTokens == Tokens(u, Runes(query))
    ensures IsScored(u, target, query, c, s)
  {
    var sTokens := TokenSet(u, c.snippet);
    var overlap := Overlap(qTokens, sTokens);
    var denom := MeanSize(u, |qTokens|, |sTokens|);
    var penalty := SizePenalty(|sTokens|, want);
    s := Scored(c, overlap as real / denom * penalty);
  }

  method MeanSize(u: Library, q: nat, t: nat) returns (denom: real)
    requires IsPositive(u.sqrt)
    ensures denom == Denominator(u, q, t)
  {
    denom := 1.0;
    if q > 0 && t > 0 {
      denom := u.sqrt((q * t) as real);
    }
  }

  method SizePenalty(size: nat, target: nat) returns (penalty: real)
    requires target > 0
    ensures penalty == Penalty(size, target)
  {
    var excess := size - target;
    if excess < 0 {
      excess := 0;
    }
    penalty := 1.0 / (1.0 + excess as real / target as real);
  }

  method Overlap(q: set<Token>, t: set<Token>) returns (overlap: nat)
    ensures overlap == |q * t|
  {
    overlap := 0;
    var rest := q;
    while rest != {}
      invariant rest <= q && overlap == |(q - rest) * t|
    {
      var tok :| tok in rest;
      SharedNext(q, t, rest, tok);
      rest := rest - {tok};
      if tok in t {
        overlap := overlap + 1;
      }
    }
    assert q - {} == q;
  }

  lemma SharedNext(q: set<Token>, t: set<Token>, rest: set<Token>, tok: Token)
    requires rest <= q && tok in rest
    ensures |(q - (rest - {tok})) * t| == |(q - rest) * t| + (if tok in t then 1 else 0)
  {
    var before, after := (q - rest) * t, (q - (rest - {tok})) * t;
    if tok in t {
      assert after == before + {tok};
    } else {
      assert after == before;
    }
  }

  /** CrossEncoderReranker.Rerank. */
  method RerankCrossEncoder(u: Library, answer: (Bytes, seq<Bytes>) -> Option<seq<real>>, query: Bytes,
                            cands: seq<Candidate>, topN: int)
      returns (out: Result<seq<Scored>, RerankError>)
    requires IsPositive(u.sqrt)
    ensures out == RerankOf(u, CrossEncoder(answer), query, cands, topN)
  {
    if |cands| == 0 {
      NothingSorted(cands);
      return Ok([]);
    }
    var n := if topN <= 0 then |cands| else topN;
    var passages: seq<Bytes> := [];
    for i := 0 to |cands|
      invariant |passages| == i
      invariant forall j :: 0 <= j < i ==> passages[j] == cands[j].snippet
    {
      passages := passages + [cands[i].snippet];
    }
    assert passages == Snippets(cands);
    var reply := answer(query, passages);
    if reply.None? {
      return Err(SidecarFailed);
    }
    if |reply.value| != |cands| {
      return Err(WrongScoreCount);
    }
    assert ScoresOf(u, CrossEncoder(answer), query, cands) == Ok(reply.value);
    var scored := SortStable(Attach(cands, reply.value));
    if |scored| > n {
      scored := scored[..n];
    }
    out := Ok(scored);
  }

  lemma NothingSorted(cands: seq<Candidate>)
    requires cands == []
    ensures StableSorted(Attach(cands, [])) == []
  {
    PlacedTotal([]);
    assert Elems(Place([])) == {};
  }
}
