/** What the rerankers promise for every query and candidate list. */
module RerankTheorems {
  import opened Wrappers
  import opened Order
  import opened Utf8
  import opened Rerank

  // ---------- tokens ----------

  /** Runes i..j are a whole word: all word runes, and none just before or after. */
  ghost predicate IsWord(u: Library, rs: seq<Rune>, i: nat, j: nat) {
    && i < j <= |rs|
    && (forall k :: i <= k < j ==> u.isWord(rs[k]))
    && (i > 0 ==> !u.isWord(rs[i - 1]))
    && (j < |rs| ==> !u.isWord(rs[j]))
  }

  lemma {:induction false} OpenIsSuffix(u: Library, rs: seq<Rune>)
    ensures var i := |rs| - |Open(u, rs)|;
      && Open(u, rs) == rs[i..]
      && (forall k :: i <= k < |rs| ==> u.isWord(rs[k]))
      && (i > 0 ==> !u.isWord(rs[i - 1]))
  {
    if rs != [] && u.isWord(rs[|rs| - 1]) {
      OpenIsSuffix(u, rs[..|rs| - 1]);
    }
  }

  lemma SameStart(u: Library, rs: seq<Rune>, i: nat, k: nat, n: nat)
    requires i <= n <= |rs| && k <= n
    requires forall p :: i <= p < n ==> u.isWord(rs[p])
    requires forall p :: k <= p < n ==> u.isWord(rs[p])
    requires (i > 0 ==> !u.isWord(rs[i - 1])) && (k > 0 ==> !u.isWord(rs[k - 1]))
    ensures i == k
  {
  }

  /** A word that ends before the end of the text has been closed. */
  lemma {:induction false} EndedWordClosed(u: Library, rs: seq<Rune>, i: nat, j: nat)
    requires IsWord(u, rs, i, j) && j < |rs|
    ensures TokenOf(u, rs[i..j]) in Closed(u, rs)
  {
    var n := |rs| - 1;
    if j == n {
      OpenIsSuffix(u, rs[..n]);
      var k := n - |Open(u, rs[..n])|;
      SameStart(u, rs[..n], i, k, n);
      assert rs[..n][k..] == rs[i..j];
    } else {
      assert rs[..n][i..j] == rs[i..j];
      EndedWordClosed(u, rs[..n], i, j);
    }
  }

  lemma JustClosed(u: Library, rs: seq<Rune>, i: nat)
    requires rs != [] && !u.isWord(rs[|rs| - 1])
    requires Open(u, rs[..|rs| - 1]) != [] && i == |rs| - 1 - |Open(u, rs[..|rs| - 1])|
    ensures IsWord(u, rs, i, |rs| - 1) && Open(u, rs[..|rs| - 1]) == rs[i..|rs| - 1]
  {
    var n := |rs| - 1;
    OpenIsSuffix(u, rs[..n]);
    assert rs[..n][i..] == rs[i..n];
  }

  lemma {:induction false} ClosedIsWord(u: Library, rs: seq<Rune>, t: Token) returns (i: nat, j: nat)
    requires t in Closed(u, rs)
    ensures j < |rs| && IsWord(u, rs, i, j) && t == TokenOf(u, rs[i..j])
  {
    var n := |rs| - 1;
    if t in Closed(u, rs[..n]) {
      i, j := ClosedIsWord(u, rs[..n], t);
      assert rs[..n][i..j] == rs[i..j];
    } else {
      i, j := n - |Open(u, rs[..n])|, n;
      JustClosed(u, rs, i);
    }
  }

  /** The token set holds exactly the lower-cased words of the text. */
  lemma TokensAreWords(u: Library, rs: seq<Rune>, t: Token)
    ensures t in Tokens(u, rs) <==> exists i: nat, j: nat :: IsWord(u, rs, i, j) && t == TokenOf(u, rs[i..j])
  {
    OpenIsSuffix(u, rs);
    var k := |rs| - |Open(u, rs)|;
    assert rs[k..|rs|] == rs[k..];
    if t in Tokens(u, rs) {
      if t in Closed(u, rs) {
        var i, j := ClosedIsWord(u, rs, t);
      } else {
        assert IsWord(u, rs, k, |rs|);
      }
    }
    forall i: nat, j: nat | IsWord(u, rs, i, j) && t == TokenOf(u, rs[i..j]) ensures t in Tokens(u, rs) {
      if j < |rs| {
        EndedWordClosed(u, rs, i, j);
      } else {
        LastWord(u, rs, i);
      }
    }
  }

  /** A token reads back as its word with every rune mapped to lower case. */
  lemma TokenReadsBack(u: Library, rs: seq<Rune>, i: nat, j: nat)
    requires i <= j <= |rs|
    ensures EncodeAll(Runes(TokenOf(u, rs[i..j]))) == TokenOf(u, rs[i..j])
    ensures |Runes(TokenOf(u, rs[i..j]))| == j - i
    ensures forall k :: 0 <= k < j - i ==> Runes(TokenOf(u, rs[i..j]))[k] == u.toLower(rs[i + k])
  {
    SymsOfEncoded(Lower(u, rs[i..j]));
  }

  /** The token set in full: valid texts whose runes are the lower-cased runes of some maximal word. */
  lemma TokensAreLowered(u: Library, rs: seq<Rune>, t: Token)
    ensures t in Tokens(u, rs) <==> exists i: nat, j: nat :: IsWord(u, rs, i, j) && Lowered(u, rs, i, j, t)
  {
    TokensAreWords(u, rs, t);
    forall i: nat, j: nat | IsWord(u, rs, i, j) ensures t == TokenOf(u, rs[i..j]) <==> Lowered(u, rs, i, j, t) {
      TokenReadsBack(u, rs, i, j);
      if Lowered(u, rs, i, j, t) {
        assert Runes(t) == Runes(TokenOf(u, rs[i..j]));
      }
    }
  }

  ghost predicate Lowered(u: Library, rs: seq<Rune>, i: nat, j: nat, t: Token)
    requires i <= j <= |rs|
  {
    EncodeAll(Runes(t)) == t && |Runes(t)| == j - i && forall k :: 0 <= k < j - i ==> Runes(t)[k] == u.toLower(rs[i + k])
  }

  lemma LastWord(u: Library, rs: seq<Rune>, i: nat)
    requires IsWord(u, rs, i, |rs|)
    ensures Open(u, rs) == rs[i..]
  {
    OpenIsSuffix(u, rs);
    SameStart(u, rs, i, |rs| - |Open(u, rs)|, |rs|);
  }

  lemma {:induction false} OpenAfterSeparator(u: Library, a: seq<Rune>, r: Rune, b: seq<Rune>)
    requires !u.isWord(r)
    ensures Open(u, a + [r] + b) == Open(u, b)
    ensures Closed(u, a + [r] + b) == Closed(u, a) + Flushed(u, Open(u, a)) + Closed(u, b)
  {
    var all := a + [r] + b;
    if b == [] {
      assert all[..|a|] == a;
    } else {
      var n := |b| - 1;
      assert all[..|all| - 1] == a + [r] + b[..n];
      OpenAfterSeparator(u, a, r, b[..n]);
    }
  }

  /** Text around a separator has the tokens of both sides and no others, whatever the bytes are. */
  lemma TokensOfJoined(u: Library, a: Bytes, r: Rune, b: Bytes)
    requires !u.isWord(r)
    ensures Tokens(u, Runes(a + Encode(r) + b)) == Tokens(u, Runes(a)) + Tokens(u, Runes(b))
  {
    RunesOfJoined(a, r, b);
    OpenAfterSeparator(u, Runes(a), r, Runes(b));
  }

  lemma RunesOfJoined(a: Bytes, r: Rune, b: Bytes)
    ensures Runes(a + Encode(r) + b) == Runes(a) + [r] + Runes(b)
  {
    SymsAround(a, r, b);
  }

  // ---------- the heuristic score ----------

  lemma SquaresOrder(a: real, b: real)
    requires a >= 0.0 && b >= 0.0
    ensures a * a <= b * b <==> a <= b
  {
    if a + b > 0.0 {
      ScaleOrder(a, b, a + b);
      assert a * (a + b) == a * a + a * b && b * (a + b) == a * b + b * b;
    }
  }

  lemma ProductOrder(a: nat, b: nat, c: nat, d: nat)
    requires a <= c && b <= d
    ensures a * b <= c * d
    ensures a * b == c * d && c > 0 && d > 0 ==> a == c && b == d
  {
    assert c * d - a * b == (c - a) * d + a * (d - b);
  }

  lemma ScaleOrder(a: real, b: real, d: real)
    requires d > 0.0
    ensures a <= b <==> a * d <= b * d
  {
    assert b * d - a * d == (b - a) * d;
  }

  /** The shared tokens are at most the geometric mean, and reach it only for equal sets. */
  lemma OverlapBelowMean(u: Library, q: set<Token>, t: set<Token>)
    requires IsRoot(u.sqrt) && q != {} && t != {}
    ensures |q * t| as real <= Denominator(u, |q|, |t|)
    ensures |q * t| as real == Denominator(u, |q|, |t|) <==> q == t
  {
    var o, d := |q * t|, Denominator(u, |q|, |t|);
    SharedSize(q, t);
    ProductOrder(o, o, |q|, |t|);
    assert d * d == (|q| * |t|) as real && o as real * o as real == (o * o) as real;
    SquaresOrder(o as real, d);
    if o as real == d {
      assert o * o == |q| * |t|;
    }
    if q == t {
      assert q * t == q;
      SquaresOrder(d, o as real);
    }
  }

  lemma SharedSize(q: set<Token>, t: set<Token>)
    ensures |q * t| <= |q| && |q * t| <= |t|
    ensures |q * t| == |q| && |q * t| == |t| ==> q == t
  {
    SubsetCard(q * t, q);
    SubsetCard(q * t, t);
  }

  lemma {:induction false} SubsetCard(a: set<Token>, b: set<Token>)
    requires a <= b
    ensures |a| <= |b| && (|a| == |b| ==> a == b)
  {
    if b != {} {
      var x :| x in b;
      SubsetCard(a - {x}, b - {x});
      if x in a {
        assert a == (a - {x}) + {x};
      } else {
        assert a - {x} == a;
      }
    }
  }

  lemma PenaltyRange(size: nat, target: nat)
    requires target > 0
    ensures 0.0 < Penalty(size, target) <= 1.0
    ensures Penalty(size, target) == 1.0 <==> size <= target
  {
    if size > target {
      var e := (size - target) as real / target as real;
      assert e > 0.0;
      Inverse(1.0, 1.0 + e);
    }
  }

  lemma Inverse(a: real, b: real)
    requires 0.0 < a <= b
    ensures 0.0 < 1.0 / b <= 1.0 / a
    ensures a < b ==> 1.0 / b < 1.0 / a
  {
    var x, y := 1.0 / a, 1.0 / b;
    assert x * a == 1.0 && y * b == 1.0;
    assert y * b >= y * a;
  }

  lemma Fraction(x: real, d: real)
    requires 0.0 <= x <= d && d > 0.0
    ensures 0.0 <= x / d <= 1.0
    ensures x / d == 1.0 <==> x == d
  {
    var y := x / d;
    assert y * d == x;
    ScaleOrder(y, 1.0, d);
    ScaleOrder(0.0, y, d);
  }

  lemma UnitProduct(x: real, y: real)
    requires 0.0 <= x <= 1.0 && 0.0 < y <= 1.0
    ensures 0.0 <= x * y <= 1.0
    ensures x * y == 1.0 <==> x == 1.0 && y == 1.0
  {
    assert x * y <= x * 1.0;
    assert x * y <= 1.0 * y;
  }

  lemma NoneShared(u: Library, target: nat, q: set<Token>, t: set<Token>)
    requires IsRoot(u.sqrt) && target > 0 && q * t == {}
    ensures ScoreOf(u, target, q, t) == 0.0
  {
  }

  /** A score lies in [0, 1], and is 1 exactly for a snippet with the query's tokens that is not too long. */
  lemma ScoreRange(u: Library, target: nat, q: set<Token>, t: set<Token>)
    requires IsRoot(u.sqrt) && target > 0
    ensures 0.0 <= ScoreOf(u, target, q, t) <= 1.0
    ensures ScoreOf(u, target, q, t) == 1.0 <==> q == t && q != {} && |t| <= target
  {
    if q == {} || t == {} {
      NoneShared(u, target, q, t);
    } else {
      OverlapBelowMean(u, q, t);
      Fraction(|q * t| as real, Denominator(u, |q|, |t|));
      PenaltyRange(|t|, target);
      UnitProduct(|q * t| as real / Denominator(u, |q|, |t|), Penalty(|t|, target));
    }
  }

  /**
   The score in closed form, for a query and a snippet that have tokens: shared tokens over
   the geometric mean of the two counts, shrunk by target / size for a snippet over the target.
   */
  lemma ScoreValue(u: Library, target: nat, q: set<Token>, t: set<Token>)
    requires IsRoot(u.sqrt) && target > 0 && q != {} && t != {}
    ensures u.sqrt((|q| * |t|) as real) > 0.0
    ensures ScoreOf(u, target, q, t) * u.sqrt((|q| * |t|) as real) ==
      if |t| <= target then |q * t| as real else |q * t| as real * (target as real / |t| as real)
  {
    PositiveRoot(u, |q|, |t|);
    PenaltyValue(|t|, target);
    QuotientBack(|q * t| as real, u.sqrt((|q| * |t|) as real), Penalty(|t|, target));
  }

  lemma PenaltyValue(size: nat, target: nat)
    requires target > 0
    ensures Penalty(size, target) == if size <= target then 1.0 else target as real / size as real
  {
    if size > target {
      InverseExcess(target as real, size as real);
    }
  }

  lemma InverseExcess(a: real, b: real)
    requires 0.0 < a < b
    ensures 1.0 + (b - a) / a > 0.0 && 1.0 / (1.0 + (b - a) / a) == a / b
  {
    var x := (b - a) / a;
    assert x * a == b - a;
    ScaleOrder(0.0, x, a);
    var y := 1.0 / (1.0 + x);
    assert y * (1.0 + x) == 1.0;
    assert y * b == y * ((1.0 + x) * a) == y * (1.0 + x) * a == a;
  }

  lemma QuotientBack(x: real, d: real, p: real)
    requires d > 0.0
    ensures x / d * p * d == x * p
  {
    var y := x / d;
    assert y * d == x;
    assert y * p * d == y * d * p;
  }

  lemma MeanGrows(u: Library, q: nat, s: nat, t: nat)
    requires IsRoot(u.sqrt) && q > 0 && 0 < s <= t
    ensures Denominator(u, q, s) <= Denominator(u, q, t)
  {
    var a, b := Denominator(u, q, s), Denominator(u, q, t);
    ProductOrder(q, s, q, t);
    assert a * a == (q * s) as real && b * b == (q * t) as real;
    SquaresOrder(a, b);
  }

  lemma PenaltyFalls(s: nat, t: nat, target: nat)
    requires target > 0 && s <= t
    ensures Penalty(t, target) <= Penalty(s, target)
  {
    var x := if s <= target then 0 else s - target;
    var y := if t <= target then 0 else t - target;
    QuotientOrder(x as real, y as real, target as real);
    Inverse(1.0 + x as real / target as real, 1.0 + y as real / target as real);
  }

  lemma QuotientOrder(x: real, y: real, d: real)
    requires 0.0 <= x <= y && d > 0.0
    ensures 0.0 <= x / d <= y / d
  {
    var a, b := x / d, y / d;
    assert a * d == x && b * d == y;
    ScaleOrder(a, b, d);
    ScaleOrder(0.0, a, d);
  }

  lemma LargerDivisor(x: real, d: real, e: real)
    requires x >= 0.0 && 0.0 < d <= e
    ensures 0.0 <= x / e <= x / d
  {
    var a, b := x / d, x / e;
    assert a * d == x && b * e == x;
    ScaleOrder(0.0, b, e);
    assert b * e - b * d == b * (e - d);
    ScaleOrder(b, a, d);
  }

  lemma SmallerParts(x: real, y: real, p: real, r: real)
    requires 0.0 <= x <= y && 0.0 < r <= p
    ensures x * r <= y * p
  {
    assert y * p - x * r == y * (p - r) + (y - x) * r;
  }

  lemma LongerScoresLess(u: Library, target: nat, shared: nat, q: nat, s: nat, t: nat)
    requires IsRoot(u.sqrt) && target > 0 && q > 0 && 0 < s <= t
    ensures shared as real / Denominator(u, q, t) * Penalty(t, target) <=
            shared as real / Denominator(u, q, s) * Penalty(s, target)
  {
    MeanGrows(u, q, s, t);
    PenaltyFalls(s, t, target);
    PenaltyRange(t, target);
    LargerDivisor(shared as real, Denominator(u, q, s), Denominator(u, q, t));
    SmallerParts(shared as real / Denominator(u, q, t), shared as real / Denominator(u, q, s),
                 Penalty(s, target), Penalty(t, target));
  }

  /** Padding a snippet with words that the query does not contain never raises its score. */
  lemma PaddingNeverHelps(u: Library, target: nat, q: set<Token>, t: set<Token>, extra: set<Token>)
    requires IsRoot(u.sqrt) && target > 0 && extra * q == {}
    ensures ScoreOf(u, target, q, t + extra) <= ScoreOf(u, target, q, t)
  {
    assert forall x :: x in extra && x in q ==> x in extra * q;
    assert q * (t + extra) == q * t;
    if q * t == {} {
      NoneShared(u, target, q, t);
      NoneShared(u, target, q, t + extra);
    } else {
      assert q != {} && t != {};
      SubsetCard(t, t + extra);
      LongerScoresLess(u, target, |q * t|, |q|, |t|, |t + extra|);
    }
  }

  // ---------- the order of the result ----------

  /** The candidates with their scores, before sorting. */
  ghost function ScoredOf(u: Library, r: Reranker, query: Bytes, cands: seq<Candidate>): (xs: seq<Scored>)
    requires IsPositive(u.sqrt) && ScoresOf(u, r, query, cands).Ok?
    ensures |xs| == |cands|
  {
    Attach(cands, ScoresOf(u, r, query, cands).value)
  }

  lemma {:induction false} PlacesSize(xs: seq<Scored>, n: nat)
    requires n <= |xs|
    ensures |Elems(Place(xs)[..n])| == n
  {
    if n > 0 {
      PlacesSize(xs, n - 1);
      assert Place(xs)[..n] == Place(xs)[..n - 1] + [Placed(xs[n - 1], n - 1)];
      ElemsAppend(Place(xs)[..n - 1], Placed(xs[n - 1], n - 1));
    }
  }

  lemma StableSize(xs: seq<Scored>)
    ensures |StableOrder(xs)| == |xs|
  {
    PlacedTotal(xs);
    PlacesSize(xs, |xs|);
    assert Place(xs)[..|xs|] == Place(xs);
  }

  /** Position `i` of the sorted list came from some position of the original one, distinct ones from distinct ones. */
  lemma StablePlaces(xs: seq<Scored>, i: nat, j: nat)
    requires i < j < |StableOrder(xs)|
    ensures PlacedBefore(StableOrder(xs)[i], StableOrder(xs)[j])
    ensures StableOrder(xs)[i] in Place(xs) && StableOrder(xs)[j] in Place(xs)
    ensures StableOrder(xs)[i].place != StableOrder(xs)[j].place
  {
    PlacedTotal(xs);
    var ps := StableOrder(xs);
    assert ps[i] in Elems(ps) && ps[j] in Elems(ps);
  }

  lemma SortedSelects(xs: seq<Scored>, s: Scored)
    ensures |StableSorted(xs)| == |xs|
    ensures s in StableSorted(xs) ==> s in xs
  {
    StableSize(xs);
    if s in StableSorted(xs) {
      var ps := StableOrder(xs);
      var i :| 0 <= i < |ps| && ps[i].entry == s;
      assert ps[i] in Elems(ps);
    }
  }

  predicate DistinctChunks(xs: seq<Scored>) {
    forall i, j :: 0 <= i < j < |xs| ==> xs[i].candidate.chunkId != xs[j].candidate.chunkId
  }

  lemma SortedDistinctChunks(xs: seq<Scored>)
    requires DistinctChunks(xs)
    ensures DistinctChunks(StableSorted(xs))
  {
    var ys := StableSorted(xs);
    forall i, j | 0 <= i < j < |ys| ensures ys[i].candidate.chunkId != ys[j].candidate.chunkId {
      StablePlaces(xs, i, j);
    }
  }

  /** Every reranked entry is an input candidate with its own score, as many as fit, and none twice. */
  lemma RerankSelects(u: Library, r: Reranker, query: Bytes, cands: seq<Candidate>, topN: int, s: Scored)
    requires IsPositive(u.sqrt) && RerankOf(u, r, query, cands, topN).Ok?
    ensures |RerankOf(u, r, query, cands, topN).value| == if 0 < topN < |cands| then topN else |cands|
    ensures s in RerankOf(u, r, query, cands, topN).value ==> s in ScoredOf(u, r, query, cands)
    ensures DistinctChunks(ScoredOf(u, r, query, cands)) ==> DistinctChunks(RerankOf(u, r, query, cands, topN).value)
  {
    var xs := ScoredOf(u, r, query, cands);
    SortedSelects(xs, s);
    if DistinctChunks(xs) {
      SortedDistinctChunks(xs);
    }
    TakeIsPart(StableSorted(xs), Cutoff(topN, |cands|), s);
  }

  lemma TakeIsPart(xs: seq<Scored>, n: nat, s: Scored)
    ensures |Take(xs, n)| == (if n < |xs| then n else |xs|)
    ensures s in Take(xs, n) ==> s in xs
    ensures DistinctChunks(xs) ==> DistinctChunks(Take(xs, n))
  {
  }

  lemma TakePrefix<T>(xs: seq<T>, m: nat, n: nat)
    requires m <= n
    ensures Take(xs, m) <= Take(xs, n)
    ensures Take(xs, m) == Take(Take(xs, n), m)
  {
  }

  /** Asking for fewer entries returns the first of them; whether it fails does not depend on topN. */
  lemma RerankPrefix(u: Library, r: Reranker, query: Bytes, cands: seq<Candidate>, m: int, n: int)
    requires IsPositive(u.sqrt) && 1 <= m <= n
    ensures RerankOf(u, r, query, cands, n).Err? ==>
      RerankOf(u, r, query, cands, m) == RerankOf(u, r, query, cands, n)
    ensures RerankOf(u, r, query, cands, n).Ok? ==>
      RerankOf(u, r, query, cands, m) == Ok(Take(RerankOf(u, r, query, cands, n).value, m))
  {
    var scores := ScoresOf(u, r, query, cands);
    if scores.Ok? {
      TakePrefix(StableSorted(Attach(cands, scores.value)), m, n);
    }
  }

  lemma TakeAt(xs: seq<Scored>, n: nat, i: nat)
    requires i < |Take(xs, n)|
    ensures i < |xs| && Take(xs, n)[i] == xs[i]
  {
  }

  lemma StableDescends(xs: seq<Scored>, i: nat, j: nat)
    requires i < j < |StableSorted(xs)|
    ensures var x, y := StableSorted(xs)[i], StableSorted(xs)[j];
      x.rerankScore > y.rerankScore
      || (x.rerankScore == y.rerankScore && x.candidate.priorRank <= y.candidate.priorRank)
  {
    StablePlaces(xs, i, j);
  }

  /** The best score comes first; of equal scores, the candidate that was fused higher. */
  lemma BestFirst(u: Library, r: Reranker, query: Bytes, cands: seq<Candidate>, topN: int, i: nat, j: nat)
    requires IsPositive(u.sqrt) && RerankOf(u, r, query, cands, topN).Ok?
    requires i < j < |RerankOf(u, r, query, cands, topN).value|
    ensures var x, y := RerankOf(u, r, query, cands, topN).value[i], RerankOf(u, r, query, cands, topN).value[j];
      x.rerankScore > y.rerankScore
      || (x.rerankScore == y.rerankScore && x.candidate.priorRank <= y.candidate.priorRank)
  {
    var sorted := StableSorted(Attach(cands, ScoresOf(u, r, query, cands).value));
    TakeAt(sorted, Cutoff(topN, |cands|), i);
    TakeAt(sorted, Cutoff(topN, |cands|), j);
    StableDescends(Attach(cands, ScoresOf(u, r, query, cands).value), i, j);
  }

  lemma CutScoresNoHigher(xs: seq<Scored>, n: nat, s: Scored, i: nat)
    requires s in xs && s !in Take(StableSorted(xs), n) && i < |Take(StableSorted(xs), n)|
    ensures s.rerankScore <= Take(StableSorted(xs), n)[i].rerankScore
  {
    StableElems(xs);
    var ys := StableSorted(xs);
    assert s in Elems(ys);
    var k :| 0 <= k < |ys| && ys[k] == s;
    assert forall p :: 0 <= p < |Take(ys, n)| ==> Take(ys, n)[p] == ys[p];
    StableDescends(xs, i, k);
  }

  /** A scored candidate that is left out has no higher score than any that is returned. */
  lemma LeftOutScoreNoHigher(u: Library, r: Reranker, query: Bytes, cands: seq<Candidate>, topN: int, k: nat, i: nat)
    requires IsPositive(u.sqrt) && ScoresOf(u, r, query, cands).Ok? && k < |cands|
    requires RerankOf(u, r, query, cands, topN).Ok? && i < |RerankOf(u, r, query, cands, topN).value|
    requires Scored(cands[k], ScoresOf(u, r, query, cands).value[k]) !in RerankOf(u, r, query, cands, topN).value
    ensures ScoresOf(u, r, query, cands).value[k] <= RerankOf(u, r, query, cands, topN).value[i].rerankScore
  {
    var scores := ScoresOf(u, r, query, cands).value;
    assert Attach(cands, scores)[k] == Scored(cands[k], scores[k]);
    CutScoresNoHigher(Attach(cands, scores), Cutoff(topN, |cands|), Scored(cands[k], scores[k]), i);
  }

  /** What the scores are: the heuristic's own for each snippet, or the sidecar's reply, one for each candidate. */
  lemma ScoresAre(u: Library, r: Reranker, query: Bytes, cands: seq<Candidate>, k: nat)
    requires IsPositive(u.sqrt) && k < |cands|
    ensures r.Heuristic? ==> ScoresOf(u, r, query, cands).Ok?
    ensures r.Heuristic? ==>
      ScoresOf(u, r, query, cands).value[k] ==
      ScoreOf(u, if r.targetSnippetTokens <= 0 then 60 else r.targetSnippetTokens,
              Tokens(u, Runes(query)), Tokens(u, Runes(cands[k].snippet)))
    ensures r.CrossEncoder? ==>
      var passages := seq(|cands|, i requires 0 <= i < |cands| => cands[i].snippet);
      match r.answer(query, passages)
      case None => ScoresOf(u, r, query, cands) == Err(SidecarFailed)
      case Some(scores) =>
        ScoresOf(u, r, query, cands) == if |scores| == |cands| then Ok(scores) else Err(WrongScoreCount)
  {
    if r.CrossEncoder? {
      assert Snippets(cands) == seq(|cands|, i requires 0 <= i < |cands| => cands[i].snippet);
    }
  }

  ghost predicate DistinctRanks(cands: seq<Candidate>) {
    forall i, j :: 0 <= i < j < |cands| ==> cands[i].priorRank != cands[j].priorRank
  }

  lemma BetterTotal(cands: seq<Candidate>, scores: seq<real>)
    requires |cands| == |scores| && DistinctRanks(cands)
    ensures TotalOn(Better, Elems(Attach(cands, scores)))
  {
    var s := Elems(Attach(cands, scores));
    forall x, y | x in s && y in s && x != y ensures x.candidate.priorRank != y.candidate.priorRank {
      var i :| 0 <= i < |cands| && x == Scored(cands[i], scores[i]);
      var j :| 0 <= j < |cands| && y == Scored(cands[j], scores[j]);
      assert i < j || j < i;
    }
  }

  lemma StableElems(xs: seq<Scored>)
    ensures Elems(StableSorted(xs)) == Elems(xs)
  {
    var ps, ys := StableOrder(xs), StableSorted(xs);
    forall x | x in xs ensures x in ys {
      var i :| 0 <= i < |xs| && xs[i] == x;
      assert Place(xs)[i] in Elems(ps);
    }
    forall y | y in ys ensures y in xs {
      var i :| 0 <= i < |ys| && ys[i] == y;
      assert ps[i] in Elems(ps);
    }
  }

  lemma PlacedInList(xs: seq<Scored>, p: Placed)
    requires p in Place(xs)
    ensures p.place < |xs| && p.entry == xs[p.place]
  {
  }

  lemma StableBetter(xs: seq<Scored>, i: nat, j: nat)
    requires TotalOn(Better, Elems(xs)) && forall i, j :: 0 <= i < j < |xs| ==> xs[i] != xs[j]
    requires i < j < |StableSorted(xs)|
    ensures Better(StableSorted(xs)[i], StableSorted(xs)[j])
  {
    var x, y := StableOrder(xs)[i], StableOrder(xs)[j];
    StablePlaces(xs, i, j);
    PlacedInList(xs, x);
    PlacedInList(xs, y);
    assert x.entry in Elems(xs) && y.entry in Elems(xs) && x.entry != y.entry;
  }

  lemma StableIsSorted(xs: seq<Scored>)
    requires TotalOn(Better, Elems(xs)) && forall i, j :: 0 <= i < j < |xs| ==> xs[i] != xs[j]
    ensures Sorted(Better, StableSorted(xs)) && Elems(StableSorted(xs)) == Elems(xs)
  {
    StableElems(xs);
    forall i, j | 0 <= i < j < |StableSorted(xs)| ensures Better(StableSorted(xs)[i], StableSorted(xs)[j]) {
      StableBetter(xs, i, j);
    }
  }

  /**
   With distinct prior ranks the result is the top of the only arrangement of the
   scored candidates that is sorted, so the order of the input does not matter.
   */
  lemma SortedTopIsUnique(u: Library, r: Reranker, query: Bytes, cands: seq<Candidate>, topN: int, ys: seq<Scored>)
    requires IsPositive(u.sqrt) && ScoresOf(u, r, query, cands).Ok? && DistinctRanks(cands)
    requires Elems(ys) == Elems(ScoredOf(u, r, query, cands)) && Sorted(Better, ys)
    ensures RerankOf(u, r, query, cands, topN) == Ok(Take(ys, Cutoff(topN, |cands|)))
  {
    var xs := ScoredOf(u, r, query, cands);
    BetterTotal(cands, ScoresOf(u, r, query, cands).value);
    StableIsSorted(xs);
    SortedUnique(Better, StableSorted(xs), ys);
  }
}
