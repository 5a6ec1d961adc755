/** What rank fusion promises for every set of lists. */
module FusionTheorems {
  import opened Wrappers
  import opened Order
  import opened Fusion

  // ---------- order, completeness, prefixes ----------

  lemma RankingSorted(k: nat, lists: Lists)
    ensures Sorted(ByRank(k, lists), Ranking(k, lists))
    ensures |Ranking(k, lists)| == |Ids(lists)|
  {
    ByRankTotal(k, lists, Ids(lists));
  }

  /** Best score first, equal scores by ascending id, and no id twice. */
  lemma FusedInOrder(k: int, topN: int, lists: Lists, i: nat, j: nat)
    requires i < j < |FuseOf(k, topN, lists)|
    ensures var x, y := FuseOf(k, topN, lists)[i], FuseOf(k, topN, lists)[j];
      x.id != y.id && (x.rrfScore > y.rrfScore || (x.rrfScore == y.rrfScore && LexLess(x.id, y.id)))
  {
    var kk := EffectiveK(k);
    var ids := Ranking(kk, lists);
    RankingSorted(kk, lists);
    assert ByRank(kk, lists)(ids[i], ids[j]);
    LexTotal(ids[i], ids[j]);
  }

  /** The result is as long as it can be, and whatever is left out comes after all of it. */
  lemma OmittedComeAfter(k: int, topN: int, lists: Lists, id: Id, i: nat)
    ensures var n := if topN <= 0 then 10 else topN;
      |FuseOf(k, topN, lists)| == if n <= |Ids(lists)| then n else |Ids(lists)|
    ensures i < |FuseOf(k, topN, lists)| && id in Ids(lists)
      && (forall j :: 0 <= j < |FuseOf(k, topN, lists)| ==> FuseOf(k, topN, lists)[j].id != id)
      ==> Before(FuseOf(k, topN, lists)[i], Entry(EffectiveK(k), lists, id))
  {
    var kk, n := EffectiveK(k), EffectiveTopN(topN);
    var ids, out := Ranking(kk, lists), FuseOf(k, topN, lists);
    RankingSorted(kk, lists);
    if i < |out| && id in Ids(lists) && forall j :: 0 <= j < |out| ==> out[j].id != id {
      assert id in Elems(ids);
      var p :| 0 <= p < |ids| && ids[p] == id;
      assert forall q :: 0 <= q < |out| ==> out[q].id == ids[q];
      assert ByRank(kk, lists)(ids[i], ids[p]);
    }
  }

  /** Asking for fewer results returns the first of them. */
  lemma SmallerTopNIsPrefix(k: int, m: int, n: int, lists: Lists)
    requires 1 <= m <= n
    ensures FuseOf(k, m, lists) <= FuseOf(k, n, lists)
  {
  }

  // ---------- what one list contributes ----------

  predicate DuplicateFree(hits: seq<Hit>) {
    forall i, j :: 0 <= i < j < |hits| ==> hits[i].id != hits[j].id
  }

  ghost predicate AllDuplicateFree(lists: Lists) {
    forall s :: s in lists ==> DuplicateFree(lists[s])
  }

  /** Without duplicates the score of an id in one list is 1 / (k + rank). */
  lemma {:induction false} OnceScore(k: nat, hits: seq<Hit>, r: nat)
    requires DuplicateFree(hits) && r < |hits|
    ensures ListScore(k, hits, hits[r].id) == 1.0 / (k + r + 1) as real
    ensures ListBest(hits, hits[r].id) == Some(hits[r].score)
  {
    var n := |hits| - 1;
    var id := hits[r].id;
    if r == n {
      AbsentFromList(k, hits[..n], id);
    } else {
      OnceScore(k, hits[..n], r);
    }
  }

  lemma Reciprocal(a: real, b: real)
    requires 0.0 < a <= b
    ensures 1.0 / b <= 1.0 / a && (a < b ==> 1.0 / b < 1.0 / a)
  {
    var x, y := 1.0 / a, 1.0 / b;
    assert x * a == 1.0 && y * b == 1.0;
    assert y * b >= y * a;
  }

  /** A better rank is worth more. */
  lemma ContributionFalls(k: nat, i: nat, j: nat)
    requires i <= j
    ensures Contribution(k, j) <= Contribution(k, i)
    ensures i < j ==> Contribution(k, j) < Contribution(k, i)
  {
    Reciprocal((k + i + 1) as real, (k + j + 1) as real);
  }

  // ---------- dominance ----------

  /** Wherever `b` is, `a` is before it. */
  ghost predicate Ahead(hits: seq<Hit>, a: Id, b: Id) {
    forall j :: 0 <= j < |hits| && hits[j].id == b ==> exists i :: 0 <= i < j && hits[i].id == a
  }

  ghost predicate InList(hits: seq<Hit>, id: Id) {
    exists h :: h in hits && h.id == id
  }

  lemma ListDominates(k: nat, hits: seq<Hit>, a: Id, b: Id)
    requires DuplicateFree(hits) && Ahead(hits, a, b)
    ensures ListScore(k, hits, b) <= ListScore(k, hits, a)
    ensures InList(hits, b) ==> ListScore(k, hits, b) < ListScore(k, hits, a) && InList(hits, a)
  {
    if InList(hits, b) {
      var j :| 0 <= j < |hits| && hits[j].id == b;
      var i :| 0 <= i < j && hits[i].id == a;
      OnceScore(k, hits, j);
      OnceScore(k, hits, i);
      ContributionFalls(k, i, j);
      assert hits[i] in hits;
    } else {
      AbsentFromList(k, hits, b);
    }
  }

  lemma {:induction false} SumDominates(k: nat, lists: Lists, over: set<Signal>, a: Id, b: Id)
    requires over <= lists.Keys
    requires forall s :: s in over ==> ListScore(k, lists[s], b) <= ListScore(k, lists[s], a)
    ensures SumOver(k, lists, over, b) <= SumOver(k, lists, over, a)
    decreases over
  {
    if over != {} {
      var s :| s in over;
      SumRemove(k, lists, over, a, s);
      SumRemove(k, lists, over, b, s);
      SumDominates(k, lists, over - {s}, a, b);
    }
  }

  lemma ScoreDominates(k: nat, lists: Lists, a: Id, b: Id)
    requires AllDuplicateFree(lists) && b in Ids(lists)
    requires forall s :: s in lists ==> Ahead(lists[s], a, b)
    ensures Score(k, lists, b) < Score(k, lists, a) && a in Ids(lists)
  {
    var s: Signal, h: Hit :| s in lists && h in lists[s] && h.id == b;
    forall t | t in lists ensures ListScore(k, lists[t], b) <= ListScore(k, lists[t], a) {
      ListDominates(k, lists[t], a, b);
    }
    ListDominates(k, lists[s], a, b);
    SumRemove(k, lists, lists.Keys, a, s);
    SumRemove(k, lists, lists.Keys, b, s);
    SumDominates(k, lists, lists.Keys - {s}, a, b);
  }

  lemma HigherIsEarlier(k: nat, lists: Lists, a: Id, b: Id, j: nat) returns (i: nat)
    requires a in Ids(lists) && Score(k, lists, b) < Score(k, lists, a)
    requires j < |Ranking(k, lists)| && Ranking(k, lists)[j] == b
    ensures i < j && Ranking(k, lists)[i] == a
  {
    var ids := Ranking(k, lists);
    RankingSorted(k, lists);
    assert a in Elems(ids);
    i :| 0 <= i < |ids| && ids[i] == a;
    assert forall p, q :: 0 <= p < q < |ids| ==> ByRank(k, lists)(ids[p], ids[q]);
  }

  /** What every retriever that knows `b` ranks before `b` is returned before `b`. */
  lemma Dominance(k: int, topN: int, lists: Lists, a: Id, b: Id, j: nat)
    requires AllDuplicateFree(lists)
    requires forall s :: s in lists ==> Ahead(lists[s], a, b)
    requires j < |FuseOf(k, topN, lists)| && FuseOf(k, topN, lists)[j].id == b
    ensures exists i :: 0 <= i < j && FuseOf(k, topN, lists)[i].id == a
  {
    var kk := EffectiveK(k);
    var ids := Ranking(kk, lists);
    assert ids[j] in Elems(ids);
    ScoreDominates(kk, lists, a, b);
    var i := HigherIsEarlier(kk, lists, a, b, j);
    assert FuseOf(k, topN, lists)[i].id == a;
  }

  // ---------- raw scores do not matter ----------

  /** The same ids at the same ranks; raw scores may differ. */
  ghost predicate SameRanks(x: seq<Hit>, y: seq<Hit>) {
    |x| == |y| && forall i :: 0 <= i < |x| ==> x[i].id == y[i].id
  }

  ghost predicate Rescored(x: Lists, y: Lists) {
    x.Keys == y.Keys && forall s :: s in x ==> SameRanks(x[s], y[s])
  }

  lemma {:induction false} SameListScore(k: nat, x: seq<Hit>, y: seq<Hit>, id: Id)
    requires SameRanks(x, y)
    ensures ListScore(k, x, id) == ListScore(k, y, id)
  {
    if x != [] {
      SameListScore(k, x[..|x| - 1], y[..|y| - 1], id);
    }
  }

  lemma SameScore(k: nat, x: Lists, y: Lists, id: Id)
    requires Rescored(x, y)
    ensures Score(k, x, id) == Score(k, y, id)
  {
    forall s | s in x ensures ListScore(k, x[s], id) == ListScore(k, y[s], id) {
      SameListScore(k, x[s], y[s], id);
    }
    SumAgree(k, x, y, x.Keys, id);
  }

  lemma SameIdsOneWay(x: Lists, y: Lists)
    requires Rescored(x, y)
    ensures Ids(x) <= Ids(y)
  {
    forall id | id in Ids(x) ensures id in Ids(y) {
      var s: Signal, h: Hit :| s in x && h in x[s] && h.id == id;
      assert SameRanks(x[s], y[s]);
      var i :| 0 <= i < |x[s]| && x[s][i] == h;
      assert y[s][i] in y[s];
    }
  }

  lemma SameOrder(k: nat, x: Lists, y: Lists, a: Id, b: Id)
    requires Rescored(x, y)
    ensures ByRank(k, x)(a, b) == ByRank(k, y)(a, b)
  {
    SameScore(k, x, y, a);
    SameScore(k, x, y, b);
  }

  lemma SameSorted(k: nat, x: Lists, y: Lists, ids: seq<Id>)
    requires Rescored(x, y) && Sorted(ByRank(k, y), ids)
    ensures Sorted(ByRank(k, x), ids)
  {
    forall i, j | 0 <= i < j < |ids| ensures ByRank(k, x)(ids[i], ids[j]) {
      SameOrder(k, x, y, ids[i], ids[j]);
    }
  }

  lemma SameRanking(k: nat, x: Lists, y: Lists)
    requires Rescored(x, y)
    ensures Ranking(k, x) == Ranking(k, y)
  {
    SameIdsOneWay(x, y);
    SameIdsOneWay(y, x);
    ByRankTotal(k, x, Ids(x));
    RankingSorted(k, x);
    RankingSorted(k, y);
    SameSorted(k, x, y, Ranking(k, y));
    SortedUnique(ByRank(k, x), Ranking(k, x), Ranking(k, y));
  }

  /** Fusion sees ordinal positions only: any rescaling of raw scores leaves ids and scores as they were. */
  lemma RawScoresIrrelevant(k: int, topN: int, x: Lists, y: Lists)
    requires Rescored(x, y)
    ensures |FuseOf(k, topN, x)| == |FuseOf(k, topN, y)|
    ensures forall i :: 0 <= i < |FuseOf(k, topN, x)| ==>
      && FuseOf(k, topN, x)[i].id == FuseOf(k, topN, y)[i].id
      && FuseOf(k, topN, x)[i].rrfScore == FuseOf(k, topN, y)[i].rrfScore
  {
    var kk := EffectiveK(k);
    SameRanking(kk, x, y);
    forall i | 0 <= i < |FuseOf(k, topN, x)|
      ensures Score(kk, x, Ranking(kk, x)[i]) == Score(kk, y, Ranking(kk, x)[i])
    {
      SameScore(kk, x, y, Ranking(kk, x)[i]);
    }
  }

  // ---------- the range of scores ----------

  lemma ListScoreBound(k: nat, hits: seq<Hit>, id: Id)
    requires DuplicateFree(hits)
    ensures ListScore(k, hits, id) <= Contribution(k, 0)
    ensures InList(hits, id) ==> ListScore(k, hits, id) > 0.0
  {
    if InList(hits, id) {
      var r :| 0 <= r < |hits| && hits[r].id == id;
      OnceScore(k, hits, r);
      ContributionFalls(k, 0, r);
    } else {
      AbsentFromList(k, hits, id);
    }
  }

  function Times(n: nat, c: real): real {
    if n == 0 then 0.0 else Times(n - 1, c) + c
  }

  lemma {:induction false} SumBound(k: nat, lists: Lists, over: set<Signal>, id: Id)
    requires AllDuplicateFree(lists) && over <= lists.Keys
    ensures 0.0 <= SumOver(k, lists, over, id) <= Times(|over|, Contribution(k, 0))
    decreases over
  {
    if over != {} {
      var s :| s in over;
      SumRemove(k, lists, over, id, s);
      ListScoreBound(k, lists[s], id);
      SumBound(k, lists, over - {s}, id);
      assert |over - {s}| == |over| - 1;
    }
  }

  lemma {:induction false} TimesReciprocal(n: nat, y: real)
    requires y > 0.0
    ensures Times(n, 1.0 / y) == n as real / y
  {
    if n > 0 {
      TimesReciprocal(n - 1, y);
      assert (n - 1) as real / y + 1.0 / y == ((n - 1) as real + 1.0) / y;
    }
  }

  lemma ScorePositive(k: nat, lists: Lists, id: Id)
    requires AllDuplicateFree(lists) && id in Ids(lists)
    ensures Score(k, lists, id) > 0.0
  {
    var s: Signal, h: Hit :| s in lists && h in lists[s] && h.id == id;
    ListScoreBound(k, lists[s], id);
    SumRemove(k, lists, lists.Keys, id, s);
    SumBound(k, lists, lists.Keys - {s}, id);
  }

  /** With L duplicate-free lists every returned score lies in (0, L / (k + 1)]. */
  lemma ScoreRange(k: int, topN: int, lists: Lists, i: nat)
    requires AllDuplicateFree(lists) && i < |FuseOf(k, topN, lists)|
    ensures 0.0 < FuseOf(k, topN, lists)[i].rrfScore <= |lists.Keys| as real / ((if k <= 0 then 60 else k) + 1) as real
  {
    var kk := EffectiveK(k);
    var id := Ranking(kk, lists)[i];
    assert id in Elems(Ranking(kk, lists));
    ScorePositive(kk, lists, id);
    SumBound(kk, lists, lists.Keys, id);
    TimesReciprocal(|lists.Keys|, (kk + 1) as real);
  }

  // ---------- raw scores are kept as explanation ----------

  /** The raw score reported for a signal is the highest one the id has in that list. */
  lemma {:induction false} BestIsHighest(hits: seq<Hit>, id: Id)
    ensures ListBest(hits, id).Some? <==> InList(hits, id)
    ensures ListBest(hits, id).Some? ==>
      && Hit(id, ListBest(hits, id).value) in hits
      && forall h :: h in hits && h.id == id ==> h.score <= ListBest(hits, id).value
  {
    if hits != [] {
      var n := |hits| - 1;
      BestIsHighest(hits[..n], id);
      assert hits == hits[..n] + [hits[n]];
      assert forall h :: h in hits <==> h in hits[..n] || h == hits[n];
      assert hits[n] == Hit(hits[n].id, hits[n].score);
    }
  }

  /** Each returned entry names exactly the signals that found it, with their best raw scores. */
  lemma SignalsExplain(k: int, topN: int, lists: Lists, i: nat)
    requires i < |FuseOf(k, topN, lists)|
    ensures var f := FuseOf(k, topN, lists)[i];
      && f.perSignal != map[]
      && (forall s :: s in f.perSignal <==> s in lists && InList(lists[s], f.id))
      && (forall s :: s in f.perSignal ==> Hit(f.id, f.perSignal[s]) in lists[s])
      && (forall s, h :: s in f.perSignal && h in lists[s] && h.id == f.id ==> h.score <= f.perSignal[s])
  {
    var kk := EffectiveK(k);
    var f := FuseOf(k, topN, lists)[i];
    forall s | s in lists
      ensures s in f.perSignal <==> InList(lists[s], f.id)
      ensures s in f.perSignal ==> Hit(f.id, f.perSignal[s]) in lists[s]
      ensures forall h :: s in f.perSignal && h in lists[s] && h.id == f.id ==> h.score <= f.perSignal[s]
    {
      BestIsHighest(lists[s], f.id);
    }
    assert f.id in Elems(Ranking(kk, lists));
    var s: Signal, h: Hit :| s in lists && h in lists[s] && h.id == f.id;
    assert s in f.perSignal;
  }

  // ---------- one list ----------

  function IdsInOrder(hits: seq<Hit>): (ids: seq<Id>)
    ensures |ids| == |hits|
  {
    seq(|hits|, i requires 0 <= i < |hits| => hits[i].id)
  }

  lemma OneListScore(k: nat, signal: Signal, hits: seq<Hit>, r: nat)
    requires DuplicateFree(hits) && r < |hits|
    ensures Entry(k, map[signal := hits], hits[r].id) ==
      Fused(hits[r].id, Contribution(k, r), map[signal := hits[r].score])
  {
    var lists: Lists := map[signal := hits];
    OnceScore(k, hits, r);
    SumRemove(k, lists, lists.Keys, hits[r].id, signal);
    assert lists.Keys - {signal} == {};
    assert PerSignal(lists, hits[r].id) == map[signal := hits[r].score];
  }

  lemma OneListRanking(k: nat, signal: Signal, hits: seq<Hit>)
    requires DuplicateFree(hits)
    ensures Ranking(k, map[signal := hits]) == IdsInOrder(hits)
  {
    var lists: Lists := map[signal := hits];
    ByRankTotal(k, lists, Ids(lists));
    var ids := IdsInOrder(hits);
    forall i, j | 0 <= i < j < |ids| ensures ByRank(k, lists)(ids[i], ids[j]) {
      OneListScore(k, signal, hits, i);
      OneListScore(k, signal, hits, j);
      ContributionFalls(k, i, j);
    }
    OneListIds(signal, hits);
    SortedUnique(ByRank(k, lists), Ranking(k, lists), ids);
  }

  lemma OneListIds(signal: Signal, hits: seq<Hit>)
    ensures Elems(IdsInOrder(hits)) == Ids(map[signal := hits])
  {
    var lists: Lists := map[signal := hits];
    forall id | id in Ids(lists) ensures id in IdsInOrder(hits) {
      var h :| h in hits && h.id == id;
      var i :| 0 <= i < |hits| && hits[i] == h;
      assert IdsInOrder(hits)[i] == id;
    }
    forall id | id in IdsInOrder(hits) ensures id in Ids(lists) {
      var i :| 0 <= i < |hits| && IdsInOrder(hits)[i] == id;
      assert hits[i] in lists[signal];
    }
  }

  // ---------- two lists ----------

  /** `rank` is where `id` stands in the list, counted from 0, or None if it is not there. */
  ghost predicate RankedAt(hits: seq<Hit>, id: Id, rank: Option<nat>) {
    match rank
    case None => !InList(hits, id)
    case Some(r) => r < |hits| && hits[r].id == id
  }

  lemma ListScoreAt(k: nat, hits: seq<Hit>, id: Id, rank: Option<nat>)
    requires DuplicateFree(hits) && RankedAt(hits, id, rank)
    ensures ListScore(k, hits, id) == if rank.Some? then 1.0 / (k + rank.value + 1) as real else 0.0
  {
    if rank.Some? {
      OnceScore(k, hits, rank.value);
    } else {
      AbsentFromList(k, hits, id);
    }
  }

  /** With two duplicate-free lists an id scores the sum of its reciprocal ranks. */
  lemma TwoListScore(k: nat, lists: Lists, s: Signal, t: Signal, id: Id, x: Option<nat>, y: Option<nat>)
    requires s != t && lists.Keys == {s, t} && AllDuplicateFree(lists)
    requires RankedAt(lists[s], id, x) && RankedAt(lists[t], id, y)
    ensures Score(k, lists, id) ==
      (if x.Some? then 1.0 / (k + x.value + 1) as real else 0.0) + (if y.Some? then 1.0 / (k + y.value + 1) as real else 0.0)
  {
    SumRemove(k, lists, lists.Keys, id, s);
    SumRemove(k, lists, lists.Keys - {s}, id, t);
    assert lists.Keys - {s} - {t} == {};
    ListScoreAt(k, lists[s], id, x);
    ListScoreAt(k, lists[t], id, y);
  }

  lemma OneListScoreAt(k: nat, lists: Lists, s: Signal, id: Id, x: Option<nat>)
    requires lists.Keys == {s} && AllDuplicateFree(lists) && RankedAt(lists[s], id, x)
    ensures Score(k, lists, id) == if x.Some? then 1.0 / (k + x.value + 1) as real else 0.0
  {
    SumRemove(k, lists, lists.Keys, id, s);
    assert lists.Keys - {s} == {};
    ListScoreAt(k, lists[s], id, x);
  }

  // ---------- which ids are returned ----------

  /** Only listed ids are returned, and all of them when there is room. */
  lemma FusedIds(k: int, topN: int, lists: Lists)
    ensures (set f | f in FuseOf(k, topN, lists) :: f.id) <= Ids(lists)
    ensures topN >= 1 && |Ids(lists)| <= topN ==> (set f | f in FuseOf(k, topN, lists) :: f.id) == Ids(lists)
  {
    var ids, out := Ranking(EffectiveK(k), lists), FuseOf(k, topN, lists);
    forall f | f in out ensures f.id in Ids(lists) {
      var i :| 0 <= i < |out| && out[i] == f;
      assert ids[i] in Elems(ids);
    }
    if topN >= 1 && |Ids(lists)| <= topN {
      RankingSorted(EffectiveK(k), lists);
      forall id | id in Ids(lists) ensures id in set f | f in out :: f.id {
        assert id in Elems(ids);
        var i :| 0 <= i < |ids| && ids[i] == id;
        assert out[i] in out && out[i].id == id;
      }
    }
  }

  // ---------- the order of ids ----------

  /** The first place where two ids differ decides; a proper prefix comes first. */
  predicate DiffersAt(a: Id, b: Id, n: nat) {
    n <= |a| && n < |b| && a[..n] == b[..n] && (n == |a| || a[n] < b[n])
  }

  lemma SharedStart(a: Id, b: Id, n: nat)
    requires DiffersAt(a, b, n)
    ensures n > 0 ==> a != [] && b != [] && a[0] == b[0]
  {
    if n > 0 {
      assert a[..n][0] == b[..n][0];
    }
  }

  lemma {:induction false} LexMeaning(a: Id, b: Id)
    ensures LexLess(a, b) <==> exists n: nat :: DiffersAt(a, b, n)
    decreases |a|
  {
    if a != [] && b != [] && a[0] == b[0] {
      LexMeaning(a[1..], b[1..]);
      if LexLess(a, b) {
        var n: nat :| DiffersAt(a[1..], b[1..], n);
        assert a[..n + 1] == [a[0]] + a[1..][..n] && b[..n + 1] == [b[0]] + b[1..][..n];
        assert DiffersAt(a, b, n + 1);
      }
      if n: nat :| DiffersAt(a, b, n) {
        assert n > 0;
        assert a[1..][..n - 1] == a[..n][1..] && b[1..][..n - 1] == b[..n][1..];
        assert DiffersAt(a[1..], b[1..], n - 1);
      }
    } else {
      if LexLess(a, b) {
        assert DiffersAt(a, b, 0);
      }
      if n: nat :| DiffersAt(a, b, n) {
        SharedStart(a, b, n);
      }
    }
  }

  // ---------- one list kept ----------

  lemma OneListEntry(k: int, topN: int, signal: Signal, hits: seq<Hit>, i: nat)
    requires DuplicateFree(hits) && i < |FuseOf(k, topN, map[signal := hits])|
    ensures i < |hits| && FuseOf(k, topN, map[signal := hits])[i] ==
      Fused(hits[i].id, Contribution(EffectiveK(k), i), map[signal := hits[i].score])
  {
    OneListRanking(EffectiveK(k), signal, hits);
    OneListScore(EffectiveK(k), signal, hits, i);
  }

  lemma OneListSize(k: int, topN: int, signal: Signal, hits: seq<Hit>)
    requires DuplicateFree(hits)
    ensures var n := if topN <= 0 then 10 else topN;
      |FuseOf(k, topN, map[signal := hits])| == if n <= |hits| then n else |hits|
  {
    OneListRanking(EffectiveK(k), signal, hits);
  }

  /** Fusing one duplicate-free list returns its first entries in order, with score 1 / (k + rank). */
  lemma OneListIsKept(k: int, topN: int, signal: Signal, hits: seq<Hit>, i: nat)
    requires DuplicateFree(hits)
    ensures var n := if topN <= 0 then 10 else topN;
      |FuseOf(k, topN, map[signal := hits])| == if n <= |hits| then n else |hits|
    ensures i < |FuseOf(k, topN, map[signal := hits])| ==>
      FuseOf(k, topN, map[signal := hits])[i] ==
      Fused(hits[i].id, 1.0 / ((if k <= 0 then 60 else k) + i + 1) as real, map[signal := hits[i].score])
  {
    OneListSize(k, topN, signal, hits);
    if i < |FuseOf(k, topN, map[signal := hits])| {
      OneListEntry(k, topN, signal, hits, i);
    }
  }
}
