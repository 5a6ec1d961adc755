/** search.FuseRRF: reciprocal rank fusion of any number of ranked lists. */
module Fusion {
  import opened Wrappers
  import opened Order

  type Id = string

  type Signal = string

  datatype Hit = Hit(id: Id, score: real)

  type Lists = map<Signal, seq<Hit>>

  datatype Fused = Fused(id: Id, rrfScore: real, perSignal: map<Signal, real>)

  const DEFAULT_RRF_K: nat := 60

  // ---------- the order of ids ----------

  /** Go's < on strings. */
  predicate LexLess(a: Id, b: Id) {
    b != [] && (a == [] || a[0] < b[0] || (a[0] == b[0] && LexLess(a[1..], b[1..])))
  }

  lemma {:induction false} LexTotal(a: Id, b: Id)
    ensures !LexLess(a, a)
    ensures a != b ==> LexLess(a, b) || LexLess(b, a)
    decreases |a|
  {
    if a != [] {
      if b != [] && a[0] == b[0] {
        LexTotal(a[1..], b[1..]);
        assert a[1..] == b[1..] ==> a == [a[0]] + a[1..] == [b[0]] + b[1..] == b;
      } else {
        LexTotal(a[1..], []);
      }
    }
  }

  lemma {:induction false} LexTransitive(a: Id, b: Id, c: Id)
    requires LexLess(a, b) && LexLess(b, c)
    ensures LexLess(a, c)
  {
    if a != [] && a[0] == b[0] && b[0] == c[0] {
      LexTransitive(a[1..], b[1..], c[1..]);
    }
  }

  // ---------- what fusion computes ----------

  /** What one place in one list is worth. */
  function Contribution(k: nat, rank: nat): (c: real)
    ensures c > 0.0
  {
    1.0 / (k + rank + 1) as real
  }

  function ListScore(k: nat, hits: seq<Hit>, id: Id): (x: real)
    ensures x >= 0.0
  {
    if hits == [] then 0.0 else
    var n := |hits| - 1;
    ListScore(k, hits[..n], id) + (if hits[n].id == id then Contribution(k, n) else 0.0)
  }

  /** The sum over the lists in `over`; `over` is a set, so the order of summing cannot matter. */
  ghost function SumOver(k: nat, lists: Lists, over: set<Signal>, id: Id): real
    requires over <= lists.Keys
  {
    if over == {} then 0.0 else
    var s :| s in over;
    ListScore(k, lists[s], id) + SumOver(k, lists, over - {s}, id)
  }

  ghost function Score(k: nat, lists: Lists, id: Id): real {
    SumOver(k, lists, lists.Keys, id)
  }

  /** The highest raw score of `id` in one list, if it is there at all. */
  function ListBest(hits: seq<Hit>, id: Id): Option<real> {
    if hits == [] then None else
    var n := |hits| - 1;
    var b := ListBest(hits[..n], id);
    if hits[n].id == id && (b.None? || hits[n].score > b.value) then Some(hits[n].score) else b
  }

  function PerSignal(lists: Lists, id: Id): map<Signal, real> {
    map s | s in lists && ListBest(lists[s], id).Some? :: ListBest(lists[s], id).value
  }

  ghost function Entry(k: nat, lists: Lists, id: Id): Fused {
    Fused(id, Score(k, lists, id), PerSignal(lists, id))
  }

  ghost function Ids(lists: Lists): set<Id> {
    set s, h | s in lists && h in lists[s] :: h.id
  }

  /** Descending by score, then ascending by id. */
  predicate Before(x: Fused, y: Fused) {
    if x.rrfScore != y.rrfScore then x.rrfScore > y.rrfScore else LexLess(x.id, y.id)
  }

  ghost predicate IdBefore(k: nat, lists: Lists, a: Id, b: Id) {
    Before(Entry(k, lists, a), Entry(k, lists, b))
  }

  ghost function ByRank(k: nat, lists: Lists): (Id, Id) -> bool {
    (a, b) => IdBefore(k, lists, a, b)
  }

  lemma ByRankTotal(k: nat, lists: Lists, s: set<Id>)
    ensures TotalOn(ByRank(k, lists), s)
  {
    forall a, b ensures !LexLess(a, a) && (a != b ==> LexLess(a, b) || LexLess(b, a)) {
      LexTotal(a, b);
    }
    forall a, b, c | IdBefore(k, lists, a, b) && IdBefore(k, lists, b, c) ensures IdBefore(k, lists, a, c) {
      if Score(k, lists, a) == Score(k, lists, b) == Score(k, lists, c) {
        LexTransitive(a, b, c);
      }
    }
  }

  /** Every id of every list, best first. */
  ghost function Ranking(k: nat, lists: Lists): (ids: seq<Id>)
    ensures Elems(ids) == Ids(lists)
  {
    ByRankTotal(k, lists, Ids(lists));
    SortSet(ByRank(k, lists), Ids(lists))
  }

  function EffectiveK(k: int): (r: nat) {
    if k <= 0 then DEFAULT_RRF_K else k
  }

  function EffectiveTopN(topN: int): (r: nat) {
    if topN <= 0 then 10 else topN
  }

  ghost function EntriesOf(k: nat, lists: Lists, ids: seq<Id>): (fs: seq<Fused>)
    ensures |fs| == |ids|
  {
    seq(|ids|, i requires 0 <= i < |ids| => Entry(k, lists, ids[i]))
  }

  /** What FuseRRF returns. */
  ghost function FuseOf(k: int, topN: int, lists: Lists): seq<Fused> {
    EntriesOf(EffectiveK(k), lists, Take(Ranking(EffectiveK(k), lists), EffectiveTopN(topN)))
  }

  // ---------- sums ----------

  lemma {:induction false} SumRemove(k: nat, lists: Lists, over: set<Signal>, id: Id, s: Signal)
    requires over <= lists.Keys && s in over
    ensures SumOver(k, lists, over, id) == ListScore(k, lists[s], id) + SumOver(k, lists, over - {s}, id)
    decreases over
  {
    var t :| t in over && SumOver(k, lists, over, id) == ListScore(k, lists[t], id) + SumOver(k, lists, over - {t}, id);
    if t != s {
      SumRemove(k, lists, over - {t}, id, s);
      SumRemove(k, lists, over - {s}, id, t);
      assert over - {t} - {s} == over - {s} - {t};
    }
  }

  lemma {:induction false} SumAgree(k: nat, x: Lists, y: Lists, over: set<Signal>, id: Id)
    requires over <= x.Keys && over <= y.Keys
    requires forall s :: s in over ==> ListScore(k, x[s], id) == ListScore(k, y[s], id)
    ensures SumOver(k, x, over, id) == SumOver(k, y, over, id)
    decreases over
  {
    if over != {} {
      var s :| s in over;
      SumRemove(k, x, over, id, s);
      SumRemove(k, y, over, id, s);
      SumAgree(k, x, y, over - {s}, id);
    }
  }

  /** One list added to others adds its own part of the score. */
  lemma ScoreSplit(k: nat, lists: Lists, signal: Signal, hits: seq<Hit>, id: Id)
    requires signal !in lists
    ensures Score(k, lists[signal := hits], id) == Score(k, lists, id) + ListScore(k, hits, id)
  {
    var all := lists[signal := hits];
    SumRemove(k, all, all.Keys, id, signal);
    assert all.Keys - {signal} == lists.Keys;
    SumAgree(k, all, lists, lists.Keys, id);
  }

  // ---------- the loops ----------

  /** The accumulator once the lists `done` have been added up. */
  ghost predicate TableOf(k: nat, done: Lists, scores: map<Id, Fused>) {
    scores.Keys == Ids(done) && forall id :: id in scores ==> scores[id] == Entry(k, done, id)
  }

  lemma EmptyListAdds(k: nat, done: Lists, signal: Signal, scores: map<Id, Fused>)
    requires TableOf(k, done, scores) && signal !in done
    ensures TableOf(k, done[signal := []], scores)
  {
    var more := done[signal := []];
    assert Ids(more) == Ids(done) by {
      assert forall s, h :: s in done && h in done[s] ==> s in more && h in more[s];
    }
    forall id | id in scores ensures Entry(k, more, id) == Entry(k, done, id) {
      ScoreSplit(k, done, signal, [], id);
      assert PerSignal(more, id) == PerSignal(done, id);
    }
  }

  /** One hit changes the entry of its own id only. */
  method AddHit(k: nat, signal: Signal, rank: nat, h: Hit, scores: map<Id, Fused>, ghost done: Lists, ghost hits: seq<Hit>)
      returns (after: map<Id, Fused>)
    requires signal !in done && rank == |hits| && TableOf(k, done[signal := hits], scores)
    ensures TableOf(k, done[signal := hits + [h]], after)
    ensures h.id in after && after[h.id].rrfScore ==
      (if h.id in scores then scores[h.id].rrfScore else 0.0) + 1.0 / (k + rank + 1) as real
  {
    var f := if h.id in scores then scores[h.id] else Fused(h.id, 0.0, map[]);
    f := f.(rrfScore := f.rrfScore + 1.0 / (k + rank + 1) as real);
    if signal !in f.perSignal || h.score > f.perSignal[signal] {
      f := f.(perSignal := f.perSignal[signal := h.score]);
    }
    after := scores[h.id := f];
    HitIds(done, signal, hits, h);
    forall id ensures id in after ==> after[id] == Entry(k, done[signal := hits + [h]], id) {
      HitEntry(k, done, signal, hits, h, id);
    }
  }

  lemma HitIds(done: Lists, signal: Signal, hits: seq<Hit>, h: Hit)
    requires signal !in done
    ensures Ids(done[signal := hits + [h]]) == Ids(done[signal := hits]) + {h.id}
  {
    var x, y := done[signal := hits], done[signal := hits + [h]];
    forall id | id in Ids(x) ensures id in Ids(y) {
      var s: Signal, g: Hit :| s in x && g in x[s] && g.id == id;
      assert g in y[s];
    }
    assert h in y[signal];
    forall id | id in Ids(y) ensures id in Ids(x) || id == h.id {
      var s: Signal, g: Hit :| s in y && g in y[s] && g.id == id;
      assert g == h || g in x[s];
    }
  }

  /** What one more hit of `signal` does to the entry of `id`. */
  lemma HitEntry(k: nat, done: Lists, signal: Signal, hits: seq<Hit>, h: Hit, id: Id)
    requires signal !in done
    ensures var x, y := Entry(k, done[signal := hits], id), Entry(k, done[signal := hits + [h]], id);
      if id != h.id then y == x
      else
        && y.rrfScore == x.rrfScore + Contribution(k, |hits|)
        && y.perSignal == if signal !in x.perSignal || h.score > x.perSignal[signal]
                          then x.perSignal[signal := h.score] else x.perSignal
    ensures id !in Ids(done[signal := hits]) ==> Entry(k, done[signal := hits], id) == Fused(id, 0.0, map[])
  {
    ScoreSplit(k, done, signal, hits, id);
    ScoreSplit(k, done, signal, hits + [h], id);
    assert (hits + [h])[..|hits|] == hits;
    if id !in Ids(done[signal := hits]) {
      AbsentEntry(k, done[signal := hits], id);
    }
  }

  lemma {:induction false} AbsentFromList(k: nat, hits: seq<Hit>, id: Id)
    requires forall h :: h in hits ==> h.id != id
    ensures ListScore(k, hits, id) == 0.0 && ListBest(hits, id) == None
  {
    if hits != [] {
      AbsentFromList(k, hits[..|hits| - 1], id);
      assert hits[|hits| - 1] in hits;
    }
  }

  lemma {:induction false} SumZero(k: nat, lists: Lists, over: set<Signal>, id: Id)
    requires over <= lists.Keys && forall s :: s in over ==> ListScore(k, lists[s], id) == 0.0
    ensures SumOver(k, lists, over, id) == 0.0
    decreases over
  {
    if over != {} {
      var s :| s in over;
      SumRemove(k, lists, over, id, s);
      SumZero(k, lists, over - {s}, id);
    }
  }

  lemma AbsentEntry(k: nat, lists: Lists, id: Id)
    requires id !in Ids(lists)
    ensures Entry(k, lists, id) == Fused(id, 0.0, map[])
  {
    forall s | s in lists ensures ListScore(k, lists[s], id) == 0.0 && ListBest(lists[s], id) == None {
      assert forall h :: h in lists[s] ==> h.id in Ids(lists);
      AbsentFromList(k, lists[s], id);
    }
    SumZero(k, lists, lists.Keys, id);
    assert PerSignal(lists, id) == map[];
  }

  method AddList(k: nat, signal: Signal, hits: seq<Hit>, scores: map<Id, Fused>, ghost done: Lists)
      returns (after: map<Id, Fused>)
    requires signal !in done && TableOf(k, done, scores)
    ensures TableOf(k, done[signal := hits], after)
  {
    after := scores;
    EmptyListAdds(k, done, signal, scores);
    for rank := 0 to |hits|
      invariant TableOf(k, done[signal := hits[..rank]], after)
    {
      assert hits[..rank + 1] == hits[..rank] + [hits[rank]];
      after := AddHit(k, signal, rank, hits[rank], after, done, hits[..rank]);
    }
    assert hits[..|hits|] == hits;
  }

  /** The lists whose signals are in `s`. */
  function Only(lists: Lists, s: set<Signal>): Lists {
    map x | x in lists && x in s :: lists[x]
  }

  method FuseRRF(k: int, topN: int, lists: Lists) returns (out: seq<Fused>)
    ensures out == FuseOf(k, topN, lists)
  {
    var kk := if k <= 0 then DEFAULT_RRF_K else k;
    var n := if topN <= 0 then 10 else topN;
    var scores := Accumulate(kk, lists);
    out := Ranked(scores, kk, lists);
    TakeEntries(kk, lists, Ranking(kk, lists), n);
    if |out| > n {
      out := out[..n];
    }
  }

  lemma TakeEntries(k: nat, lists: Lists, ids: seq<Id>, n: nat)
    ensures EntriesOf(k, lists, Take(ids, n)) == Take(EntriesOf(k, lists, ids), n)
  {
  }

  method Ranked(scores: map<Id, Fused>, ghost k: nat, ghost lists: Lists) returns (out: seq<Fused>)
    requires TableOf(k, lists, scores)
    ensures out == EntriesOf(k, lists, Ranking(k, lists))
  {
    out := Values(scores, k, lists);
    EntriesTotal(k, lists, EntrySet(k, lists));
    out := Sort(Before, out);
    SortedEntries(k, lists, out);
  }

  /** A range over a map visits its keys in any order: `:|` allows every one of them. */
  method Accumulate(k: nat, lists: Lists) returns (scores: map<Id, Fused>)
    ensures TableOf(k, lists, scores)
  {
    scores := map[];
    var rest := lists.Keys;
    assert Ids(Only(lists, {})) == {};
    while rest != {}
      invariant rest <= lists.Keys
      invariant TableOf(k, Only(lists, lists.Keys - rest), scores)
    {
      var signal :| signal in rest;
      ghost var done := Only(lists, lists.Keys - rest);
      scores := AddList(k, signal, lists[signal], scores, done);
      rest := rest - {signal};
      assert done[signal := lists[signal]] == Only(lists, lists.Keys - rest);
    }
    assert Only(lists, lists.Keys - {}) == lists;
  }

  /** Collects the accumulated entries, in any order. */
  method Values(scores: map<Id, Fused>, ghost k: nat, ghost lists: Lists) returns (out: seq<Fused>)
    requires TableOf(k, lists, scores)
    ensures forall i, j :: 0 <= i < j < |out| ==> out[i] != out[j]
    ensures Elems(out) == EntrySet(k, lists)
  {
    out := [];
    var rest := scores.Keys;
    while rest != {}
      invariant rest <= scores.Keys
      invariant forall i :: 0 <= i < |out| ==> out[i].id in scores.Keys - rest && out[i] == scores[out[i].id]
      invariant forall id :: id in scores.Keys - rest ==> scores[id] in out
      invariant forall i, j :: 0 <= i < j < |out| ==> out[i] != out[j]
    {
      var id :| id in rest;
      out := out + [scores[id]];
      rest := rest - {id};
    }
    CollectedAll(k, lists, scores, out);
  }

  lemma CollectedAll(k: nat, lists: Lists, scores: map<Id, Fused>, out: seq<Fused>)
    requires TableOf(k, lists, scores)
    requires forall i :: 0 <= i < |out| ==> out[i].id in scores && out[i] == scores[out[i].id]
    requires forall id :: id in scores ==> scores[id] in out
    ensures Elems(out) == EntrySet(k, lists)
  {
    forall f | f in EntrySet(k, lists) ensures f in out {
      var id :| id in Ids(lists) && f == Entry(k, lists, id);
      assert scores[id] in out;
    }
  }

  ghost function EntrySet(k: nat, lists: Lists): set<Fused> {
    set id | id in Ids(lists) :: Entry(k, lists, id)
  }

  lemma EntriesTotal(k: nat, lists: Lists, s: set<Fused>)
    requires s <= EntrySet(k, lists)
    ensures TotalOn(Before, s)
  {
    ByRankTotal(k, lists, Ids(lists));
    forall f | f in s ensures f == Entry(k, lists, f.id) && f.id in Ids(lists) {
    }
    assert forall a, b :: Before(Entry(k, lists, a), Entry(k, lists, b)) == ByRank(k, lists)(a, b);
  }

  lemma EntriesSorted(k: nat, lists: Lists)
    ensures Sorted(Before, EntriesOf(k, lists, Ranking(k, lists)))
  {
    ByRankTotal(k, lists, Ids(lists));
    var ids := Ranking(k, lists);
    assert forall i, j :: 0 <= i < j < |ids| ==> ByRank(k, lists)(ids[i], ids[j]);
  }

  lemma EntriesComplete(k: nat, lists: Lists, ids: seq<Id>)
    requires Elems(ids) == Ids(lists)
    ensures Elems(EntriesOf(k, lists, ids)) == EntrySet(k, lists)
  {
    var fs := EntriesOf(k, lists, ids);
    forall f | f in EntrySet(k, lists) ensures f in fs {
      var id :| id in Ids(lists) && f == Entry(k, lists, id);
      assert id in Elems(ids);
      var i :| 0 <= i < |ids| && ids[i] == id;
      assert fs[i] == f;
    }
    forall f | f in fs ensures f in EntrySet(k, lists) {
      var i :| 0 <= i < |fs| && fs[i] == f;
      assert ids[i] in Elems(ids);
    }
  }

  /** Sorting the entries is the ranking of their ids. */
  lemma SortedEntries(k: nat, lists: Lists, out: seq<Fused>)
    requires TotalOn(Before, EntrySet(k, lists)) && out == SortSet(Before, EntrySet(k, lists))
    ensures out == EntriesOf(k, lists, Ranking(k, lists))
  {
    EntriesSorted(k, lists);
    EntriesComplete(k, lists, Ranking(k, lists));
    SortedUnique(Before, out, EntriesOf(k, lists, Ranking(k, lists)));
  }
}
