/** A client that follows next_cursor from the first page, while the table changes between pages. */
module PagingWalk {
  import opened Wrappers
  import opened Tables
  import opened Order
  import opened Protocol
  import opened ProtocolRuns
  import opened ProtocolCommits
  import opened Paging

  function Concat(pages: seq<seq<Key>>): seq<Key> {
    if pages == [] then [] else Concat(pages[..|pages| - 1]) + pages[|pages| - 1]
  }

  /** Where request `i` starts: at the top, then below the last row of the page before. */
  function CursorAt(pages: seq<seq<Key>>, i: nat): Option<Key>
    requires i <= |pages|
  {
    if i == 0 || pages[i - 1] == [] then None else Some(pages[i - 1][|pages[i - 1]| - 1])
  }

  ghost predicate PageAt(dbs: seq<Tables>, limits: seq<nat>, pages: seq<seq<Key>>, i: nat)
    requires i < |pages| == |limits| == |dbs|
  {
    && 1 <= limits[i] <= 200
    && pages[i] == Page(dbs[i], CursorAt(pages, i), limits[i])
    && (i < |pages| - 1 ==> |pages[i]| == limits[i])
  }

  /**
   Page `i` is read from table `dbs[i]` with page size `limits[i]`; every page but
   the last is full, which is what makes the server hand out another cursor.
   */
  ghost predicate Walk(dbs: seq<Tables>, limits: seq<nat>, pages: seq<seq<Key>>) {
    && |dbs| == |limits| == |pages|
    && forall i :: 0 <= i < |pages| ==> PageAt(dbs, limits, pages, i)
  }

  /** Between the pages other calls run: docs may appear and be deleted, no row is rewritten. */
  ghost predicate Evolving(dbs: seq<Tables>) {
    forall i, j :: 0 <= i <= j < |dbs| ==> DocsEvolve(dbs[i], dbs[j])
  }

  /** Any reads of the tables along a run of the store are evolving tables. */
  lemma RunIsEvolving(trace: seq<State>, at: seq<nat>)
    requires Run(trace)
    requires forall i :: 0 <= i < |at| ==> at[i] < |trace|
    requires forall i, j :: 0 <= i <= j < |at| ==> at[i] <= at[j]
    ensures Evolving(seq(|at|, i requires 0 <= i < |at| => trace[at[i]].db))
  {
    var dbs := seq(|at|, i requires 0 <= i < |at| => trace[at[i]].db);
    forall i, j | 0 <= i <= j < |dbs| ensures DocsEvolve(dbs[i], dbs[j]) {
      RunEvolves(trace, at[i], at[j]);
    }
  }

  lemma PagePrefix(dbs: seq<Tables>, limits: seq<nat>, pages: seq<seq<Key>>, n: nat, i: nat)
    requires i < n <= |pages| == |limits| == |dbs| && PageAt(dbs, limits, pages, i)
    ensures PageAt(dbs[..n], limits[..n], pages[..n], i)
  {
    assert CursorAt(pages[..n], i) == CursorAt(pages, i);
  }

  lemma WalkPrefix(dbs: seq<Tables>, limits: seq<nat>, pages: seq<seq<Key>>, n: nat)
    requires Walk(dbs, limits, pages) && n <= |pages|
    ensures Walk(dbs[..n], limits[..n], pages[..n])
    ensures CursorAt(pages[..n], n) == CursorAt(pages, n)
    ensures 0 < n < |pages| ==> CursorAt(pages, n).Some?
  {
    forall i | 0 <= i < n ensures PageAt(dbs[..n], limits[..n], pages[..n], i) {
      PagePrefix(dbs, limits, pages, n, i);
    }
    if 0 < n < |pages| {
      FullPageHasCursor(dbs, limits, pages, n - 1);
    }
  }

  lemma FullPageHasCursor(dbs: seq<Tables>, limits: seq<nat>, pages: seq<seq<Key>>, i: nat)
    requires i < |pages| - 1 && |pages| == |limits| == |dbs| && PageAt(dbs, limits, pages, i)
    ensures CursorAt(pages, i + 1).Some?
  {
  }

  /** Everything in `shown` comes before the cursor or is the row it was taken from. */
  ghost predicate UpTo(shown: seq<Key>, cursor: Option<Key>) {
    cursor.Some? ==> forall k :: k in shown ==> k == cursor.value || Before(k, cursor.value)
  }

  /** What has been shown is strictly decreasing, and the next cursor is its last row. */
  lemma {:induction false} WalkSorted(dbs: seq<Tables>, limits: seq<nat>, pages: seq<seq<Key>>)
    requires Walk(dbs, limits, pages)
    ensures Sorted(Before, Concat(pages))
    ensures UpTo(Concat(pages), CursorAt(pages, |pages|))
  {
    if pages != [] {
      var n := |pages| - 1;
      WalkPrefix(dbs, limits, pages, n);
      WalkSorted(dbs[..n], limits[..n], pages[..n]);
      assert PageAt(dbs, limits, pages, n);
      NextPage(dbs[n], Concat(pages[..n]), CursorAt(pages, n), limits[n]);
    }
  }

  /** Over all pages of a walk created_at goes down, and at equal times the id does. */
  lemma WalkNewestFirst(dbs: seq<Tables>, limits: seq<nat>, pages: seq<seq<Key>>, i: nat, j: nat)
    requires Walk(dbs, limits, pages) && i < j < |Concat(pages)|
    ensures var j, k := Concat(pages)[i], Concat(pages)[j];
      j.createdAt > k.createdAt || (j.createdAt == k.createdAt && j.id > k.id)
  {
    WalkSorted(dbs, limits, pages);
    assert Before(Concat(pages)[i], Concat(pages)[j]);
  }

  lemma NextPage(db: Tables, shown: seq<Key>, cursor: Option<Key>, limit: nat)
    requires Sorted(Before, shown) && UpTo(shown, cursor) && (shown != [] ==> cursor.Some?)
    ensures Sorted(Before, shown + Page(db, cursor, limit))
    ensures Page(db, cursor, limit) != [] ==>
      UpTo(shown + Page(db, cursor, limit), Some(Page(db, cursor, limit)[|Page(db, cursor, limit)| - 1]))
  {
    var page := Page(db, cursor, limit);
    PageRows(db, cursor, limit);
    forall k, p | k in shown && p in page ensures Before(k, p) {
      assert k == cursor.value || Before(k, cursor.value);
      assert Before(cursor.value, p);
    }
    SortedAppend(shown, page);
    if page != [] {
      LastIsLast(shown + page);
    }
  }

  lemma LastIsLast(xs: seq<Key>)
    requires xs != [] && Sorted(Before, xs)
    ensures UpTo(xs, Some(xs[|xs| - 1]))
  {
    forall k | k in xs ensures k == xs[|xs| - 1] || Before(k, xs[|xs| - 1]) {
      var i :| 0 <= i < |xs| && xs[i] == k;
    }
  }

  lemma SortedAppend(xs: seq<Key>, ys: seq<Key>)
    requires Sorted(Before, xs) && Sorted(Before, ys)
    requires forall k, p :: k in xs && p in ys ==> Before(k, p)
    ensures Sorted(Before, xs + ys)
  {
    var zs := xs + ys;
    forall i, j | 0 <= i < j < |zs| ensures Before(zs[i], zs[j]) {
      if i < |xs| && |xs| <= j {
        assert xs[i] in xs && ys[j - |xs|] in ys;
      }
    }
  }

  /** Every row shown was a row of some table of the walk, so of every later one. */
  lemma {:induction false} WalkRows(dbs: seq<Tables>, limits: seq<nat>, pages: seq<seq<Key>>, db: Tables)
    requires Walk(dbs, limits, pages)
    requires forall i :: 0 <= i < |dbs| ==> DocsEvolve(dbs[i], db)
    ensures forall k :: k in Concat(pages) ==> k.id in db.docs && k == KeyOf(db, k.id)
  {
    if pages != [] {
      var n := |pages| - 1;
      WalkPrefix(dbs, limits, pages, n);
      assert forall i :: 0 <= i < n ==> dbs[..n][i] == dbs[i];
      WalkRows(dbs[..n], limits[..n], pages[..n], db);
      assert PageAt(dbs, limits, pages, n);
      PageRows(dbs[n], CursorAt(pages, n), limits[n]);
      assert DocsEvolve(dbs[n], db);
    }
  }

  /** No doc is returned twice, on one page or on two, and keys only go down. */
  lemma NoDocTwice(dbs: seq<Tables>, limits: seq<nat>, pages: seq<seq<Key>>)
    requires Walk(dbs, limits, pages) && Evolving(dbs)
    ensures Sorted(Before, Concat(pages))
    ensures forall i, j :: 0 <= i < j < |Concat(pages)| ==> Concat(pages)[i].id != Concat(pages)[j].id
  {
    WalkSorted(dbs, limits, pages);
    if pages != [] {
      WalkRows(dbs, limits, pages, dbs[|dbs| - 1]);
      var all := Concat(pages);
      forall i, j | 0 <= i < j < |all| ensures all[i].id != all[j].id {
        assert all[i] in all && all[j] in all;
      }
    }
  }

  lemma ShownNext(dbs: seq<Tables>, limits: seq<nat>, pages: seq<seq<Key>>, n: nat, d: DocId)
    requires Walk(dbs, limits, pages) && n == |pages| - 1 && Live(dbs[n], d)
    requires n > 0 ==> KeyOf(dbs[n], d) in Concat(pages[..n]) || Below(CursorAt(pages, n), KeyOf(dbs[n], d))
    ensures KeyOf(dbs[n], d) in Concat(pages)
         || (|pages[n]| == limits[n] && Below(CursorAt(pages, n + 1), KeyOf(dbs[n], d)))
  {
    assert PageAt(dbs, limits, pages, n);
    PageReaches(dbs[n], CursorAt(pages, n), limits[n], d);
  }

  /** At every request, a doc that stays live has been shown or is still below the cursor. */
  lemma {:induction false} ShownOrBelow(dbs: seq<Tables>, limits: seq<nat>, pages: seq<seq<Key>>, d: DocId)
    requires Walk(dbs, limits, pages) && Evolving(dbs) && pages != []
    requires d in dbs[0].docs && Live(dbs[|dbs| - 1], d)
    ensures KeyOf(dbs[0], d) in Concat(pages)
         || (|pages[|pages| - 1]| == limits[|pages| - 1] && Below(CursorAt(pages, |pages|), KeyOf(dbs[0], d)))
  {
    var n := |pages| - 1;
    assert DocsEvolve(dbs[0], dbs[n]);
    if n > 0 {
      WalkPrefix(dbs, limits, pages, n);
      assert DocsEvolve(dbs[n - 1], dbs[n]);
      ShownOrBelow(dbs[..n], limits[..n], pages[..n], d);
    }
    ShownNext(dbs, limits, pages, n, d);
  }

  predicate Below(cursor: Option<Key>, k: Key) {
    cursor.Some? && Before(cursor.value, k)
  }

  /** A live doc below the cursor is on the page, or below the next cursor of a full page. */
  lemma PageReaches(db: Tables, cursor: Option<Key>, limit: nat, d: DocId)
    requires Live(db, d) && limit > 0
    ensures (cursor.None? || Below(cursor, KeyOf(db, d))) ==>
      || KeyOf(db, d) in Page(db, cursor, limit)
      || (|Page(db, cursor, limit)| == limit && Before(Page(db, cursor, limit)[limit - 1], KeyOf(db, d)))
  {
    PageRows(db, cursor, limit);
    var page := Page(db, cursor, limit);
    if |page| == limit {
      assert page[limit - 1] in page;
    }
  }

  /**
   A walk that has ended (its last page is short, so no cursor was returned) has
   shown every doc that was live before the first page and stayed live throughout.
   */
  lemma WalkComplete(dbs: seq<Tables>, limits: seq<nat>, pages: seq<seq<Key>>, d: DocId)
    requires Walk(dbs, limits, pages) && Evolving(dbs) && pages != []
    requires |pages[|pages| - 1]| < limits[|pages| - 1]
    requires d in dbs[0].docs && Live(dbs[|dbs| - 1], d)
    ensures KeyOf(dbs[0], d) in Concat(pages)
  {
    ShownOrBelow(dbs, limits, pages, d);
  }

  lemma {:induction false} ConcatSize(pages: seq<seq<Key>>)
    requires forall i :: 0 <= i < |pages| ==> pages[i] != []
    ensures |Concat(pages)| >= |pages|
  {
    if pages != [] {
      ConcatSize(pages[..|pages| - 1]);
    }
  }

  lemma {:induction false} ConcatExactSize(pages: seq<seq<Key>>, limit: nat)
    requires forall i :: 0 <= i < |pages| ==> |pages[i]| == limit
    ensures |Concat(pages)| == limit * |pages|
  {
    if pages != [] {
      ConcatExactSize(pages[..|pages| - 1], limit);
      assert limit * |pages| == limit * (|pages| - 1) + limit;
    }
  }

  /** Full pages cannot go on: a walk never has more of them than the table has docs. */
  lemma WalkBounded(dbs: seq<Tables>, limits: seq<nat>, pages: seq<seq<Key>>)
    requires Walk(dbs, limits, pages) && Evolving(dbs) && pages != []
    ensures |pages| <= |dbs[|dbs| - 1].docs| + 1
  {
    var n := |pages| - 1;
    WalkPrefix(dbs, limits, pages, n);
    assert Evolving(dbs[..n]) by {
      assert forall i :: 0 <= i < n ==> dbs[..n][i] == dbs[i];
    }
    NoDocTwice(dbs[..n], limits[..n], pages[..n]);
    forall i | 0 <= i < n ensures DocsEvolve(dbs[..n][i], dbs[n]) && pages[..n][i] != [] {
      assert DocsEvolve(dbs[i], dbs[n]);
      assert PageAt(dbs, limits, pages, i);
    }
    WalkRows(dbs[..n], limits[..n], pages[..n], dbs[n]);
    ConcatSize(pages[..n]);
    DistinctIdsBounded(Concat(pages[..n]), dbs[n].docs.Keys);
  }

  lemma {:induction false} DistinctIdsBounded(ks: seq<Key>, ids: set<DocId>)
    requires forall k :: k in ks ==> k.id in ids
    requires forall i, j :: 0 <= i < j < |ks| ==> ks[i].id != ks[j].id
    ensures |ks| <= |ids|
  {
    if ks != [] {
      var n := |ks| - 1;
      assert ks[n] in ks;
      forall k | k in ks[..n] ensures k.id in ids - {ks[n].id} {
        var i :| 0 <= i < n && ks[..n][i] == k;
        assert ks[i] in ks;
      }
      DistinctIdsBounded(ks[..n], ids - {ks[n].id});
    }
  }

  /** On a table nobody changes, the pages concatenated are the full live listing. */
  lemma UnchangedWalkIsListing(db: Tables, dbs: seq<Tables>, limits: seq<nat>, pages: seq<seq<Key>>)
    requires Walk(dbs, limits, pages) && pages != []
    requires forall i :: 0 <= i < |dbs| ==> dbs[i] == db
    requires |pages[|pages| - 1]| < limits[|pages| - 1]
    ensures TotalOn(Before, Selected(db, None)) && Concat(pages) == SortSet(Before, Selected(db, None))
  {
    BeforeTotal(Selected(db, None));
    WalkSorted(dbs, limits, pages);
    LiveRows(db, dbs, limits, pages);
    forall k | k in Selected(db, None) ensures k in Concat(pages) {
      WalkComplete(dbs, limits, pages, k.id);
    }
    assert Elems(Concat(pages)) == Selected(db, None);
    SortOfSorted(Before, Concat(pages));
  }

  lemma {:induction false} LiveRows(db: Tables, dbs: seq<Tables>, limits: seq<nat>, pages: seq<seq<Key>>)
    requires Walk(dbs, limits, pages)
    requires forall i :: 0 <= i < |dbs| ==> dbs[i] == db
    ensures forall k :: k in Concat(pages) ==> k in Selected(db, None)
  {
    if pages != [] {
      var n := |pages| - 1;
      WalkPrefix(dbs, limits, pages, n);
      LiveRows(db, dbs[..n], limits[..n], pages[..n]);
      assert PageAt(dbs, limits, pages, n);
      PageRows(dbs[n], CursorAt(pages, n), limits[n]);
    }
  }

  /** With one page size throughout, the number of pages of an unchanged table is the quotient |live| / limit, plus one. */
  lemma UnchangedWalkLength(db: Tables, dbs: seq<Tables>, limits: seq<nat>, pages: seq<seq<Key>>, limit: nat)
    requires Walk(dbs, limits, pages) && pages != []
    requires forall i :: 0 <= i < |dbs| ==> dbs[i] == db && limits[i] == limit
    requires |pages[|pages| - 1]| < limit
    ensures limit * (|pages| - 1) <= |Selected(db, None)| < limit * |pages|
  {
    var n := |pages| - 1;
    UnchangedWalkIsListing(db, dbs, limits, pages);
    forall i | 0 <= i < n ensures |pages[..n][i]| == limit {
      assert PageAt(dbs, limits, pages, i);
    }
    ConcatExactSize(pages[..n], limit);
    NextMultiple(limit, n, |pages|);
  }

  lemma NextMultiple(d: nat, n: nat, m: nat)
    requires m == n + 1
    ensures d * m == d * n + d && d * (m - 1) == d * n
  {
  }

  lemma NilIsNoDoc(trace: seq<State>, i: nat)
    requires Run(trace) && i < |trace|
    ensures NIL_ID !in trace[i].db.docs
  {
    RunInv(trace, i);
  }

  /**
   The cursor a full page hands out leads the next request to just below its last
   row: no id in a reachable table is the nil UUID, which would restart the listing.
   */
  lemma CursorContinues(trace: seq<State>, i: nat, after: Option<Key>, limit: nat, r: ListResp)
    requires Run(trace) && i < |trace| && limit > 0
    requires Answers(r, trace[i].db, Page(trace[i].db, after, limit), limit) && r.nextCursor.Some?
    ensures DecodeCursor(r.nextCursor.value).Ok?
    ensures StartOf(DecodeCursor(r.nextCursor.value).value) == CursorAt([Page(trace[i].db, after, limit)], 1)
  {
    var page := Page(trace[i].db, after, limit);
    NilIsNoDoc(trace, i);
    assert Live(trace[i].db, page[|page| - 1].id) by { BelowCursor(trace[i].db, after, limit, |page| - 1); }
  }
}
