/** The listing as a client meets it: requests to the handler at successive states of a run of the store. */
module PagingClient {
  import opened Wrappers
  import opened Tables
  import opened Order
  import opened Protocol
  import opened Paging
  import opened PagingWalk

  /** A request and the response to it. */
  datatype Exchange = Exchange(cursor: CursorParam, limit: LimitParam, resp: ListResp)

  /**
   A client that starts without a cursor and hands each response's cursor back;
   request `i` reaches the database in state `at[i]`.
   */
  ghost predicate Session(trace: seq<State>, at: seq<nat>, xs: seq<Exchange>) {
    && |at| == |xs|
    && (forall i :: 0 <= i < |at| ==> at[i] < |trace|)
    && (forall i, j :: 0 <= i <= j < |at| ==> at[i] <= at[j])
    && (xs != [] ==> xs[0].cursor == NoCursor)
    && (forall i :: 0 <= i < |xs| ==> Answered(trace[at[i]].db, xs[i]))
    && (forall i, j :: 0 <= i && j == i + 1 < |xs| ==> HandsBack(xs[i], xs[j]))
  }

  ghost predicate Answered(db: Tables, x: Exchange) {
    Responds(db, x.cursor, x.limit, x.resp)
  }

  predicate HandsBack(x: Exchange, y: Exchange) {
    x.resp.nextCursor == Some(y.cursor)
  }

  function LimitOf(x: Exchange): nat {
    if ParseLimit(x.limit).Ok? then ParseLimit(x.limit).value else 0
  }

  function StartAt(x: Exchange): Option<Key> {
    if DecodeCursor(x.cursor).Ok? then StartOf(DecodeCursor(x.cursor).value) else None
  }

  function TablesAt(trace: seq<State>, at: seq<nat>): (dbs: seq<Tables>)
    requires forall i :: 0 <= i < |at| ==> at[i] < |trace|
    ensures |dbs| == |at|
  {
    seq(|at|, i requires 0 <= i < |at| => trace[at[i]].db)
  }

  function LimitsOf(xs: seq<Exchange>): (ls: seq<nat>)
    ensures |ls| == |xs|
  {
    seq(|xs|, i requires 0 <= i < |xs| => LimitOf(xs[i]))
  }

  /** The keys behind the items of each response. */
  ghost function PagesOf(dbs: seq<Tables>, xs: seq<Exchange>): (pages: seq<seq<Key>>)
    requires |dbs| == |xs|
    ensures |pages| == |xs|
  {
    seq(|xs|, i requires 0 <= i < |xs| => Page(dbs[i], StartAt(xs[i]), LimitOf(xs[i])))
  }

  /** A response hands out a cursor exactly when its page is full. */
  lemma FullOrLast(trace: seq<State>, at: seq<nat>, xs: seq<Exchange>, i: nat)
    requires Session(trace, at, xs) && i < |xs|
    ensures 1 <= LimitOf(xs[i]) <= 200
    ensures |PagesOf(TablesAt(trace, at), xs)[i]| <= LimitOf(xs[i])
    ensures |PagesOf(TablesAt(trace, at), xs)[i]| < LimitOf(xs[i]) <==> xs[i].resp.nextCursor.None?
  {
    assert Answered(trace[at[i]].db, xs[i]);
    PageRows(trace[at[i]].db, StartAt(xs[i]), LimitOf(xs[i]));
  }

  /** A request starts where the page before it ended. */
  lemma StartFollows(trace: seq<State>, at: seq<nat>, xs: seq<Exchange>, i: nat, j: nat)
    requires Run(trace) && Session(trace, at, xs) && j == i + 1 < |xs|
    ensures CursorAt(PagesOf(TablesAt(trace, at), xs), j) == StartAt(xs[j])
  {
    Adjacent(trace, at, xs, i, j);
    CursorOfPage(TablesAt(trace, at), xs, i, j);
    StartHanded(trace, at[i], xs[i], xs[j]);
  }

  lemma Adjacent(trace: seq<State>, at: seq<nat>, xs: seq<Exchange>, i: nat, j: nat)
    requires Session(trace, at, xs) && j == i + 1 < |xs|
    ensures at[i] < |trace| && Answered(trace[at[i]].db, xs[i]) && HandsBack(xs[i], xs[j])
  {
  }

  lemma CursorOfPage(dbs: seq<Tables>, xs: seq<Exchange>, i: nat, j: nat)
    requires |dbs| == |xs| && j == i + 1 < |xs|
    ensures CursorAt(PagesOf(dbs, xs), j) == CursorAt([Page(dbs[i], StartAt(xs[i]), LimitOf(xs[i]))], 1)
  {
    assert PagesOf(dbs, xs)[i] == Page(dbs[i], StartAt(xs[i]), LimitOf(xs[i]));
  }

  lemma StartHanded(trace: seq<State>, k: nat, x: Exchange, y: Exchange)
    requires Run(trace) && k < |trace| && Answered(trace[k].db, x) && HandsBack(x, y)
    ensures CursorAt([Page(trace[k].db, StartAt(x), LimitOf(x))], 1) == StartAt(y)
  {
    CursorContinues(trace, k, StartAt(x), LimitOf(x), x.resp);
  }

  /** One request of the session reads the page that the walk has at this place. */
  lemma ExchangeIsPage(trace: seq<State>, at: seq<nat>, xs: seq<Exchange>, i: nat)
    requires Run(trace) && Session(trace, at, xs) && i < |xs|
    ensures PageAt(TablesAt(trace, at), LimitsOf(xs), PagesOf(TablesAt(trace, at), xs), i)
  {
    FullOrLast(trace, at, xs, i);
    if i > 0 {
      StartFollows(trace, at, xs, i - 1, i);
    }
    if i < |xs| - 1 {
      assert HandsBack(xs[i], xs[i + 1]);
    }
  }

  /** What the client does is a walk over evolving tables, so everything proved of walks holds for it. */
  lemma SessionIsWalk(trace: seq<State>, at: seq<nat>, xs: seq<Exchange>)
    requires Run(trace) && Session(trace, at, xs)
    ensures Walk(TablesAt(trace, at), LimitsOf(xs), PagesOf(TablesAt(trace, at), xs))
    ensures Evolving(TablesAt(trace, at))
  {
    RunIsEvolving(trace, at);
    forall i | 0 <= i < |xs|
      ensures PageAt(TablesAt(trace, at), LimitsOf(xs), PagesOf(TablesAt(trace, at), xs), i)
    {
      ExchangeIsPage(trace, at, xs, i);
    }
  }

  /** Item `m` of a response shows row `m` of its page. */
  lemma ItemIsRow(trace: seq<State>, at: seq<nat>, xs: seq<Exchange>, i: nat)
    requires Session(trace, at, xs) && i < |xs|
    ensures |xs[i].resp.items| == |PagesOf(TablesAt(trace, at), xs)[i]|
    ensures forall m :: 0 <= m < |xs[i].resp.items| ==>
      && xs[i].resp.items[m].id == PagesOf(TablesAt(trace, at), xs)[i][m].id
      && xs[i].resp.items[m].createdAt == PagesOf(TablesAt(trace, at), xs)[i][m].createdAt
  {
    assert Answered(trace[at[i]].db, xs[i]);
  }

  // ---------- positions in the concatenation ----------

  function Offset(pages: seq<seq<Key>>, i: nat): nat
    requires i <= |pages|
  {
    |Concat(pages[..i])|
  }

  lemma OffsetNext(pages: seq<seq<Key>>, i: nat)
    requires i < |pages|
    ensures Concat(pages[..i + 1]) == Concat(pages[..i]) + pages[i]
  {
    assert pages[..i + 1][..i] == pages[..i];
  }

  lemma {:induction false} OffsetGrows(pages: seq<seq<Key>>, i: nat, j: nat)
    requires i <= j <= |pages|
    ensures Offset(pages, i) <= Offset(pages, j) && Concat(pages[..i]) <= Concat(pages[..j])
    decreases j
  {
    if i < j {
      OffsetGrows(pages, i, j - 1);
      OffsetNext(pages, j - 1);
    }
  }

  /** Row `m` of page `i` is at this position of all rows shown. */
  lemma RowPosition(pages: seq<seq<Key>>, i: nat, m: nat)
    requires i < |pages| && m < |pages[i]|
    ensures Offset(pages, i) + m < Offset(pages, i + 1) <= |Concat(pages)|
    ensures Concat(pages)[Offset(pages, i) + m] == pages[i][m]
  {
    OffsetNext(pages, i);
    OffsetGrows(pages, i + 1, |pages|);
    assert pages[..|pages|] == pages;
  }

  lemma {:induction false} RowOfConcat(pages: seq<seq<Key>>, k: Key) returns (i: nat, m: nat)
    requires k in Concat(pages)
    ensures i < |pages| && m < |pages[i]| && pages[i][m] == k
  {
    var n := |pages| - 1;
    if k in pages[n] {
      i := n;
      m :| 0 <= m < |pages[n]| && pages[n][m] == k;
    } else {
      i, m := RowOfConcat(pages[..n], k);
    }
  }

  // ---------- what the client is promised ----------

  /** Whatever is inserted and deleted between the requests, no doc is listed twice. */
  lemma ClientSeesNoDocTwice(trace: seq<State>, at: seq<nat>, xs: seq<Exchange>, i: nat, m: nat, j: nat, n: nat)
    requires Run(trace) && Session(trace, at, xs) && i < |xs| && j < |xs|
    requires m < |xs[i].resp.items| && n < |xs[j].resp.items| && (i != j || m != n)
    ensures xs[i].resp.items[m].id != xs[j].resp.items[n].id
  {
    SessionIsWalk(trace, at, xs);
    ItemIsRow(trace, at, xs, i);
    ItemIsRow(trace, at, xs, j);
    DistinctRows(TablesAt(trace, at), LimitsOf(xs), PagesOf(TablesAt(trace, at), xs), i, m, j, n);
  }

  lemma DistinctRows(dbs: seq<Tables>, limits: seq<nat>, pages: seq<seq<Key>>, i: nat, m: nat, j: nat, n: nat)
    requires Walk(dbs, limits, pages) && Evolving(dbs) && i < |pages| && j < |pages|
    requires m < |pages[i]| && n < |pages[j]| && (i != j || m != n)
    ensures pages[i][m].id != pages[j][n].id
  {
    NoDocTwice(dbs, limits, pages);
    RowPosition(pages, i, m);
    RowPosition(pages, j, n);
    if i < j {
      OffsetGrows(pages, i + 1, j);
    } else if j < i {
      OffsetGrows(pages, j + 1, i);
    }
    assert Offset(pages, i) + m != Offset(pages, j) + n;
  }

  /** Within a response and from one response to the next, items go from newest to oldest. */
  lemma ClientSeesNewestFirst(trace: seq<State>, at: seq<nat>, xs: seq<Exchange>, i: nat, m: nat, j: nat, n: nat)
    requires Run(trace) && Session(trace, at, xs) && i < |xs| && j < |xs|
    requires m < |xs[i].resp.items| && n < |xs[j].resp.items| && (i < j || (i == j && m < n))
    ensures var x, y := xs[i].resp.items[m], xs[j].resp.items[n];
      x.createdAt > y.createdAt || (x.createdAt == y.createdAt && x.id > y.id)
  {
    SessionIsWalk(trace, at, xs);
    ItemIsRow(trace, at, xs, i);
    ItemIsRow(trace, at, xs, j);
    RowsInOrder(TablesAt(trace, at), LimitsOf(xs), PagesOf(TablesAt(trace, at), xs), i, m, j, n);
  }

  lemma RowsInOrder(dbs: seq<Tables>, limits: seq<nat>, pages: seq<seq<Key>>, i: nat, m: nat, j: nat, n: nat)
    requires Walk(dbs, limits, pages) && i < |pages| && j < |pages|
    requires m < |pages[i]| && n < |pages[j]| && (i < j || (i == j && m < n))
    ensures var x, y := pages[i][m], pages[j][n];
      x.createdAt > y.createdAt || (x.createdAt == y.createdAt && x.id > y.id)
  {
    RowPosition(pages, i, m);
    RowPosition(pages, j, n);
    if i < j {
      OffsetGrows(pages, i + 1, j);
    }
    WalkNewestFirst(dbs, limits, pages, Offset(pages, i) + m, Offset(pages, j) + n);
  }

  /** Each item shows a doc that was live when the request was answered: its own source, title and created_at. */
  lemma ItemShowsDoc(trace: seq<State>, at: seq<nat>, xs: seq<Exchange>, i: nat, m: nat)
    requires Session(trace, at, xs) && i < |xs| && m < |xs[i].resp.items|
    ensures var item, docs := xs[i].resp.items[m], trace[at[i]].db.docs;
      && item.id in docs && docs[item.id].deletedAt == None && docs[item.id].createdAt == item.createdAt
      && docs[item.id].doc.source == item.source && docs[item.id].doc.title == item.title
  {
    assert Answered(trace[at[i]].db, xs[i]);
    BelowCursor(trace[at[i]].db, StartAt(xs[i]), LimitOf(xs[i]), m);
  }

  /** The client cannot go on for ever: it never makes more requests than there are docs, plus one. */
  lemma ClientFinishes(trace: seq<State>, at: seq<nat>, xs: seq<Exchange>)
    requires Run(trace) && Session(trace, at, xs) && xs != []
    ensures |xs| <= |trace[at[|at| - 1]].db.docs| + 1
  {
    SessionIsWalk(trace, at, xs);
    WalkBounded(TablesAt(trace, at), LimitsOf(xs), PagesOf(TablesAt(trace, at), xs));
  }

  /** A client that follows cursors until none is returned has been shown every doc that was live all along. */
  lemma ClientSeesEveryDoc(trace: seq<State>, at: seq<nat>, xs: seq<Exchange>, d: DocId) returns (i: nat, m: nat)
    requires Run(trace) && Session(trace, at, xs) && xs != []
    requires xs[|xs| - 1].resp.nextCursor.None?
    requires d in trace[at[0]].db.docs && Live(trace[at[|at| - 1]].db, d)
    ensures i < |xs| && m < |xs[i].resp.items| && xs[i].resp.items[m].id == d
  {
    var dbs, pages := TablesAt(trace, at), PagesOf(TablesAt(trace, at), xs);
    SessionIsWalk(trace, at, xs);
    FullOrLast(trace, at, xs, |xs| - 1);
    WalkComplete(dbs, LimitsOf(xs), pages, d);
    i, m := RowOfConcat(pages, KeyOf(dbs[0], d));
    ItemIsRow(trace, at, xs, i);
  }
}
