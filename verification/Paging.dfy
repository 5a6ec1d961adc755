/**
 Keyset pagination: ListDocs, the handler around it, and what a client sees who
 follows next_cursor while docs are inserted and deleted between the pages.
 */
module Paging {
  import opened Wrappers
  import opened Tables
  import opened Order

  datatype Key = Key(createdAt: Time, id: DocId)

  /** ORDER BY created_at DESC, id DESC: `j` comes before `k` in the listing. */
  predicate Before(j: Key, k: Key) {
    j.createdAt > k.createdAt || (j.createdAt == k.createdAt && j.id > k.id)
  }

  function KeyOf(db: Tables, d: DocId): Key
    requires d in db.docs
  {
    Key(db.docs[d].createdAt, d)
  }

  /** WHERE deleted_at IS NULL, and below the cursor if there is one. */
  function Selected(db: Tables, after: Option<Key>): set<Key> {
    set d | d in db.docs && Live(db, d) && (after.Some? ==> Before(after.value, KeyOf(db, d))) :: KeyOf(db, d)
  }

  lemma BeforeTotal(s: set<Key>)
    ensures TotalOn(Before, s)
  {
  }

  /** The rows ListDocs returns. */
  ghost function Page(db: Tables, after: Option<Key>, limit: nat): seq<Key> {
    BeforeTotal(Selected(db, after));
    Take(SortSet(Before, Selected(db, after)), limit)
  }

  /** Stands for the database executing the listing query. */
  method RunQuery(db: Tables, after: Option<Key>, limit: nat) returns (page: seq<Key>)
    ensures page == Page(db, after, limit)
  {
    var rows := SelectRows(db, after);
    BeforeTotal(Selected(db, after));
    var sorted := Sort(Before, rows);
    page := Take(sorted, limit);
  }

  method SelectRows(db: Tables, after: Option<Key>) returns (rows: seq<Key>)
    ensures Elems(rows) == Selected(db, after)
    ensures forall i, j :: 0 <= i < j < |rows| ==> rows[i] != rows[j]
  {
    var rest := Selected(db, after);
    rows := [];
    while rest != {}
      invariant rest <= Selected(db, after)
      invariant Elems(rows) == Selected(db, after) - rest
      invariant forall i, j :: 0 <= i < j < |rows| ==> rows[i] != rows[j]
      decreases rest
    {
      var k :| k in rest;
      ElemsAppend(rows, k);
      rows := rows + [k];
      rest := rest - {k};
    }
  }

  // ---------- the handler ----------

  datatype IdText = EmptyId | MalformedId | UuidText(id: DocId)

  datatype Cursor = Cursor(createdAt: Time, id: IdText)

  /** The cursor parameter, after the text codecs that carry it have been applied. */
  datatype CursorParam = NoCursor | BadBase64 | BadPayload | Encoded(cursor: Cursor)

  /** The limit parameter: absent, or text that strconv.Atoi reads or rejects. */
  datatype LimitParam = NoLimit | NotANumber | Number(n: int)

  datatype ListError = InvalidCursor | InvalidLimit | ListFailed

  datatype Item = Item(id: DocId, source: Bytes, title: Bytes, createdAt: Time)

  datatype ListResp = ListResp(items: seq<Item>, nextCursor: Option<CursorParam>)

  /** The zero time.Time; only its presence in an empty Cursor matters. */
  const ZERO_TIME: Time := 0

  function DecodeCursor(c: CursorParam): Result<Cursor, ListError> {
    match c
    case NoCursor => Ok(Cursor(ZERO_TIME, EmptyId))
    case BadBase64 => Err(InvalidCursor)
    case BadPayload => Err(InvalidCursor)
    case Encoded(cursor) => if cursor.id.EmptyId? then Err(InvalidCursor) else Ok(cursor)
  }

  function ParseUuidOrNil(t: IdText): DocId {
    match t
    case EmptyId => NIL_ID
    case MalformedId => NIL_ID
    case UuidText(id) => id
  }

  function ParseLimit(l: LimitParam): Result<nat, ListError> {
    match l
    case NoLimit => Ok(50)
    case NotANumber => Err(InvalidLimit)
    case Number(n) => if n <= 0 || n > 200 then Err(InvalidLimit) else Ok(n)
  }

  /** Where a request with this cursor parameter starts: nowhere, or below a key. */
  function StartOf(c: Cursor): Option<Key> {
    var id := ParseUuidOrNil(c.id);
    if id == NIL_ID then None else Some(Key(c.createdAt, id))
  }

  function ItemOf(db: Tables, k: Key): Item
    requires k.id in db.docs
  {
    Item(k.id, db.docs[k.id].doc.source, db.docs[k.id].doc.title, k.createdAt)
  }

  /** ListDocs, with its own clamp of out-of-range limits. */
  method ListDocs(db: Tables, afterCreatedAt: Time, afterId: DocId, limit: int) returns (out: seq<Key>)
    ensures out == Page(db, if afterId == NIL_ID then None else Some(Key(afterCreatedAt, afterId)),
                        if limit <= 0 || limit > 200 then 50 else limit)
  {
    var n := if limit <= 0 || limit > 200 then 50 else limit;
    var rows := RunQuery(db, if afterId == NIL_ID then None else Some(Key(afterCreatedAt, afterId)), n);
    out := [];
    for i := 0 to |rows|
      invariant out == rows[..i]
    {
      out := out + [rows[i]];
    }
  }

  /** `failing` says that the database cannot execute the query. */
  method HandleListDocs(db: Tables, failing: bool, cursor: CursorParam, limit: LimitParam)
      returns (r: Result<ListResp, ListError>)
    ensures DecodeCursor(cursor).Err? ==> r == Err(InvalidCursor)
    ensures DecodeCursor(cursor).Ok? && ParseLimit(limit).Err? ==> r == Err(InvalidLimit)
    ensures DecodeCursor(cursor).Ok? && ParseLimit(limit).Ok? && failing ==> r == Err(ListFailed)
    ensures DecodeCursor(cursor).Ok? && ParseLimit(limit).Ok? && !failing ==>
      r.Ok? && Responds(db, cursor, limit, r.value)
  {
    var cur := DecodeCursor(cursor);
    if cur.Err? {
      return Err(InvalidCursor);
    }
    var n := ParseLimit(limit);
    if n.Err? {
      return Err(InvalidLimit);
    }
    if failing {
      return Err(ListFailed);
    }
    var docs := ListDocs(db, cur.value.createdAt, ParseUuidOrNil(cur.value.id), n.value);
    PageRows(db, StartOf(cur.value), n.value);
    var items := MakeItems(db, docs);
    NextCursorContinues(docs, n.value);
    r := Ok(ListResp(items, NextCursor(docs, n.value)));
  }

  method MakeItems(db: Tables, docs: seq<Key>) returns (items: seq<Item>)
    requires forall k :: k in docs ==> k.id in db.docs
    ensures |items| == |docs| && forall i :: 0 <= i < |docs| ==> docs[i].id in db.docs && items[i] == ItemOf(db, docs[i])
  {
    items := [];
    for i := 0 to |docs|
      invariant |items| == i
      invariant forall j :: 0 <= j < i ==> docs[j].id in db.docs && items[j] == ItemOf(db, docs[j])
    {
      assert docs[i] in docs;
      items := items + [ItemOf(db, docs[i])];
    }
  }

  function NextCursor(docs: seq<Key>, limit: nat): Option<CursorParam> {
    if |docs| == limit && docs != [] then
      var last := docs[|docs| - 1];
      Some(Encoded(Cursor(last.createdAt, UuidText(last.id))))
    else
      None
  }

  lemma NextCursorContinues(docs: seq<Key>, limit: nat)
    requires |docs| <= limit && limit > 0
    ensures NextCursor(docs, limit).None? <==> |docs| < limit
    ensures NextCursor(docs, limit).Some? ==>
      && docs != [] && DecodeCursor(NextCursor(docs, limit).value).Ok?
      && StartOf(DecodeCursor(NextCursor(docs, limit).value).value) ==
         if docs[|docs| - 1].id == NIL_ID then None else Some(docs[|docs| - 1])
  {
  }

  /** One item per row of the page, and a cursor to its last row exactly when the page is full. */
  ghost predicate Answers(r: ListResp, db: Tables, page: seq<Key>, limit: nat) {
    && |r.items| == |page|
    && (forall i :: 0 <= i < |page| ==> page[i].id in db.docs && r.items[i] == ItemOf(db, page[i]))
    && (r.nextCursor.None? <==> |page| < limit)
    && (r.nextCursor.Some? ==>
          && page != []
          && DecodeCursor(r.nextCursor.value).Ok?
          && StartOf(DecodeCursor(r.nextCursor.value).value) ==
             if page[|page| - 1].id == NIL_ID then None else Some(page[|page| - 1]))
  }

  /** The successful response to a request: the page its cursor and limit ask for. */
  ghost predicate Responds(db: Tables, cursor: CursorParam, limit: LimitParam, r: ListResp) {
    && DecodeCursor(cursor).Ok? && ParseLimit(limit).Ok?
    && Answers(r, db, Page(db, StartOf(DecodeCursor(cursor).value), ParseLimit(limit).value), ParseLimit(limit).value)
  }

  /** A page is sorted, has no more rows than asked for, and leaves out only later rows. */
  lemma PageRows(db: Tables, after: Option<Key>, limit: nat)
    ensures |Page(db, after, limit)| <= limit
    ensures Sorted(Before, Page(db, after, limit))
    ensures forall k :: k in Page(db, after, limit) ==>
      k in Selected(db, after) && Live(db, k.id) && k == KeyOf(db, k.id)
    ensures forall k :: k in Selected(db, after) && k !in Page(db, after, limit) ==>
      |Page(db, after, limit)| == limit && forall p :: p in Page(db, after, limit) ==> Before(p, k)
  {
    BeforeTotal(Selected(db, after));
    var all := SortSet(Before, Selected(db, after));
    var page := Page(db, after, limit);
    assert forall i :: 0 <= i < |all| ==> all[i] in Elems(all);
    forall k | k in Selected(db, after) && k !in page
      ensures |page| == limit && forall p :: p in page ==> Before(p, k)
    {
      assert k in Elems(all);
      var i :| 0 <= i < |all| && all[i] == k;
      assert limit < |all| && page == all[..limit];
      assert i >= limit by {
        assert forall j :: 0 <= j < limit ==> all[j] == page[j];
      }
    }
  }

  /** A page lists the newest doc first and, of docs created at the same time, the greatest id first. */
  lemma NewestFirst(db: Tables, after: Option<Key>, limit: nat, i: nat, j: nat)
    requires i < j < |Page(db, after, limit)|
    ensures var j, k := Page(db, after, limit)[i], Page(db, after, limit)[j];
      j.createdAt > k.createdAt || (j.createdAt == k.createdAt && j.id > k.id)
  {
    PageRows(db, after, limit);
    assert Before(Page(db, after, limit)[i], Page(db, after, limit)[j]);
  }

  /** A page holds live docs only, each with its own created_at, and below a cursor only older ones. */
  lemma BelowCursor(db: Tables, after: Option<Key>, limit: nat, i: nat)
    requires i < |Page(db, after, limit)|
    ensures var k := Page(db, after, limit)[i];
      && k.id in db.docs && db.docs[k.id].deletedAt == None && db.docs[k.id].createdAt == k.createdAt
      && (after.Some? ==>
            k.createdAt < after.value.createdAt || (k.createdAt == after.value.createdAt && k.id < after.value.id))
  {
    PageRows(db, after, limit);
    assert Page(db, after, limit)[i] in Page(db, after, limit);
  }

  /** A live doc below the cursor that is not on the page is older than everything on a full page. */
  lemma OmittedAreOlder(db: Tables, after: Option<Key>, limit: nat, d: DocId, i: nat)
    requires d in db.docs && db.docs[d].deletedAt == None
    requires after.Some? ==>
      db.docs[d].createdAt < after.value.createdAt || (db.docs[d].createdAt == after.value.createdAt && d < after.value.id)
    requires forall k :: k in Page(db, after, limit) ==> k.id != d
    ensures |Page(db, after, limit)| == limit
    ensures i < limit ==> var k := Page(db, after, limit)[i];
      k.createdAt > db.docs[d].createdAt || (k.createdAt == db.docs[d].createdAt && k.id > d)
  {
    PageRows(db, after, limit);
    assert KeyOf(db, d) in Selected(db, after);
    if i < limit {
      assert Before(Page(db, after, limit)[i], KeyOf(db, d));
    }
  }

  /** Which requests are accepted: no limit or one of 1 to 200, and a cursor that decodes to a non-empty id, or none. */
  lemma AcceptedIff(c: CursorParam, l: LimitParam)
    ensures DecodeCursor(c).Ok? <==> c.NoCursor? || (c.Encoded? && !c.cursor.id.EmptyId?)
    ensures ParseLimit(l).Ok? <==> l.NoLimit? || (l.Number? && 1 <= l.n <= 200)
    ensures ParseLimit(l).Ok? ==> ParseLimit(l).value == if l.NoLimit? then 50 else l.n
  {
  }

  /**
   The cursors that are accepted and yet start at the first page: none at all, one whose
   id is not a UUID, and one whose id is the nil UUID.
   */
  lemma CursorRestartsIff(c: CursorParam)
    requires DecodeCursor(c).Ok?
    ensures StartOf(DecodeCursor(c).value).None?
       <==> c.NoCursor? || c.cursor.id.MalformedId? || c.cursor.id == UuidText(NIL_ID)
    ensures StartOf(DecodeCursor(c).value).Some? ==>
      StartOf(DecodeCursor(c).value) == Some(Key(c.cursor.createdAt, c.cursor.id.id))
  {
  }
}
