/**
  Keyset paging of the catalog lists: newest first, continued after the last key
  of the page before. A key is a creation time, in microseconds, and an id, each
  in one total order. The SQL form keeps microseconds in its rows and cuts the
  time of a cursor to milliseconds.
*/
module CatalogPaging {
  import opened Wrappers

  datatype Cursor = Cursor(createdAt: int, id: int)

  datatype Item = Item(key: Cursor, body: string)

  datatype Page = Page(items: seq<Item>, nextCursor: Option<Cursor>)

  predicate Less(a: Cursor, b: Cursor) {
    a.createdAt < b.createdAt || (a.createdAt == b.createdAt && a.id < b.id)
  }

  function LocaleCompare(a: int, b: int): int {
    if a < b then -1 else if a == b then 0 else 1
  }

  function CompareDescending(left: Cursor, right: Cursor): int {
    var date := LocaleCompare(right.createdAt, left.createdAt);
    if date != 0 then date else LocaleCompare(right.id, left.id)
  }

  predicate AfterCursor(item: Item, cursor: Option<Cursor>) {
    cursor.Some? ==> Less(item.key, cursor.value)
  }

  function Filter(items: seq<Item>, cursor: Option<Cursor>): seq<Item> {
    if items == [] then []
    else (if AfterCursor(items[0], cursor) then [items[0]] else []) + Filter(items[1..], cursor)
  }

  /** `item` after every element it does not precede: the sort is stable. */
  function Insert(item: Item, sorted: seq<Item>): seq<Item> {
    if sorted == [] || CompareDescending(item.key, sorted[0].key) < 0 then [item] + sorted
    else [sorted[0]] + Insert(item, sorted[1..])
  }

  function Sort(items: seq<Item>): seq<Item> {
    if items == [] then [] else Insert(items[|items| - 1], Sort(items[..|items| - 1]))
  }

  function Take<T>(s: seq<T>, n: nat): seq<T> {
    if n < |s| then s[..n] else s
  }

  function Ordered(items: seq<Item>, cursor: Option<Cursor>): seq<Item> {
    Sort(Filter(items, cursor))
  }

  function PageFrom(ordered: seq<Item>, limit: nat): Page {
    var selected := Take(ordered, limit);
    Page(selected, if limit < |ordered| && selected != [] then Some(selected[|selected| - 1].key) else None)
  }

  function PageOf(items: seq<Item>, cursor: Option<Cursor>, limit: nat): Page {
    PageFrom(Ordered(items, cursor), limit)
  }

  predicate DistinctKeys(items: seq<Item>) {
    forall i, j :: 0 <= i < j < |items| ==> items[i].key != items[j].key
  }

  predicate Descending(items: seq<Item>) {
    forall i, j :: 0 <= i < j < |items| ==> Less(items[j].key, items[i].key)
  }

  // ---- the sorted list --------------------------------------------------------------------------------------------

  lemma {:induction false} FilterMembers(items: seq<Item>, cursor: Option<Cursor>)
    ensures forall item :: item in Filter(items, cursor) <==> item in items && AfterCursor(item, cursor)
    ensures DistinctKeys(items) ==> DistinctKeys(Filter(items, cursor))
  {
    hide AfterCursor, DistinctKeys;
    if items != [] {
      FilterMembers(items[1..], cursor);
      HeadAndTail(items);
      if DistinctKeys(items) {
        HeadIsDistinct(items);
        ConsIsDistinct(items[0], Filter(items[1..], cursor));
        assert [] + Filter(items[1..], cursor) == Filter(items[1..], cursor);
      }
    }
  }

  lemma HeadAndTail(items: seq<Item>)
    requires items != []
    ensures forall item :: item in items <==> item == items[0] || item in items[1..]
  {
    assert items == [items[0]] + items[1..];
  }

  lemma HeadIsDistinct(items: seq<Item>)
    requires items != [] && DistinctKeys(items)
    ensures DistinctKeys(items[1..]) && forall item :: item in items[1..] ==> item.key != items[0].key
  {
    var rest := items[1..];
    assert forall i :: 0 <= i < |rest| ==> rest[i] == items[i + 1];
  }

  lemma ConsIsDistinct(first: Item, rest: seq<Item>)
    requires DistinctKeys(rest) && forall item :: item in rest ==> item.key != first.key
    ensures DistinctKeys([first] + rest)
  {
    assert forall i :: 0 <= i < |rest| ==> rest[i] in rest;
  }

  lemma ConsIsDescending(first: Item, rest: seq<Item>)
    requires Descending(rest) && forall item :: item in rest ==> Less(item.key, first.key)
    ensures Descending([first] + rest)
  {
    hide Less;
    assert forall i :: 0 <= i < |rest| ==> rest[i] in rest;
  }

  /** The comparison puts later keys first. */
  lemma CompareIsLess(a: Cursor, b: Cursor)
    ensures CompareDescending(a, b) < 0 <==> Less(b, a)
    ensures a != b ==> Less(a, b) || Less(b, a)
  {
  }

  lemma LessIsTransitive(a: Cursor, b: Cursor, c: Cursor)
    requires Less(a, b) && Less(b, c)
    ensures Less(a, c)
  {
  }

  lemma {:induction false} InsertIntoSorted(item: Item, sorted: seq<Item>)
    requires Descending(sorted) && forall other :: other in sorted ==> other.key != item.key
    ensures Descending(Insert(item, sorted))
    ensures forall other :: other in Insert(item, sorted) <==> other == item || other in sorted
    ensures |Insert(item, sorted)| == |sorted| + 1
  {
    if sorted == [] {
      ConsIsDescending(item, sorted);
    } else {
      TopIsFirst(sorted);
      CompareIsLess(item.key, sorted[0].key);
      hide Descending, Less, CompareDescending;
      if CompareDescending(item.key, sorted[0].key) < 0 {
        forall other | other in sorted
          ensures Less(other.key, item.key)
        {
          if other != sorted[0] {
            LessIsTransitive(other.key, sorted[0].key, item.key);
          }
        }
        ConsIsDescending(item, sorted);
      } else {
        InsertIntoSorted(item, sorted[1..]);
        ConsIsDescending(sorted[0], Insert(item, sorted[1..]));
      }
    }
  }

  lemma {:induction false} SortIsDescending(items: seq<Item>)
    requires DistinctKeys(items)
    ensures Descending(Sort(items)) && |Sort(items)| == |items|
    ensures forall item :: item in Sort(items) <==> item in items
  {
    if items != [] {
      hide DistinctKeys, Descending, Insert;
      var init, last := items[..|items| - 1], items[|items| - 1];
      LastIsDistinct(items);
      SortIsDescending(init);
      InsertIntoSorted(last, Sort(init));
    }
  }

  lemma LastIsDistinct(items: seq<Item>)
    requires items != [] && DistinctKeys(items)
    ensures var init, last := items[..|items| - 1], items[|items| - 1];
      && DistinctKeys(init)
      && (forall item :: item in items <==> item in init || item == last)
      && forall item :: item in init ==> item.key != last.key
  {
    var init, last := items[..|items| - 1], items[|items| - 1];
    assert items == init + [last];
    forall other | other in init
      ensures other.key != last.key
    {
      var i :| 0 <= i < |init| && init[i] == other;
      assert items[i] == other;
    }
  }

  lemma OrderedFacts(items: seq<Item>, cursor: Option<Cursor>)
    requires DistinctKeys(items)
    ensures Descending(Ordered(items, cursor)) && |Ordered(items, cursor)| == |Filter(items, cursor)|
    ensures forall item :: item in Ordered(items, cursor) <==> item in items && AfterCursor(item, cursor)
  {
    FilterMembers(items, cursor);
    SortIsDescending(Filter(items, cursor));
  }

  // ---- the SQL form -----------------------------------------------------------------------------------------------

  /** What `WHERE key < cursor ORDER BY key DESC LIMIT n` may return. */
  ghost predicate SqlRows(items: seq<Item>, cursor: Option<Cursor>, n: nat, rows: seq<Item>) {
    && |rows| <= n
    && Descending(rows)
    && (forall row :: row in rows ==> row in items && AfterCursor(row, cursor))
    && forall item :: item in items && AfterCursor(item, cursor) && item !in rows ==>
         |rows| == n && forall row :: row in rows ==> Less(item.key, row.key)
  }

  /** The time as a date of the language holds it. */
  function Cut(k: Cursor): Cursor {
    Cursor(k.createdAt / 1000 * 1000, k.id)
  }

  /** The page cut from `limit + 1` fetched rows; its items stand for the stored ones. */
  function SqlPage(rows: seq<Item>, limit: nat): Page {
    var mapped := Take(rows, limit);
    Page(mapped, if limit < |rows| && mapped != [] then Some(Cut(mapped[|mapped| - 1].key)) else None)
  }

  datatype Form = Memory | Sql

  /** What a form makes of the last key of a page. */
  function Mark(form: Form, k: Cursor): Cursor {
    match form
    case Memory => k
    case Sql => Cut(k)
  }

  function PageIn(form: Form, items: seq<Item>, cursor: Option<Cursor>, limit: nat): Page {
    var page := PageOf(items, cursor, limit);
    Page(page.items, if page.nextCursor.None? then None else Some(Mark(form, page.nextCursor.value)))
  }

  /** A mark is never later than its key. */
  lemma MarkIsNoLater(form: Form, k: Cursor)
    ensures Mark(form, k) == k || Less(Mark(form, k), k)
    ensures forall l: Cursor :: Less(l, Mark(form, k)) ==> Less(l, k)
    ensures !Less(k, Mark(form, k))
  {
  }

  lemma {:induction false} RowsArePrefix(ordered: seq<Item>, rows: seq<Item>, n: nat)
    requires Descending(ordered) && Descending(rows) && |rows| <= n
    requires forall row :: row in rows ==> row in ordered
    requires forall item :: item in ordered && item !in rows ==>
      |rows| == n && forall row :: row in rows ==> Less(item.key, row.key)
    ensures rows == Take(ordered, n)
    decreases ordered
  {
    if rows == [] {
      assert ordered != [] ==> ordered[0] in ordered;
    } else {
      assert rows[0] in rows && rows[0] in ordered;
      TopIsFirst(ordered);
      TopIsFirst(rows);
      var top := ordered[0];
      assert top in rows && rows[0] == top;
      hide Descending;
      RowsArePrefix(ordered[1..], rows[1..], n - 1);
      assert ordered == [top] + ordered[1..] && rows == [top] + rows[1..];
    }
  }

  lemma TopIsFirst(items: seq<Item>)
    requires Descending(items) && items != []
    ensures items[0] in items && Descending(items[1..])
    ensures forall item :: item in items[1..] <==> item in items && item != items[0]
    ensures forall item :: item in items ==> item == items[0] || Less(item.key, items[0].key)
  {
    var top := items[0];
    forall item | item in items
      ensures item == top || (item in items[1..] && Less(item.key, top.key))
    {
      var i :| 0 <= i < |items| && items[i] == item;
      assert 0 < i ==> items[1..][i - 1] == item;
    }
    forall item | item in items[1..]
      ensures item != top
    {
      var i :| 0 <= i < |items[1..]| && items[1..][i] == item;
      assert Less(items[i + 1].key, items[0].key);
    }
  }

  /** Fetching one row more than the limit and slicing gives the page of the list, its cursor cut to milliseconds. */
  lemma SqlPageIsPageIn(items: seq<Item>, cursor: Option<Cursor>, limit: nat, rows: seq<Item>)
    requires DistinctKeys(items) && SqlRows(items, cursor, limit + 1, rows)
    ensures SqlPage(rows, limit) == PageIn(Sql, items, cursor, limit)
  {
    hide Ordered, Descending, AfterCursor, SqlPage, PageFrom, SqlRows, DistinctKeys, Cut;
    OrderedFacts(items, cursor);
    RowsAreSorted(items, cursor, limit + 1, rows);
    RowsArePrefix(Ordered(items, cursor), rows, limit + 1);
    SlicedPage(Ordered(items, cursor), limit);
  }

  /** It is the page of the in-memory list exactly when the last key of the page lies on a whole millisecond. */
  lemma SqlPageIsPageOfIff(items: seq<Item>, cursor: Option<Cursor>, limit: nat, rows: seq<Item>)
    requires DistinctKeys(items) && SqlRows(items, cursor, limit + 1, rows)
    ensures var page := PageOf(items, cursor, limit);
      && SqlPage(rows, limit).items == page.items
      && (SqlPage(rows, limit) == page
          <==> page.nextCursor == None || page.items[|page.items| - 1].key.createdAt % 1000 == 0)
  {
    hide Ordered, Descending, AfterCursor, SqlPage, SqlRows, DistinctKeys;
    SqlPageIsPageIn(items, cursor, limit, rows);
  }

  lemma RowsAreSorted(items: seq<Item>, cursor: Option<Cursor>, n: nat, rows: seq<Item>)
    requires DistinctKeys(items) && SqlRows(items, cursor, n, rows)
    ensures Descending(rows) && |rows| <= n
    ensures forall row :: row in rows ==> row in Ordered(items, cursor)
    ensures forall item :: item in Ordered(items, cursor) && item !in rows ==>
      |rows| == n && forall row :: row in rows ==> Less(item.key, row.key)
  {
    hide Ordered, Less, AfterCursor, DistinctKeys, Descending;
    OrderedFacts(items, cursor);
  }

  lemma SlicedPage(ordered: seq<Item>, limit: nat)
    ensures var page := PageFrom(ordered, limit);
      SqlPage(Take(ordered, limit + 1), limit)
      == Page(page.items, if page.nextCursor.None? then None else Some(Cut(page.nextCursor.value)))
  {
    hide Cut;
  }

  // ---- reading page after page ------------------------------------------------------------------------------------

  /** The pages a reader gets, the n-th from the n-th state of the table, until a null cursor. */
  function Walk(form: Form, tables: seq<seq<Item>>, cursor: Option<Cursor>, limit: nat): seq<Page>
    decreases tables
  {
    if tables == [] then []
    else
      var page := PageIn(form, tables[0], cursor, limit);
      [page] + if page.nextCursor.None? then [] else Walk(form, tables[1..], page.nextCursor, limit)
  }

  /** The reader reached the null cursor. */
  predicate Complete(form: Form, tables: seq<seq<Item>>, cursor: Option<Cursor>, limit: nat)
    decreases tables
  {
    && tables != []
    && var page := PageIn(form, tables[0], cursor, limit);
       page.nextCursor.Some? ==> Complete(form, tables[1..], page.nextCursor, limit)
  }

  function Emitted(pages: seq<Page>): seq<Item> {
    if pages == [] then [] else pages[0].items + Emitted(pages[1..])
  }

  predicate Keeps(before: seq<Item>, after: seq<Item>) {
    forall item :: item in before ==> item in after
  }

  /** Items are added between pages, never taken away. */
  predicate Growing(tables: seq<seq<Item>>) {
    tables != [] ==>
      && DistinctKeys(tables[0])
      && (1 < |tables| ==> Keeps(tables[0], tables[1]))
      && Growing(tables[1..])
  }

  /** Marking a key passes over no other key of the table. Without a cut this always holds. */
  predicate Harmless(form: Form, items: seq<Item>) {
    forall x, y :: x in items && y in items && Less(x.key, y.key) ==> Less(x.key, Mark(form, y.key))
  }

  predicate AllHarmless(form: Form, tables: seq<seq<Item>>) {
    tables != [] ==> Harmless(form, tables[0]) && AllHarmless(form, tables[1..])
  }

  lemma MemoryIsHarmless(items: seq<Item>)
    ensures Harmless(Memory, items)
  {
  }

  lemma {:induction false} MemoryIsAllHarmless(tables: seq<seq<Item>>)
    ensures AllHarmless(Memory, tables)
  {
    if tables != [] {
      MemoryIsHarmless(tables[0]);
      MemoryIsAllHarmless(tables[1..]);
    }
  }

  /** The earlier key does not lie in the millisecond of the later, or it lies on its start and has the lower id. */
  predicate Apart(earlier: Cursor, later: Cursor) {
    earlier.createdAt / 1000 == later.createdAt / 1000 ==> earlier.createdAt % 1000 == 0 && earlier.id < later.id
  }

  /** A table is harmless to the SQL form exactly when any two of its keys are apart in this sense. */
  lemma SqlIsHarmlessIff(items: seq<Item>)
    ensures Harmless(Sql, items) <==>
      forall x, y :: x in items && y in items && Less(x.key, y.key) ==> Apart(x.key, y.key)
  {
    forall x: Item, y: Item | Less(x.key, y.key)
      ensures Less(x.key, Cut(y.key)) <==> Apart(x.key, y.key)
    {
      CutPassesIff(x.key, y.key);
    }
  }

  lemma CutPassesIff(k: Cursor, l: Cursor)
    requires Less(k, l)
    ensures Less(k, Cut(l)) <==> Apart(k, l)
  {
  }

  /** The page is the front of the sorted rest; a null cursor means nothing is left. */
  lemma PageFacts(items: seq<Item>, cursor: Option<Cursor>, limit: nat)
    requires DistinctKeys(items)
    ensures var page := PageOf(items, cursor, limit);
      && Descending(page.items)
      && (forall item :: item in page.items ==> item in items && AfterCursor(item, cursor))
      && (forall item :: item in items && AfterCursor(item, cursor) && 1 <= limit ==>
            item in page.items || (page.nextCursor.Some? && Less(item.key, page.nextCursor.value)))
      && (page.nextCursor.Some? ==> page.items != [] && page.nextCursor.value == page.items[|page.items| - 1].key)
  {
    hide Ordered, AfterCursor, DistinctKeys, Less, Descending;
    OrderedFacts(items, cursor);
    PageFromFacts(Ordered(items, cursor), limit);
  }

  lemma PageFromFacts(ordered: seq<Item>, limit: nat)
    requires Descending(ordered)
    ensures var page := PageFrom(ordered, limit);
      && Descending(page.items)
      && (forall item :: item in page.items ==> item in ordered)
      && (forall item :: item in ordered && 1 <= limit ==>
            item in page.items || (page.nextCursor.Some? && Less(item.key, page.nextCursor.value)))
      && (page.nextCursor.Some? ==> page.items != [] && page.nextCursor.value == page.items[|page.items| - 1].key)
  {
    hide Less;
    forall item | item in ordered && 1 <= limit
      ensures var page := PageFrom(ordered, limit);
        item in page.items || (page.nextCursor.Some? && Less(item.key, page.nextCursor.value))
    {
      var i :| 0 <= i < |ordered| && ordered[i] == item;
      if i < limit {
        assert Take(ordered, limit)[i] == item;
      }
    }
  }

  /** The same of a page in either form: the next page starts at the mark of the last key. */
  lemma PageInFacts(form: Form, items: seq<Item>, cursor: Option<Cursor>, limit: nat)
    requires DistinctKeys(items)
    ensures var page := PageIn(form, items, cursor, limit);
      && page.items == PageOf(items, cursor, limit).items
      && Descending(page.items)
      && (forall item :: item in page.items ==> item in items && AfterCursor(item, cursor))
      && (page.nextCursor.Some? ==>
            && page.items != []
            && page.nextCursor.value == Mark(form, page.items[|page.items| - 1].key))
  {
    hide PageOf, AfterCursor, DistinctKeys, Less, Descending, Mark;
    PageFacts(items, cursor, limit);
  }

  /** Every emitted key lies before the one emitted ahead of it, in either form: nothing comes twice. */
  lemma {:induction false} WalkIsDescending(
    form: Form, tables: seq<seq<Item>>, cursor: Option<Cursor>, limit: nat)
    requires Growing(tables)
    ensures Descending(Emitted(Walk(form, tables, cursor, limit)))
    ensures forall item :: item in Emitted(Walk(form, tables, cursor, limit)) ==> AfterCursor(item, cursor)
    decreases tables
  {
    if tables != [] {
      hide PageIn, AfterCursor, Descending, DistinctKeys, Keeps, Walk, Emitted, Less, Mark;
      PageInFacts(form, tables[0], cursor, limit);
      var page := PageIn(form, tables[0], cursor, limit);
      EmittedByWalk(form, tables, cursor, limit);
      if page.nextCursor.Some? {
        WalkIsDescending(form, tables[1..], page.nextCursor, limit);
        PageThenLater(form, page.items, cursor, Emitted(Walk(form, tables[1..], page.nextCursor, limit)));
      }
    } else {
      assert Emitted(Walk(form, tables, cursor, limit)) == [];
    }
  }

  lemma PageThenLater(form: Form, front: seq<Item>, cursor: Option<Cursor>, later: seq<Item>)
    requires front != [] && Descending(front) && Descending(later)
    requires forall item :: item in front ==> AfterCursor(item, cursor)
    requires forall item :: item in later ==> AfterCursor(item, Some(Mark(form, front[|front| - 1].key)))
    ensures Descending(front + later)
    ensures forall item :: item in front + later ==> AfterCursor(item, cursor)
  {
    hide Descending, Less, Mark;
    var last := front[|front| - 1].key;
    MarkIsNoLater(form, last);
    AfterMeansLess(later, Mark(form, last));
    LastIsAfter(front, cursor, last);
    DescendingAppend(front, later, last);
  }

  lemma AfterMeansLess(items: seq<Item>, last: Cursor)
    requires forall item :: item in items ==> AfterCursor(item, Some(last))
    ensures forall item :: item in items ==> Less(item.key, last)
  {
  }

  lemma EmittedByWalk(form: Form, tables: seq<seq<Item>>, cursor: Option<Cursor>, limit: nat)
    requires tables != []
    ensures var page := PageIn(form, tables[0], cursor, limit);
      Emitted(Walk(form, tables, cursor, limit))
      == page.items + if page.nextCursor.None? then [] else Emitted(Walk(form, tables[1..], page.nextCursor, limit))
  {
    hide PageIn;
    var page := PageIn(form, tables[0], cursor, limit);
    var later := if page.nextCursor.None? then [] else Walk(form, tables[1..], page.nextCursor, limit);
    assert ([page] + later)[1..] == later;
  }

  lemma LastIsAfter(items: seq<Item>, cursor: Option<Cursor>, last: Cursor)
    requires items != [] && last == items[|items| - 1].key
    requires forall item :: item in items ==> AfterCursor(item, cursor)
    ensures forall item: Item :: Less(item.key, last) ==> AfterCursor(item, cursor)
  {
    assert AfterCursor(items[|items| - 1], cursor);
  }

  lemma DescendingAppend(front: seq<Item>, back: seq<Item>, last: Cursor)
    requires Descending(front) && Descending(back)
    requires front != [] && last == front[|front| - 1].key
    requires forall item :: item in back ==> Less(item.key, last)
    ensures Descending(front + back)
  {
    forall i, j | 0 <= i < j < |front + back|
      ensures Less((front + back)[j].key, (front + back)[i].key)
    {
      if i < |front| <= j {
        assert (front + back)[j] in back;
        assert !Less(front[i].key, last);
      }
    }
  }

  /** However many items are inserted meanwhile, every item present at the start is emitted. */
  lemma {:induction false} WalkMissesNothing(
    form: Form, tables: seq<seq<Item>>, cursor: Option<Cursor>, limit: nat, item: Item)
    requires Growing(tables) && AllHarmless(form, tables) && 1 <= limit && Complete(form, tables, cursor, limit)
    requires item in tables[0] && AfterCursor(item, cursor)
    ensures item in Emitted(Walk(form, tables, cursor, limit))
    decreases tables
  {
    hide PageIn, AfterCursor, DistinctKeys, Walk, Emitted, Harmless;
    var page := PageIn(form, tables[0], cursor, limit);
    EmittedByWalk(form, tables, cursor, limit);
    if item !in page.items {
      NotOnThePage(form, tables[0], cursor, limit, item);
      WalkMissesNothing(form, tables[1..], page.nextCursor, limit, item);
    }
  }

  lemma NotOnThePage(form: Form, items: seq<Item>, cursor: Option<Cursor>, limit: nat, item: Item)
    requires DistinctKeys(items) && Harmless(form, items) && 1 <= limit
    requires item in items && AfterCursor(item, cursor) && item !in PageIn(form, items, cursor, limit).items
    ensures var next := PageIn(form, items, cursor, limit).nextCursor; next.Some? && AfterCursor(item, next)
  {
    PageFacts(items, cursor, limit);
    hide PageOf, DistinctKeys, Less, Mark;
    var page := PageOf(items, cursor, limit);
    assert page.items[|page.items| - 1] in items;
  }

  /** Strictly descending keys place an item at one position at most. */
  lemma EmittedOnce(items: seq<Item>, item: Item)
    requires Descending(items) && item in items
    ensures exists i :: Alone(items, item, i)
  {
    var i :| 0 <= i < |items| && items[i] == item;
    forall j | 0 <= j < |items| && j != i
      ensures items[j] != item
    {
      assert if j < i then Less(items[i].key, items[j].key) else Less(items[j].key, items[i].key);
    }
    assert Alone(items, item, i);
  }

  /** `item` stands at position `i` and nowhere else. */
  predicate Alone(items: seq<Item>, item: Item, i: int) {
    0 <= i < |items| && items[i] == item && forall j :: 0 <= j < |items| && j != i ==> items[j] != item
  }

  /** The complete run from the start: each item of the first table exactly once, in strictly descending order. */
  lemma PagingIsExact(form: Form, tables: seq<seq<Item>>, limit: nat, item: Item)
    requires Growing(tables) && AllHarmless(form, tables) && 1 <= limit && Complete(form, tables, None, limit)
    requires item in tables[0]
    ensures var all := Emitted(Walk(form, tables, None, limit)); Descending(all) && exists i :: Alone(all, item, i)
  {
    hide Walk, Emitted, Descending, Growing, AllHarmless, Complete, Alone;
    WalkIsDescending(form, tables, None, limit);
    WalkMissesNothing(form, tables, None, limit, item);
    EmittedOnce(Emitted(Walk(form, tables, None, limit)), item);
  }

  // ---- an unchanging table ----------------------------------------------------------------------------------------

  lemma {:induction false} SameMembersSamePrefix(a: seq<Item>, b: seq<Item>)
    requires Descending(a) && Descending(b) && forall item :: item in a <==> item in b
    ensures |a| <= |b| && a == b[..|a|]
    decreases a
  {
    if a != [] {
      TopIsFirst(a);
      assert b != [] by {
        assert a[0] in b;
      }
      TopIsFirst(b);
      assert a[0] == b[0];
      hide Descending, Less;
      SameMembersSamePrefix(a[1..], b[1..]);
    }
  }

  lemma DescendingIsUnique(a: seq<Item>, b: seq<Item>)
    requires Descending(a) && Descending(b) && forall item :: item in a <==> item in b
    ensures a == b
  {
    hide Descending;
    SameMembersSamePrefix(a, b);
    SameMembersSamePrefix(b, a);
  }

  /** After a page the rest of the sorted list is what its last key selects. */
  lemma NextIsTheRest(items: seq<Item>, cursor: Option<Cursor>, limit: nat)
    requires DistinctKeys(items) && 1 <= limit && PageOf(items, cursor, limit).nextCursor.Some?
    ensures Ordered(items, PageOf(items, cursor, limit).nextCursor) == Ordered(items, cursor)[limit..]
    ensures |Filter(items, PageOf(items, cursor, limit).nextCursor)| == |Filter(items, cursor)| - limit
  {
    var ordered := Ordered(items, cursor);
    assert limit < |ordered|;
    var last := ordered[limit - 1].key;
    assert PageOf(items, cursor, limit).nextCursor == Some(last);
    hide Ordered, Filter, Descending, PageOf, DistinctKeys, Less, AfterCursor;
    OrderedFacts(items, cursor);
    OrderedFacts(items, Some(last));
    RestOfDescending(ordered, limit);
    LastIsAfterAll(ordered, cursor, limit);
    AfterLast(ordered, items, cursor, limit, Ordered(items, Some(last)));
    DescendingIsUnique(ordered[limit..], Ordered(items, Some(last)));
  }

  /** What comes after the first `limit` elements is what lies before the last of them. */
  lemma RestOfDescending(ordered: seq<Item>, limit: nat)
    requires Descending(ordered) && 1 <= limit <= |ordered|
    ensures Descending(ordered[limit..])
    ensures forall item :: item in ordered[limit..] <==> item in ordered && Less(item.key, ordered[limit - 1].key)
  {
    var rest := ordered[limit..];
    assert forall i :: 0 <= i < |rest| ==> rest[i] == ordered[i + limit];
    forall item | item in ordered && Less(item.key, ordered[limit - 1].key)
      ensures item in rest
    {
      var i :| 0 <= i < |ordered| && ordered[i] == item;
      assert rest[i - limit] == item;
    }
  }

  lemma LastIsAfterAll(ordered: seq<Item>, cursor: Option<Cursor>, limit: nat)
    requires 1 <= limit <= |ordered| && forall item :: item in ordered ==> AfterCursor(item, cursor)
    ensures forall item: Item :: Less(item.key, ordered[limit - 1].key) ==> AfterCursor(item, cursor)
  {
    assert AfterCursor(ordered[limit - 1], cursor);
  }

  lemma AfterLast(ordered: seq<Item>, items: seq<Item>, cursor: Option<Cursor>, limit: nat, later: seq<Item>)
    requires 1 <= limit <= |ordered|
    requires forall item :: item in ordered <==> item in items && AfterCursor(item, cursor)
    requires forall item :: item in later <==> item in items && AfterCursor(item, Some(ordered[limit - 1].key))
    requires forall item: Item :: Less(item.key, ordered[limit - 1].key) ==> AfterCursor(item, cursor)
    requires forall item :: item in ordered[limit..] <==> item in ordered && Less(item.key, ordered[limit - 1].key)
    ensures forall item :: item in ordered[limit..] <==> item in later
  {
    hide Less;
  }

  lemma {:induction false} FilterShrinks(items: seq<Item>, c: Cursor, d: Cursor)
    requires forall l: Cursor :: Less(l, c) ==> Less(l, d)
    ensures |Filter(items, Some(c))| <= |Filter(items, Some(d))|
  {
    if items != [] {
      FilterShrinks(items[1..], c, d);
    }
  }

  lemma {:induction false} FilterAgrees(items: seq<Item>, c: Option<Cursor>, d: Option<Cursor>)
    requires forall item :: item in items ==> (AfterCursor(item, c) <==> AfterCursor(item, d))
    ensures Filter(items, c) == Filter(items, d)
  {
    if items != [] {
      FilterAgrees(items[1..], c, d);
    }
  }

  /** What is left to read shrinks, whatever the form makes of the last key. */
  lemma NextShrinks(form: Form, items: seq<Item>, cursor: Option<Cursor>, limit: nat)
    requires DistinctKeys(items) && 1 <= limit && PageIn(form, items, cursor, limit).nextCursor.Some?
    ensures |Filter(items, PageIn(form, items, cursor, limit).nextCursor)| < |Filter(items, cursor)|
  {
    hide PageOf, Filter, DistinctKeys, Less, Mark;
    var last := PageOf(items, cursor, limit).nextCursor.value;
    NextIsTheRest(items, cursor, limit);
    MarkIsNoLater(form, last);
    FilterShrinks(items, Mark(form, last), last);
  }

  /** All pages of a table that does not change. */
  function ReadAll(form: Form, items: seq<Item>, cursor: Option<Cursor>, limit: nat): seq<Item>
    requires DistinctKeys(items) && 1 <= limit
    decreases |Filter(items, cursor)|
  {
    var page := PageIn(form, items, cursor, limit);
    if page.nextCursor.None? then page.items
    else
      NextShrinks(form, items, cursor, limit);
      page.items + ReadAll(form, items, page.nextCursor, limit)
  }

  /** A mark that passes over nothing selects what its key does. */
  lemma HarmlessNext(form: Form, items: seq<Item>, cursor: Option<Cursor>, limit: nat)
    requires DistinctKeys(items) && Harmless(form, items) && 1 <= limit
    requires PageIn(form, items, cursor, limit).nextCursor.Some?
    ensures Ordered(items, PageIn(form, items, cursor, limit).nextCursor)
         == Ordered(items, PageOf(items, cursor, limit).nextCursor)
  {
    hide PageOf, Sort, Filter, DistinctKeys, Less, Mark;
    PageFacts(items, cursor, limit);
    var page := PageOf(items, cursor, limit);
    var last := page.nextCursor.value;
    assert page.items[|page.items| - 1] in items;
    MarkIsNoLater(form, last);
    FilterAgrees(items, Some(Mark(form, last)), Some(last));
  }

  /** Where marks pass over nothing, the pages put together are the sorted, filtered list. */
  lemma {:induction false} PagesAreTheSortedList(form: Form, items: seq<Item>, cursor: Option<Cursor>, limit: nat)
    requires DistinctKeys(items) && Harmless(form, items) && 1 <= limit
    ensures ReadAll(form, items, cursor, limit) == Ordered(items, cursor)
    decreases |Filter(items, cursor)|
  {
    hide DistinctKeys, Harmless, Ordered, Filter, Mark;
    ReadUnfolds(form, items, cursor, limit);
    var page := PageIn(form, items, cursor, limit);
    var ordered := Ordered(items, cursor);
    if page.nextCursor.Some? {
      NextShrinks(form, items, cursor, limit);
      HarmlessNext(form, items, cursor, limit);
      NextIsTheRest(items, cursor, limit);
      hide ReadAll;
      PagesAreTheSortedList(form, items, page.nextCursor, limit);
      assert ordered == ordered[..limit] + ordered[limit..];
    }
  }

  lemma ReadUnfolds(form: Form, items: seq<Item>, cursor: Option<Cursor>, limit: nat)
    requires DistinctKeys(items) && 1 <= limit
    ensures var page := PageIn(form, items, cursor, limit);
      ReadAll(form, items, cursor, limit)
      == page.items + if page.nextCursor.None? then [] else ReadAll(form, items, page.nextCursor, limit)
  {
    hide PageIn, DistinctKeys;
  }

  lemma {:induction false} ReadIsAfter(form: Form, items: seq<Item>, cursor: Option<Cursor>, limit: nat)
    requires DistinctKeys(items) && 1 <= limit
    ensures forall item :: item in ReadAll(form, items, cursor, limit) ==> item in items && AfterCursor(item, cursor)
    decreases |Filter(items, cursor)|
  {
    hide DistinctKeys, Filter, Mark, PageIn, ReadAll, AfterCursor;
    ReadUnfolds(form, items, cursor, limit);
    PageInFacts(form, items, cursor, limit);
    var page := PageIn(form, items, cursor, limit);
    if page.nextCursor.Some? {
      NextShrinks(form, items, cursor, limit);
      ReadIsAfter(form, items, page.nextCursor, limit);
      MarkIsNoLater(form, page.items[|page.items| - 1].key);
      AfterMarkIsAfter(page.items, cursor, form);
    }
  }

  lemma AfterMarkIsAfter(read: seq<Item>, cursor: Option<Cursor>, form: Form)
    requires read != [] && forall item :: item in read ==> AfterCursor(item, cursor)
    ensures forall item: Item ::
      AfterCursor(item, Some(Mark(form, read[|read| - 1].key))) ==> AfterCursor(item, cursor)
  {
    MarkIsNoLater(form, read[|read| - 1].key);
    LastIsAfter(read, cursor, read[|read| - 1].key);
  }

  /** Reading one item at a time gives the whole list only if no mark passes over an item of it. */
  lemma {:induction false} OneByOne(form: Form, items: seq<Item>, cursor: Option<Cursor>)
    requires DistinctKeys(items) && ReadAll(form, items, cursor, 1) == Ordered(items, cursor)
    ensures Harmless(form, Ordered(items, cursor))
    decreases |Filter(items, cursor)|
  {
    hide DistinctKeys, Filter, Mark, ReadAll, AfterCursor, Less, Ordered, Harmless;
    var ordered := Ordered(items, cursor);
    ReadUnfolds(form, items, cursor, 1);
    OrderedFacts(items, cursor);
    if |ordered| <= 1 {
      ShortIsHarmless(form, ordered);
    } else {
      var top, rest := ordered[0], ordered[1..];
      var next := Some(Mark(form, top.key));
      assert PageIn(form, items, cursor, 1) == Page([top], next);
      NextShrinks(form, items, cursor, 1);
      assert ReadAll(form, items, next, 1) == rest by {
        assert ([top] + ReadAll(form, items, next, 1))[1..] == ReadAll(form, items, next, 1);
      }
      ReadIsAfter(form, items, next, 1);
      RestIsNext(form, items, cursor, ordered);
      OneByOne(form, items, next);
      TopIsHarmless(form, ordered);
    }
  }

  lemma ShortIsHarmless(form: Form, ordered: seq<Item>)
    requires |ordered| <= 1
    ensures Harmless(form, ordered)
  {
  }

  lemma RestIsNext(form: Form, items: seq<Item>, cursor: Option<Cursor>, ordered: seq<Item>)
    requires DistinctKeys(items) && ordered == Ordered(items, cursor) && ordered != []
    requires forall item :: item in ordered[1..] ==> AfterCursor(item, Some(Mark(form, ordered[0].key)))
    ensures Ordered(items, Some(Mark(form, ordered[0].key))) == ordered[1..]
  {
    hide Ordered, DistinctKeys, Mark, Descending;
    var top, next := ordered[0], Some(Mark(form, ordered[0].key));
    OrderedFacts(items, cursor);
    OrderedFacts(items, next);
    TopIsFirst(ordered);
    MarkIsNoLater(form, top.key);
    forall item
      ensures item in ordered[1..] <==> item in Ordered(items, next)
    {
      if item in Ordered(items, next) {
        assert Less(item.key, top.key) && AfterCursor(top, cursor);
      }
    }
    DescendingIsUnique(ordered[1..], Ordered(items, next));
  }

  lemma TopIsHarmless(form: Form, ordered: seq<Item>)
    requires ordered != [] && Descending(ordered) && Harmless(form, ordered[1..])
    requires forall item :: item in ordered[1..] ==> AfterCursor(item, Some(Mark(form, ordered[0].key)))
    ensures Harmless(form, ordered)
  {
    TopIsFirst(ordered);
    hide Descending, Mark;
  }

  /**
    Reading an unchanging table page by page gives the sorted list, with every
    limit, exactly when marks pass over nothing; one item at a time is enough to
    show where they do.
  */
  lemma ReadingIsExactIff(form: Form, items: seq<Item>)
    requires DistinctKeys(items)
    ensures ReadAll(form, items, None, 1) == Ordered(items, None) <==> Harmless(form, items)
    ensures (forall limit: nat :: 1 <= limit ==> ReadAll(form, items, None, limit) == Ordered(items, None))
       <==> Harmless(form, items)
  {
    hide DistinctKeys, ReadAll, Ordered, Harmless;
    if Harmless(form, items) {
      forall limit: nat | 1 <= limit
        ensures ReadAll(form, items, None, limit) == Ordered(items, None)
      {
        PagesAreTheSortedList(form, items, None, limit);
      }
    }
    if ReadAll(form, items, None, 1) == Ordered(items, None) {
      OneByOne(form, items, None);
      SameMembersHarmless(form, items);
    }
  }

  lemma SameMembersHarmless(form: Form, items: seq<Item>)
    requires DistinctKeys(items) && Harmless(form, Ordered(items, None))
    ensures Harmless(form, items)
  {
    hide Ordered, Mark, Less, DistinctKeys;
    OrderedFacts(items, None);
  }

  /** Two rows of one statement, whose common time is off the millisecond: with limit 1 the second is never read. */
  lemma CutSkipsARow(items: seq<Item>, first: Item, second: Item)
    requires items == [first, second]
    requires first.key.createdAt == second.key.createdAt && first.key.createdAt % 1000 != 0
    requires first.key.id < second.key.id
    ensures DistinctKeys(items) && Ordered(items, None) == [second, first]
    ensures ReadAll(Sql, items, None, 1) == [second]
  {
    var next := Some(Cut(second.key));
    hide Ordered, ReadAll, PageIn, PageOf, Filter;
    TwoInOrder(first, second);
    NothingAfterTheCut(first, second);
    PageOfTwo(items, first, second);
    LastPage(items, next);
    ReadUnfolds(Sql, items, None, 1);
    ReadUnfolds(Sql, items, next, 1);
  }

  lemma TwoInOrder(first: Item, second: Item)
    requires Less(first.key, second.key)
    ensures DistinctKeys([first, second]) && Ordered([first, second], None) == [second, first]
  {
    var items := [first, second];
    assert DistinctKeys(items);
    hide Ordered, Less;
    OrderedFacts(items, None);
    DescendingIsUnique(Ordered(items, None), [second, first]);
  }

  lemma NothingAfterTheCut(first: Item, second: Item)
    requires DistinctKeys([first, second]) && first.key.createdAt == second.key.createdAt
    requires first.key.createdAt % 1000 != 0
    ensures Ordered([first, second], Some(Cut(second.key))) == []
  {
    var items, next := [first, second], Some(Cut(second.key));
    assert forall item :: item in items ==> !AfterCursor(item, next);
    hide Ordered, AfterCursor, Cut, Filter;
    OrderedFacts(items, next);
    FilterOfNone(items, next);
  }

  lemma {:induction false} FilterOfNone(items: seq<Item>, cursor: Option<Cursor>)
    requires forall item :: item in items ==> !AfterCursor(item, cursor)
    ensures Filter(items, cursor) == []
  {
    if items != [] {
      FilterOfNone(items[1..], cursor);
    }
  }

  lemma PageOfTwo(items: seq<Item>, first: Item, second: Item)
    requires Ordered(items, None) == [second, first]
    ensures PageIn(Sql, items, None, 1) == Page([second], Some(Cut(second.key)))
  {
    hide Ordered;
  }

  lemma LastPage(items: seq<Item>, cursor: Option<Cursor>)
    requires Ordered(items, cursor) == []
    ensures PageIn(Sql, items, cursor, 1) == Page([], None)
  {
    hide Ordered;
  }

  /** A cut time is the start of the millisecond its key lies in. */
  lemma CutIsTheMillisecond(k: Cursor)
    ensures Cut(k).id == k.id && Cut(k).createdAt % 1000 == 0
    ensures Cut(k).createdAt <= k.createdAt < Cut(k).createdAt + 1000
  {
  }
}
