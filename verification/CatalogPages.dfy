/** What one page of a catalog list holds, said without the sort and the slice that make it. */
module CatalogPages {
  import opened Wrappers
  import opened CatalogPaging

  /** The items a cursor leaves to read. */
  function LeftToRead(items: seq<Item>, cursor: Option<Cursor>): set<Item> {
    set item | item in items
      && (cursor.Some? ==>
            item.key.createdAt < cursor.value.createdAt
            || (item.key.createdAt == cursor.value.createdAt && item.key.id < cursor.value.id))
  }

  lemma {:induction false} DistinctCount(items: seq<Item>, members: set<Item>)
    requires DistinctKeys(items) && forall item :: item in members <==> item in items
    ensures |members| == |items|
    decreases items
  {
    if items == [] {
      assert members == {};
    } else {
      HeadIsDistinct(items);
      HeadAndTail(items);
      hide DistinctKeys;
      DistinctCount(items[1..], members - {items[0]});
    }
  }

  /**
    A page, by time and id: the newest of what is left, newest first, as many as
    the limit allows, and with a cursor exactly when it leaves something.
  */
  lemma PageIsTheNewest(items: seq<Item>, cursor: Option<Cursor>, limit: nat)
    requires DistinctKeys(items) && 1 <= limit
    ensures var page, left := PageOf(items, cursor, limit), LeftToRead(items, cursor);
      && |page.items| == (if |left| < limit then |left| else limit)
      && (forall item :: item in page.items ==> item in left)
      && (page.nextCursor.Some? <==> limit < |left|)
      && (forall i, j :: 0 <= i < j < |page.items| ==> Newer(page.items[i], page.items[j]))
      && forall item, other :: item in page.items && other in left && other !in page.items ==> Newer(item, other)
  {
    OrderedFacts(items, cursor);
    var ordered := Ordered(items, cursor);
    DescendingIsDistinct(ordered);
    DistinctCount(ordered, LeftToRead(items, cursor));
    FrontIsNewest(ordered, limit);
  }

  predicate Newer(a: Item, b: Item) {
    b.key.createdAt < a.key.createdAt || (b.key.createdAt == a.key.createdAt && b.key.id < a.key.id)
  }

  lemma DescendingIsDistinct(items: seq<Item>)
    requires Descending(items)
    ensures DistinctKeys(items)
  {
    forall i, j | 0 <= i < j < |items|
      ensures items[i].key != items[j].key
    {
      assert Less(items[j].key, items[i].key);
    }
  }

  lemma FrontIsNewest(ordered: seq<Item>, n: nat)
    requires Descending(ordered)
    ensures var front := Take(ordered, n);
      && (forall i, j :: 0 <= i < j < |front| ==> Newer(front[i], front[j]))
      && forall item, other :: item in front && other in ordered && other !in front ==> Newer(item, other)
  {
    var front := Take(ordered, n);
    forall item, other | item in front && other in ordered && other !in front
      ensures Newer(item, other)
    {
      var i :| 0 <= i < |front| && front[i] == item;
      var j :| 0 <= j < |ordered| && ordered[j] == other;
      assert Less(ordered[j].key, ordered[i].key);
    }
  }
}
