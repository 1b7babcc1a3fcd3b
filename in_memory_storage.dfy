/**
 * `InMemoryClipboardStorageService`: the development store, a table in memory
 * from user id to that user's list of items in insertion order.
 */
module InMemoryStorage {
  import opened Wrappers
  import opened Strings
  import opened ClipboardItems

  /** The `_items` dictionary: each user's items, oldest first. */
  type Table = map<string, seq<ClipboardItem>>

  /** The user's list, or nothing when the table has no entry for them. */
  function ItemsOf(table: Table, userId: string): seq<ClipboardItem> {
    if userId in table then table[userId] else []
  }

  /** What `ListAsync` returns: the user's items newest first, or an empty collection for an unknown user. */
  function Listing(table: Table, userId: string): (r: seq<ClipboardItem>)
    ensures userId !in table ==> r == []
    ensures multiset(r) == multiset(ItemsOf(table, userId))
    ensures SortedNewestFirst(r)
  {
    if userId in table then OrderByCreatedDescending(table[userId]) else []
  }

  /** Items created at one instant are listed in the order they were stored. */
  lemma ListingKeepsTies(table: Table, userId: string, t: Timestamp)
    ensures AtInstant(Listing(table, userId), t) == AtInstant(ItemsOf(table, userId), t)
  {
    if userId in table {
      OrderIsStable(table[userId], t);
    }
  }

  /** The table after `items.Add(item)` on the user's list, the list being created when missing. */
  function Appended(table: Table, userId: string, item: ClipboardItem): (r: Table)
    ensures r.Keys == table.Keys + {userId}
    ensures r[userId] == ItemsOf(table, userId) + [item]
    ensures forall u | u in table && u != userId :: r[u] == table[u]
  {
    table[userId := ItemsOf(table, userId) + [item]]
  }

  /** The item a text create stores (`CreateTextAsync`, with the GUID and the clock passed in). */
  function NewTextItem(id: string, request: TextCreateRequest, now: Timestamp): (r: ClipboardItem)
    requires request.markdownContent.Some?
    ensures r.id == id && r.itemType == TextItemType && r.createdAt == now
    ensures r.title == NormalizeTitle(request.title)
    ensures r.markdownContent.Some? && r.markdownContent.value == Trim(request.markdownContent.value)
    ensures r.fileName.None? && r.contentType.None? && r.fileSizeBytes.None? && r.previewUrl.None?
  {
    ClipboardItem(id, TextItemType, NormalizeTitle(request.title), Some(Trim(request.markdownContent.value)),
                  None, None, None, None, now)
  }

  /** The item a file create stores (`CreateFileAsync`); only the declared length of the stream is kept. */
  function NewFileItem(id: string, fileName: string, contentType: string, contentLength: int,
                       title: Option<string>, now: Timestamp): (r: ClipboardItem)
    ensures r.id == id && r.itemType == FileItemType && r.createdAt == now
    ensures r.title == NormalizeTitle(title)
    ensures r.fileName == Some(fileName) && r.contentType == Some(contentType)
    ensures r.fileSizeBytes == Some(contentLength)
    ensures r.markdownContent.None? && r.previewUrl.None?
  {
    ClipboardItem(id, FileItemType, NormalizeTitle(title), None, Some(fileName), Some(contentType),
                  Some(contentLength), None, now)
  }

  /** The `RemoveAll` predicate: the item's id equals `itemId`, ignoring case. */
  predicate Matches(item: ClipboardItem, itemId: string) {
    EqualsIgnoreCase(item.id, itemId)
  }

  /** `items.RemoveAll(item => string.Equals(item.Id, itemId, OrdinalIgnoreCase))`. */
  function RemoveMatching(items: seq<ClipboardItem>, itemId: string): (r: seq<ClipboardItem>)
    ensures |r| <= |items|
    ensures forall x :: x in r <==> x in items && !Matches(x, itemId)
  {
    if items == [] then []
    else
      var rest := RemoveMatching(items[1..], itemId);
      assert forall x :: x in items <==> x == items[0] || x in items[1..];
      if Matches(items[0], itemId) then rest else [items[0]] + rest
  }

  /** Removal keeps the survivors in their order: it distributes over concatenation. */
  lemma {:induction false} RemoveMatchingDistributes(a: seq<ClipboardItem>, b: seq<ClipboardItem>, itemId: string)
    ensures RemoveMatching(a + b, itemId) == RemoveMatching(a, itemId) + RemoveMatching(b, itemId)
  {
    if a == [] {
      assert a + b == b;
    } else {
      assert (a + b)[1..] == a[1..] + b;
      RemoveMatchingDistributes(a[1..], b, itemId);
    }
  }

  /** Removing twice removes nothing more. */
  lemma {:induction false} RemoveMatchingIdempotent(items: seq<ClipboardItem>, itemId: string)
    ensures RemoveMatching(RemoveMatching(items, itemId), itemId) == RemoveMatching(items, itemId)
  {
    if items != [] {
      RemoveMatchingIdempotent(items[1..], itemId);
      var rest := RemoveMatching(items[1..], itemId);
      if !Matches(items[0], itemId) {
        assert ([items[0]] + rest)[1..] == rest;
      }
    }
  }

  /** The table after `DeleteAsync`: the user's list loses its matching items; an unknown user changes nothing. */
  function Removed(table: Table, userId: string, itemId: string): (r: Table)
    ensures r.Keys == table.Keys
    ensures forall u | u in table && u != userId :: r[u] == table[u]
    ensures userId in table ==> r[userId] == RemoveMatching(table[userId], itemId)
    ensures userId !in table ==> r == table
  {
    if userId in table then table[userId := RemoveMatching(table[userId], itemId)] else table
  }

  /** Deleting is idempotent. */
  lemma DeleteIsIdempotent(table: Table, userId: string, itemId: string)
    ensures Removed(Removed(table, userId, itemId), userId, itemId) == Removed(table, userId, itemId)
  {
    if userId in table {
      RemoveMatchingIdempotent(table[userId], itemId);
    }
  }

  /** After a delete, no listed item of that user matches the deleted id, and every other stored item is still listed. */
  lemma DeletedItemIsNotListed(table: Table, userId: string, itemId: string, x: ClipboardItem)
    ensures x in Listing(Removed(table, userId, itemId), userId)
        <==> x in ItemsOf(table, userId) && !Matches(x, itemId)
  {
    var after := Removed(table, userId, itemId);
    assert x in Listing(after, userId) <==> x in multiset(Listing(after, userId));
  }

  /** A created item is listed for its user, which now has exactly one more item. */
  lemma CreatedItemIsListed(table: Table, userId: string, item: ClipboardItem)
    ensures item in Listing(Appended(table, userId, item), userId)
    ensures |Listing(Appended(table, userId, item), userId)| == |Listing(table, userId)| + 1
  {
    var after := Appended(table, userId, item);
    assert item in multiset(Listing(after, userId));
    assert |multiset(Listing(after, userId))| == |multiset(Listing(table, userId))| + 1;
  }

  /** Creating for one user leaves every other user's listing as it was. */
  lemma CreateLeavesOthersListed(table: Table, userId: string, item: ClipboardItem, other: string)
    requires other != userId
    ensures Listing(Appended(table, userId, item), other) == Listing(table, other)
  {
  }

  /** `InMemoryClipboardStorageService`, one call at a time. */
  class InMemoryClipboardStore {
    var items: Table

    constructor ()
      ensures items == map[]
    {
      items := map[];
    }

    /** `ListAsync`. */
    method List(userId: string) returns (r: seq<ClipboardItem>)
      ensures r == Listing(items, userId)
    {
      if userId in items {
        r := OrderByCreatedDescending(items[userId]);
      } else {
        r := [];
      }
    }

    /** `CreateTextAsync`; `newId` stands for the fresh GUID and `now` for the clock. */
    method CreateText(userId: string, request: TextCreateRequest, newId: string, now: Timestamp) returns (id: string)
      requires request.markdownContent.Some?
      modifies this
      ensures id == newId
      ensures items == Appended(old(items), userId, NewTextItem(newId, request, now))
    {
      var item := NewTextItem(newId, request, now);
      Add(userId, item);
      id := item.id;
    }

    /** `CreateFileAsync`; the stream itself is not modelled, only `contentLength`. */
    method CreateFile(userId: string, fileName: string, contentType: string, contentLength: int,
                      title: Option<string>, newId: string, now: Timestamp) returns (id: string)
      modifies this
      ensures id == newId
      ensures items == Appended(old(items), userId, NewFileItem(newId, fileName, contentType, contentLength, title, now))
    {
      var item := NewFileItem(newId, fileName, contentType, contentLength, title, now);
      Add(userId, item);
      id := item.id;
    }

    /** The shared tail of both creates: find or create the user's list, then append. */
    method Add(userId: string, item: ClipboardItem)
      modifies this
      ensures items == Appended(old(items), userId, item)
    {
      var list: seq<ClipboardItem>;
      if userId in items {
        list := items[userId];
      } else {
        list := [];
        items := items[userId := list];
      }
      list := list + [item];
      items := items[userId := list];
    }

    /** `DeleteAsync`: `RemoveAll` on the user's list, when there is one. */
    method Delete(userId: string, itemId: string)
      modifies this
      ensures items == Removed(old(items), userId, itemId)
    {
      if userId in items {
        items := items[userId := RemoveMatching(items[userId], itemId)];
      }
    }
  }
}
