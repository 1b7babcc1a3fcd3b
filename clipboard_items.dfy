/**
 * The clipboard item as the API returns it (`ClipboardItemDto`), the text
 * create request (`ClipboardTextCreateRequest`), the title rule both stores
 * apply, and the newest-first order both stores list in
 * (`OrderByDescending(item => item.CreatedAt)`, a stable sort).
 */
module ClipboardItems {
  import opened Wrappers
  import opened Strings

  /** A `DateTimeOffset` taken as a point in UTC time; only its order matters. */
  type Timestamp = int

  /** `ClipboardItemDto`. Nullable properties are `Option`s; `FileSizeBytes` is a nullable `long`. */
  datatype ClipboardItem = ClipboardItem(
    id: string,
    itemType: string,
    title: Option<string>,
    markdownContent: Option<string>,
    fileName: Option<string>,
    contentType: Option<string>,
    fileSizeBytes: Option<int>,
    previewUrl: Option<string>,
    createdAt: Timestamp)

  /** `ClipboardTextCreateRequest`; a JSON `null` for the content reaches the controller as `None`. */
  datatype TextCreateRequest = TextCreateRequest(title: Option<string>, markdownContent: Option<string>)

  const TextItemType: string := "text"
  const FileItemType: string := "file"

  /** `string.IsNullOrWhiteSpace(title) ? null : title`. */
  function NormalizeTitle(title: Option<string>): (r: Option<string>)
    ensures r.None? <==> IsNullOrWhiteSpace(title)
    ensures r.Some? ==> r == title && !IsBlank(r.value)
  {
    if IsNullOrWhiteSpace(title) then None else title
  }

  /** Newest first: no item is older than an item after it. */
  ghost predicate SortedNewestFirst(s: seq<ClipboardItem>) {
    forall i, j | 0 <= i < j < |s| :: s[i].createdAt >= s[j].createdAt
  }

  /**
   * Puts `x` in front of the first item that is not newer than it, so that
   * among items with one timestamp `x` stays ahead of those already in `s`.
   */
  function InsertNewestFirst(x: ClipboardItem, s: seq<ClipboardItem>): (r: seq<ClipboardItem>)
    requires SortedNewestFirst(s)
    ensures SortedNewestFirst(r)
    ensures multiset(r) == multiset(s) + multiset{x}
    ensures |r| == |s| + 1 && (r[0] == x || (s != [] && r[0] == s[0]))
  {
    if s == [] || s[0].createdAt <= x.createdAt then
      [x] + s
    else
      var rest := InsertNewestFirst(x, s[1..]);
      assert s == [s[0]] + s[1..];
      assert rest[0].createdAt <= s[0].createdAt;
      [s[0]] + rest
  }

  /**
   * `items.OrderByDescending(item => item.CreatedAt)`: an insertion sort that
   * yields a newest-first permutation of `s`.
   */
  function OrderByCreatedDescending(s: seq<ClipboardItem>): (r: seq<ClipboardItem>)
    ensures SortedNewestFirst(r)
    ensures multiset(r) == multiset(s)
  {
    if s == [] then []
    else
      assert s == [s[0]] + s[1..];
      InsertNewestFirst(s[0], OrderByCreatedDescending(s[1..]))
  }

  /** The items of `s` created at `t`, in the order of `s`. */
  function AtInstant(s: seq<ClipboardItem>, t: Timestamp): seq<ClipboardItem> {
    if s == [] then []
    else (if s[0].createdAt == t then [s[0]] else []) + AtInstant(s[1..], t)
  }

  /** Inserting `x` adds it at the head of its own timestamp's items and leaves every other timestamp alone. */
  lemma {:induction false} InsertKeepsTies(x: ClipboardItem, s: seq<ClipboardItem>, t: Timestamp)
    requires SortedNewestFirst(s)
    ensures AtInstant(InsertNewestFirst(x, s), t)
         == if x.createdAt == t then [x] + AtInstant(s, t) else AtInstant(s, t)
  {
    if s == [] || s[0].createdAt <= x.createdAt {
      assert ([x] + s)[1..] == s;
    } else {
      var rest := InsertNewestFirst(x, s[1..]);
      InsertKeepsTies(x, s[1..], t);
      assert ([s[0]] + rest)[1..] == rest;
    }
  }

  /** The order is stable: items created at one instant keep their stored order. */
  lemma {:induction false} OrderIsStable(s: seq<ClipboardItem>, t: Timestamp)
    ensures AtInstant(OrderByCreatedDescending(s), t) == AtInstant(s, t)
  {
    if s != [] {
      OrderIsStable(s[1..], t);
      InsertKeepsTies(s[0], OrderByCreatedDescending(s[1..]), t);
    }
  }

  /** In a newest-first sequence, an item created at `t` means the first item is no older than `t`. */
  lemma {:induction false} HeadIsNewest(s: seq<ClipboardItem>, t: Timestamp)
    requires SortedNewestFirst(s)
    requires AtInstant(s, t) != []
    ensures s != [] && s[0].createdAt >= t
  {
    if s != [] && s[0].createdAt != t {
      HeadIsNewest(s[1..], t);
    }
  }

  /** A non-empty sequence has an item created at its first item's instant. */
  lemma FirstHasOwnTimestamp(s: seq<ClipboardItem>)
    ensures s != [] ==> AtInstant(s, s[0].createdAt) != []
  {
  }

  /**
   * Newest-first order together with the order within each timestamp fixes
   * the sequence: a stable newest-first sort has exactly one result.
   */
  lemma {:induction false} NewestFirstIsUnique(a: seq<ClipboardItem>, b: seq<ClipboardItem>)
    requires SortedNewestFirst(a) && SortedNewestFirst(b)
    requires forall t :: AtInstant(a, t) == AtInstant(b, t)
    ensures a == b
    decreases |a|
  {
    if a == [] {
      FirstHasOwnTimestamp(b);
    } else {
      var m := a[0].createdAt;
      assert AtInstant(a, m) == [a[0]] + AtInstant(a[1..], m);
      HeadIsNewest(b, m);
      var n := b[0].createdAt;
      assert AtInstant(b, n) == [b[0]] + AtInstant(b[1..], n);
      HeadIsNewest(a, n);
      assert m == n;
      assert AtInstant(a, m) == AtInstant(b, m);
      assert a[0] == AtInstant(a, m)[0] == b[0];
      forall t
        ensures AtInstant(a[1..], t) == AtInstant(b[1..], t)
      {
        var head := if m == t then [a[0]] else [];
        assert AtInstant(a, t) == head + AtInstant(a[1..], t);
        assert AtInstant(b, t) == head + AtInstant(b[1..], t);
        assert AtInstant(a, t) == AtInstant(b, t);
        assert (head + AtInstant(a[1..], t))[|head|..] == AtInstant(a[1..], t);
        assert (head + AtInstant(b[1..], t))[|head|..] == AtInstant(b[1..], t);
      }
      NewestFirstIsUnique(a[1..], b[1..]);
      assert a == [a[0]] + a[1..] && b == [b[0]] + b[1..];
    }
  }

  /** Any stable newest-first arrangement of `s` is the one the stores return. */
  lemma OrderIsTheStableSort(s: seq<ClipboardItem>, r: seq<ClipboardItem>)
    requires SortedNewestFirst(r)
    requires forall t :: AtInstant(r, t) == AtInstant(s, t)
    ensures r == OrderByCreatedDescending(s)
  {
    forall t
      ensures AtInstant(r, t) == AtInstant(OrderByCreatedDescending(s), t)
    {
      OrderIsStable(s, t);
    }
    NewestFirstIsUnique(r, OrderByCreatedDescending(s));
  }
}
