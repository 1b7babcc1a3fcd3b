/**
 * `S3ClipboardStorageService` with the SDK taken out: the bucket is a map
 * from key to object, a `ListObjectsV2` call is answered by a sequence of
 * pages, and presigning a key is a function passed in.
 */
module S3Storage {
  import opened Wrappers
  import opened Strings
  import opened ClipboardItems
  import opened S3Layout
  import InMemoryStorage

  /** `ClipboardMetadata`: the document stored at `metadata.json`, read back as written. */
  datatype Metadata = Metadata(
    id: string,
    itemType: string,
    title: Option<string>,
    markdownContent: Option<string>,
    fileKey: Option<string>,
    fileName: Option<string>,
    contentType: Option<string>,
    fileSizeBytes: Option<int>,
    createdAt: Timestamp)

  /** An object in the bucket. A metadata document whose JSON is `null` is `MetadataObject(None)`. */
  datatype StoredObject =
    | MarkdownObject(contentType: string, body: string)
    | FileObject(contentType: string, length: int)
    | MetadataObject(document: Option<Metadata>)

  type Bucket = map<string, StoredObject>

  const MarkdownContentType: string := "text/markdown"

  /** One `ListObjectsV2` response: the keys on the page and how to ask for the next one. */
  datatype ListPage = ListPage(keys: seq<string>, isTruncated: bool, nextContinuationToken: Option<string>)

  /** `response.IsTruncated ? response.NextContinuationToken : null`: a page that is not truncated ends the paging. */
  function NextToken(page: ListPage): (r: Option<string>)
    ensures !page.isTruncated ==> r.None?
    ensures page.isTruncated ==> r == page.nextContinuationToken
  {
    if page.isTruncated then page.nextContinuationToken else None
  }

  /** The loop condition of both paged loops: `!string.IsNullOrWhiteSpace(continuationToken)`. */
  predicate HasMore(page: ListPage) {
    !IsNullOrWhiteSpace(NextToken(page))
  }

  /**
   * The responses the service gives to one paged listing: at least one page
   * (the loops are do-while), every page but the last asks for another,
   * and the last does not.
   */
  predicate CompletePaging(pages: seq<ListPage>) {
    && |pages| > 0
    && (forall i | 0 <= i < |pages| - 1 :: HasMore(pages[i]))
    && !HasMore(pages[|pages| - 1])
  }

  /** The keys of all pages, in the order they are returned. */
  function PagedKeys(pages: seq<ListPage>): seq<string> {
    if pages == [] then [] else PagedKeys(pages[..|pages| - 1]) + pages[|pages| - 1].keys
  }

  /** The pages list exactly the keys of `bucket` that start with `prefix`. */
  ghost predicate ListsPrefix(bucket: Bucket, prefix: string, pages: seq<ListPage>) {
    && (forall k | k in PagedKeys(pages) :: k in bucket && StartsWith(k, prefix))
    && (forall k | k in bucket && StartsWith(k, prefix) :: k in PagedKeys(pages))
  }

  lemma PagedKeysSnoc(pages: seq<ListPage>, i: nat)
    requires i < |pages|
    ensures PagedKeys(pages[..i + 1]) == PagedKeys(pages[..i]) + pages[i].keys
  {
    assert pages[..i + 1][..i] == pages[..i];
  }

  lemma {:induction false} PagedKeysSplit(pages: seq<ListPage>, i: nat)
    requires i <= |pages|
    ensures PagedKeys(pages) == PagedKeys(pages[..i]) + PagedKeys(pages[i..])
    decreases |pages|
  {
    if i == |pages| {
      assert pages[..i] == pages;
      assert pages[i..] == [];
    } else {
      var init := pages[..|pages| - 1];
      PagedKeysSplit(init, i);
      assert init[..i] == pages[..i];
      assert pages[i..][..|pages[i..]| - 1] == init[i..];
    }
  }

  /** Why a listing fails: `GetObject` finds nothing, or the object is not a metadata document. */
  datatype ListError = MissingObject(key: string) | UnreadableMetadata(key: string)

  /** What one listed key contributes. */
  datatype Entry = Skipped | Listed(item: ClipboardItem) | Failed(error: ListError)

  /**
   * The DTO built from a metadata document: every field is copied, except
   * that a preview URL is presigned exactly when there is a file key.
   */
  function ToItem(m: Metadata, presign: string -> string): (r: ClipboardItem)
    ensures r.id == m.id && r.itemType == m.itemType && r.createdAt == m.createdAt
    ensures r.title == m.title && r.markdownContent == m.markdownContent
    ensures r.fileName == m.fileName && r.contentType == m.contentType && r.fileSizeBytes == m.fileSizeBytes
    ensures r.previewUrl.Some? <==> m.fileKey.Some?
    ensures m.fileKey.Some? ==> r.previewUrl == Some(presign(m.fileKey.value))
  {
    ClipboardItem(m.id, m.itemType, m.title, m.markdownContent, m.fileName, m.contentType, m.fileSizeBytes,
                  if m.fileKey.None? then None else Some(presign(m.fileKey.value)),
                  m.createdAt)
  }

  /**
   * The body of the `foreach` in `ListAsync` for one key: keys that are not
   * metadata and `null` documents are skipped, a missing object or one that
   * is not a metadata document fails, and any other document is listed.
   */
  function ReadEntry(bucket: Bucket, key: string, presign: string -> string): (e: Entry)
    ensures !IsMetadataKey(key) ==> e == Skipped
    ensures e.Failed? <==> IsMetadataKey(key) && (key !in bucket || !bucket[key].MetadataObject?)
    ensures IsMetadataKey(key) && key !in bucket ==> e == Failed(MissingObject(key))
    ensures IsMetadataKey(key) && key in bucket && !bucket[key].MetadataObject? ==> e == Failed(UnreadableMetadata(key))
    ensures IsMetadataKey(key) && key in bucket && bucket[key] == MetadataObject(None) ==> e == Skipped
    ensures e.Listed? <==> IsMetadataKey(key) && key in bucket && bucket[key].MetadataObject?
                           && bucket[key].document.Some?
    ensures e.Listed? ==> e.item == ToItem(bucket[key].document.value, presign)
  {
    if !IsMetadataKey(key) then Skipped
    else if key !in bucket then Failed(MissingObject(key))
    else match bucket[key]
      case MetadataObject(None) => Skipped
      case MetadataObject(Some(m)) => Listed(ToItem(m, presign))
      case _ => Failed(UnreadableMetadata(key))
  }

  /** How many of `keys` pass the metadata filter. */
  function MetadataKeyCount(keys: seq<string>): nat {
    if keys == [] then 0
    else MetadataKeyCount(keys[..|keys| - 1]) + (if IsMetadataKey(keys[|keys| - 1]) then 1 else 0)
  }

  /** One more key's entry added to what the earlier keys gathered; a failure is final. */
  function Extend(gathered: Result<seq<ClipboardItem>, ListError>, e: Entry): Result<seq<ClipboardItem>, ListError> {
    match gathered
    case Err(_) => gathered
    case Ok(items) =>
      match e
      case Skipped => gathered
      case Listed(x) => Ok(items + [x])
      case Failed(err) => Err(err)
  }

  /**
   * The items gathered from `keys` in order, or the first failure. Each
   * metadata key yields at most one item, and no other key yields any.
   */
  function Collect(bucket: Bucket, keys: seq<string>, presign: string -> string): (r: Result<seq<ClipboardItem>, ListError>)
    ensures r.Ok? ==> |r.value| <= MetadataKeyCount(keys)
  {
    if keys == [] then Ok([])
    else Extend(Collect(bucket, keys[..|keys| - 1], presign), ReadEntry(bucket, keys[|keys| - 1], presign))
  }

  /** Gathering one more key extends the gathering of the keys before it. */
  lemma CollectSnoc(bucket: Bucket, keys: seq<string>, key: string, presign: string -> string)
    ensures Collect(bucket, keys + [key], presign)
         == Extend(Collect(bucket, keys, presign), ReadEntry(bucket, key, presign))
  {
    assert (keys + [key])[..|keys|] == keys;
  }

  /** The keys before the last are exactly the keys other than a trailing occurrence of the last. */
  lemma InitMembers(keys: seq<string>, k: string)
    requires keys != []
    ensures k in keys[..|keys| - 1] ==> k in keys
    ensures k in keys && k != keys[|keys| - 1] ==> k in keys[..|keys| - 1]
  {
    if k in keys && k != keys[|keys| - 1] {
      var i :| 0 <= i < |keys| && keys[i] == k;
      assert keys[..|keys| - 1][i] == k;
    }
  }

  /** Every item of a successful listing comes from a listed key holding a non-null metadata document. */
  lemma {:induction false} CollectIsSound(bucket: Bucket, keys: seq<string>, x: ClipboardItem, presign: string -> string)
    requires Collect(bucket, keys, presign).Ok?
    requires x in Collect(bucket, keys, presign).value
    ensures exists k | k in keys :: ReadEntry(bucket, k, presign) == Listed(x)
  {
    var init := keys[..|keys| - 1];
    var last := keys[|keys| - 1];
    if ReadEntry(bucket, last, presign) != Listed(x) {
      assert x in Collect(bucket, init, presign).value;
      CollectIsSound(bucket, init, x, presign);
      var k :| k in init && ReadEntry(bucket, k, presign) == Listed(x);
      InitMembers(keys, k);
    }
  }

  /** A listing fails exactly when one of its keys fails to read. */
  lemma {:induction false} CollectFailsIff(bucket: Bucket, keys: seq<string>, presign: string -> string)
    ensures Collect(bucket, keys, presign).Err? <==> exists k | k in keys :: ReadEntry(bucket, k, presign).Failed?
  {
    if keys != [] {
      var init := keys[..|keys| - 1];
      var last := keys[|keys| - 1];
      CollectFailsIff(bucket, init, presign);
      if Collect(bucket, init, presign).Err? {
        var k :| k in init && ReadEntry(bucket, k, presign).Failed?;
        InitMembers(keys, k);
      } else if !ReadEntry(bucket, last, presign).Failed? {
        forall k | k in keys
          ensures !ReadEntry(bucket, k, presign).Failed?
        {
          InitMembers(keys, k);
        }
      }
    }
  }

  /** Once a listing has failed, later keys do not rescue it. */
  lemma {:induction false} FailureSticks(bucket: Bucket, keys: seq<string>, more: seq<string>, presign: string -> string)
    requires Collect(bucket, keys, presign).Err?
    ensures Collect(bucket, keys + more, presign) == Collect(bucket, keys, presign)
    decreases |more|
  {
    if more == [] {
      assert keys + more == keys;
    } else {
      var init := more[..|more| - 1];
      FailureSticks(bucket, keys, init, presign);
      assert (keys + more)[..|keys + more| - 1] == keys + init;
    }
  }

  /** Every item a listed metadata key yields is in a successful listing. */
  lemma {:induction false} CollectFinds(bucket: Bucket, keys: seq<string>, key: string, presign: string -> string)
    requires key in keys
    requires ReadEntry(bucket, key, presign).Listed?
    requires Collect(bucket, keys, presign).Ok?
    ensures ReadEntry(bucket, key, presign).item in Collect(bucket, keys, presign).value
  {
    var init := keys[..|keys| - 1];
    if key != keys[|keys| - 1] {
      assert key in init by {
        var i :| 0 <= i < |keys| && keys[i] == key;
        assert init[i] == key;
      }
      CollectFinds(bucket, init, key, presign);
    }
  }

  /** A listing reads only the objects at its own keys. */
  lemma {:induction false} CollectReadsOnlyItsKeys(b1: Bucket, b2: Bucket, keys: seq<string>, presign: string -> string)
    requires forall k | k in keys :: (k in b1 <==> k in b2) && (k in b1 ==> b1[k] == b2[k])
    ensures Collect(b1, keys, presign) == Collect(b2, keys, presign)
  {
    if keys != [] {
      CollectReadsOnlyItsKeys(b1, b2, keys[..|keys| - 1], presign);
    }
  }

  /** The final `OrderByDescending`, applied to a successful gathering. */
  function NewestFirst(gathered: Result<seq<ClipboardItem>, ListError>): (r: Result<seq<ClipboardItem>, ListError>)
    ensures r.Ok? <==> gathered.Ok?
    ensures r.Err? ==> r == gathered
    ensures r.Ok? ==> SortedNewestFirst(r.value) && multiset(r.value) == multiset(gathered.value)
  {
    match gathered
    case Ok(items) => Ok(OrderByCreatedDescending(items))
    case Err(e) => Err(e)
  }

  /** The metadata a text create writes. */
  function TextMetadata(itemId: string, request: TextCreateRequest, now: Timestamp): (m: Metadata)
    requires request.markdownContent.Some?
    ensures m.id == itemId && m.itemType == TextItemType && m.createdAt == now
    ensures m.title == NormalizeTitle(request.title)
    ensures m.markdownContent == Some(Trim(request.markdownContent.value))
    ensures m.fileKey.None? && m.fileName.None? && m.fileSizeBytes.None?
    ensures m.contentType == Some(MarkdownContentType)
  {
    Metadata(itemId, TextItemType, NormalizeTitle(request.title), Some(Trim(request.markdownContent.value)),
             None, None, Some(MarkdownContentType), None, now)
  }

  /** The metadata a file create writes; `fileKey` is where the bytes went. */
  function FileMetadata(itemId: string, fileKey: string, fileName: string, contentType: string,
                        contentLength: int, title: Option<string>, now: Timestamp): (m: Metadata)
    ensures m.id == itemId && m.itemType == FileItemType && m.createdAt == now
    ensures m.title == NormalizeTitle(title)
    ensures m.fileKey == Some(fileKey) && m.fileName == Some(fileName)
    ensures m.contentType == Some(contentType) && m.fileSizeBytes == Some(contentLength)
    ensures m.markdownContent.None?
  {
    Metadata(itemId, FileItemType, NormalizeTitle(title), None, Some(fileKey), Some(fileName),
             Some(contentType), Some(contentLength), now)
  }

  /** The bucket after `CreateTextAsync`: the markdown object, then the metadata object. */
  function AfterTextCreate(bucket: Bucket, configured: string, userId: string, request: TextCreateRequest,
                           itemId: string, now: Timestamp): (r: Bucket)
    requires request.markdownContent.Some?
    ensures var content := TextContentKey(configured, userId, itemId);
            var metadata := MetadataKey(configured, userId, itemId);
            && r.Keys == bucket.Keys + {content, metadata}
            && r[content] == MarkdownObject(MarkdownContentType, Trim(request.markdownContent.value))
            && r[metadata] == MetadataObject(Some(TextMetadata(itemId, request, now)))
            && forall k | k in bucket && k != content && k != metadata :: r[k] == bucket[k]
  {
    bucket[TextContentKey(configured, userId, itemId) := MarkdownObject(MarkdownContentType, Trim(request.markdownContent.value))]
          [MetadataKey(configured, userId, itemId) := MetadataObject(Some(TextMetadata(itemId, request, now)))]
  }

  /** The bucket after `CreateFileAsync`: the file object, then the metadata object. */
  function AfterFileCreate(bucket: Bucket, configured: string, userId: string, fileName: string,
                           contentType: string, contentLength: int, title: Option<string>,
                           itemId: string, now: Timestamp): (r: Bucket)
    ensures var fileKey := FileContentKey(configured, userId, itemId);
            var metadata := MetadataKey(configured, userId, itemId);
            && r.Keys == bucket.Keys + {fileKey, metadata}
            && r[fileKey] == FileObject(contentType, contentLength)
            && r[metadata]
               == MetadataObject(Some(FileMetadata(itemId, fileKey, fileName, contentType, contentLength, title, now)))
            && forall k | k in bucket && k != fileKey && k != metadata :: r[k] == bucket[k]
  {
    var fileKey := FileContentKey(configured, userId, itemId);
    bucket[fileKey := FileObject(contentType, contentLength)]
          [MetadataKey(configured, userId, itemId)
             := MetadataObject(Some(FileMetadata(itemId, fileKey, fileName, contentType, contentLength, title, now)))]
  }

  /** The bucket without the objects whose key starts with `prefix`. */
  function WithoutPrefix(bucket: Bucket, prefix: string): (r: Bucket)
    ensures forall k :: k in r <==> k in bucket && !StartsWith(k, prefix)
    ensures forall k | k in r :: r[k] == bucket[k]
  {
    map k | k in bucket && !StartsWith(k, prefix) :: bucket[k]
  }

  /** The keys of `keys`, as a set. */
  function KeySet(keys: seq<string>): set<string> {
    set k | k in keys
  }

  /** After a text create, a successful listing of the user contains the new item, without a preview URL. */
  lemma TextCreateIsListed(bucket: Bucket, configured: string, userId: string, request: TextCreateRequest,
                           itemId: string, now: Timestamp, pages: seq<ListPage>, presign: string -> string)
    requires request.markdownContent.Some?
    requires ListsPrefix(AfterTextCreate(bucket, configured, userId, request, itemId, now),
                         UserPrefix(configured, userId), pages)
    requires Collect(AfterTextCreate(bucket, configured, userId, request, itemId, now), PagedKeys(pages), presign).Ok?
    ensures var listed := NewestFirst(Collect(AfterTextCreate(bucket, configured, userId, request, itemId, now),
                                              PagedKeys(pages), presign));
            var item := ToItem(TextMetadata(itemId, request, now), presign);
            && item in listed.value
            && item.id == itemId && item.previewUrl.None?
            && item.markdownContent == Some(Trim(request.markdownContent.value))
  {
    var after := AfterTextCreate(bucket, configured, userId, request, itemId, now);
    var key := MetadataKey(configured, userId, itemId);
    WrittenKeysAreUnderPrefixes(configured, userId, itemId);
    OnlyMetadataKeysAreListed(configured, userId, itemId);
    assert key in after;
    CollectFinds(after, PagedKeys(pages), key, presign);
    var xs := Collect(after, PagedKeys(pages), presign).value;
    assert ToItem(TextMetadata(itemId, request, now), presign) in multiset(OrderByCreatedDescending(xs));
  }

  /** After a file create, a successful listing of the user contains the new item, with a preview of its content key. */
  lemma FileCreateIsListed(bucket: Bucket, configured: string, userId: string, fileName: string,
                           contentType: string, contentLength: int, title: Option<string>,
                           itemId: string, now: Timestamp, pages: seq<ListPage>, presign: string -> string)
    requires ListsPrefix(AfterFileCreate(bucket, configured, userId, fileName, contentType, contentLength, title, itemId, now),
                         UserPrefix(configured, userId), pages)
    requires Collect(AfterFileCreate(bucket, configured, userId, fileName, contentType, contentLength, title, itemId, now),
                     PagedKeys(pages), presign).Ok?
    ensures var after := AfterFileCreate(bucket, configured, userId, fileName, contentType, contentLength, title, itemId, now);
            var listed := NewestFirst(Collect(after, PagedKeys(pages), presign));
            var fileKey := FileContentKey(configured, userId, itemId);
            var item := ToItem(FileMetadata(itemId, fileKey, fileName, contentType, contentLength, title, now), presign);
            && item in listed.value
            && item.id == itemId && item.previewUrl == Some(presign(fileKey))
            && item.fileName == Some(fileName) && item.contentType == Some(contentType)
            && item.fileSizeBytes == Some(contentLength)
  {
    var after := AfterFileCreate(bucket, configured, userId, fileName, contentType, contentLength, title, itemId, now);
    var key := MetadataKey(configured, userId, itemId);
    var fileKey := FileContentKey(configured, userId, itemId);
    WrittenKeysAreUnderPrefixes(configured, userId, itemId);
    OnlyMetadataKeysAreListed(configured, userId, itemId);
    assert key in after;
    CollectFinds(after, PagedKeys(pages), key, presign);
    var xs := Collect(after, PagedKeys(pages), presign).value;
    var item := ToItem(FileMetadata(itemId, fileKey, fileName, contentType, contentLength, title, now), presign);
    assert item in multiset(OrderByCreatedDescending(xs));
  }

  /**
   * Writes that only add or replace objects under another user's prefix
   * (ids being single path segments) leave this user's listed keys, and so
   * their listing, unchanged.
   */
  lemma OtherUsersWritesAreInvisible(bucket: Bucket, after: Bucket, configured: string, userId: string,
                                     otherId: string, pages: seq<ListPage>, presign: string -> string)
    requires IsSegment(userId) && IsSegment(otherId) && userId != otherId
    requires forall k | k in after :: k in bucket || StartsWith(k, UserPrefix(configured, otherId))
    requires forall k | k in bucket :: k in after && (after[k] == bucket[k] || StartsWith(k, UserPrefix(configured, otherId)))
    requires ListsPrefix(bucket, UserPrefix(configured, userId), pages)
    ensures ListsPrefix(after, UserPrefix(configured, userId), pages)
    ensures Collect(after, PagedKeys(pages), presign) == Collect(bucket, PagedKeys(pages), presign)
  {
    var mine := UserPrefix(configured, userId);
    forall k | k in after && StartsWith(k, mine)
      ensures k in bucket
    {
      if k !in bucket {
        UsersAreIsolated(configured, userId, otherId, k);
      }
    }
    forall k | k in PagedKeys(pages)
      ensures k in after && after[k] == bucket[k]
    {
      if after[k] != bucket[k] {
        UsersAreIsolated(configured, userId, otherId, k);
      }
    }
    CollectReadsOnlyItsKeys(after, bucket, PagedKeys(pages), presign);
  }

  /** A text create for another user leaves this user's listed keys and listing unchanged. */
  lemma OtherUsersCreateIsInvisible(bucket: Bucket, configured: string, userId: string, otherId: string,
                                    request: TextCreateRequest, itemId: string, now: Timestamp,
                                    pages: seq<ListPage>, presign: string -> string)
    requires request.markdownContent.Some?
    requires IsSegment(userId) && IsSegment(otherId) && userId != otherId
    requires ListsPrefix(bucket, UserPrefix(configured, userId), pages)
    ensures ListsPrefix(AfterTextCreate(bucket, configured, otherId, request, itemId, now),
                        UserPrefix(configured, userId), pages)
    ensures Collect(AfterTextCreate(bucket, configured, otherId, request, itemId, now), PagedKeys(pages), presign)
         == Collect(bucket, PagedKeys(pages), presign)
  {
    WrittenKeysAreUnderPrefixes(configured, otherId, itemId);
    OtherUsersWritesAreInvisible(bucket, AfterTextCreate(bucket, configured, otherId, request, itemId, now),
                                 configured, userId, otherId, pages, presign);
  }

  /** A file create for another user leaves this user's listed keys and listing unchanged. */
  lemma OtherUsersFileCreateIsInvisible(bucket: Bucket, configured: string, userId: string, otherId: string,
                                        fileName: string, contentType: string, contentLength: int,
                                        title: Option<string>, itemId: string, now: Timestamp,
                                        pages: seq<ListPage>, presign: string -> string)
    requires IsSegment(userId) && IsSegment(otherId) && userId != otherId
    requires ListsPrefix(bucket, UserPrefix(configured, userId), pages)
    ensures var after := AfterFileCreate(bucket, configured, otherId, fileName, contentType, contentLength, title, itemId, now);
            && ListsPrefix(after, UserPrefix(configured, userId), pages)
            && Collect(after, PagedKeys(pages), presign) == Collect(bucket, PagedKeys(pages), presign)
  {
    WrittenKeysAreUnderPrefixes(configured, otherId, itemId);
    OtherUsersWritesAreInvisible(bucket,
                                 AfterFileCreate(bucket, configured, otherId, fileName, contentType, contentLength,
                                                 title, itemId, now),
                                 configured, userId, otherId, pages, presign);
  }

  /**
   * As written, deleting `itemId` also removes every object of an item whose
   * id merely starts with `itemId`, while the in-memory store would keep that item.
   */
  lemma DeleteTakesLongerIds(bucket: Bucket, configured: string, userId: string, itemId: string, suffix: string,
                             other: ClipboardItem)
    requires suffix != [] && other.id == itemId + suffix
    requires MetadataKey(configured, userId, itemId + suffix) in bucket
    ensures MetadataKey(configured, userId, itemId + suffix) !in WithoutPrefix(bucket, ItemPrefix(configured, userId, itemId))
    ensures other in InMemoryStorage.RemoveMatching([other], itemId)
  {
    WrittenKeysAreUnderPrefixes(configured, userId, itemId + suffix);
    var key := MetadataKey(configured, userId, itemId + suffix);
    StartsWithTrans(key, ItemPrefix(configured, userId, itemId + suffix) + "/", ItemPrefix(configured, userId, itemId + suffix));
    ItemPrefixCoversLongerIds(configured, userId, itemId, suffix, key);
  }

  /**
   * The delete as written removes every object the item's creates wrote, so
   * a later listing of the user no longer reads the item's metadata.
   */
  lemma DeleteRemovesItem(bucket: Bucket, configured: string, userId: string, itemId: string, pages: seq<ListPage>)
    requires ListsPrefix(WithoutPrefix(bucket, ItemPrefix(configured, userId, itemId)), UserPrefix(configured, userId), pages)
    ensures var after := WithoutPrefix(bucket, ItemPrefix(configured, userId, itemId));
            && TextContentKey(configured, userId, itemId) !in after
            && FileContentKey(configured, userId, itemId) !in after
            && MetadataKey(configured, userId, itemId) !in after
            && MetadataKey(configured, userId, itemId) !in PagedKeys(pages)
  {
    var item := ItemPrefix(configured, userId, itemId);
    WrittenKeysAreUnderPrefixes(configured, userId, itemId);
    StartsWithConcat(item, "/");
    StartsWithTrans(TextContentKey(configured, userId, itemId), item + "/", item);
    StartsWithTrans(FileContentKey(configured, userId, itemId), item + "/", item);
    StartsWithTrans(MetadataKey(configured, userId, itemId), item + "/", item);
  }

  /** Deleting under the item's folder removes every object the item's creates wrote. */
  lemma ScopedDeleteRemovesItem(bucket: Bucket, configured: string, userId: string, itemId: string)
    ensures var folder := ItemFolder(configured, userId, itemId);
            && TextContentKey(configured, userId, itemId) !in WithoutPrefix(bucket, folder)
            && FileContentKey(configured, userId, itemId) !in WithoutPrefix(bucket, folder)
            && MetadataKey(configured, userId, itemId) !in WithoutPrefix(bucket, folder)
  {
    WrittenKeysAreUnderPrefixes(configured, userId, itemId);
  }

  /** Deleting under the item's folder keeps every object of every other item (ids being single segments). */
  lemma ScopedDeleteKeepsOtherItems(bucket: Bucket, configured: string, userId: string, itemId: string,
                                    otherId: string, key: string)
    requires IsSegment(itemId) && IsSegment(otherId) && itemId != otherId
    requires key in bucket && StartsWith(key, ItemFolder(configured, userId, otherId))
    ensures key in WithoutPrefix(bucket, ItemFolder(configured, userId, itemId))
    ensures WithoutPrefix(bucket, ItemFolder(configured, userId, itemId))[key] == bucket[key]
  {
    if StartsWith(key, ItemFolder(configured, userId, itemId)) {
      ItemFoldersAreDisjoint(configured, userId, itemId, otherId, key);
    }
  }

  /** `S3ClipboardStorageService` with the configured `S3Prefix` and the bucket's contents. */
  class S3ClipboardStore {
    const configuredPrefix: string
    var bucket: Bucket

    constructor (configuredPrefix: string, bucket: Bucket)
      ensures this.configuredPrefix == configuredPrefix && this.bucket == bucket
    {
      this.configuredPrefix := configuredPrefix;
      this.bucket := bucket;
    }

    /**
     * `ListAsync`: page through the user's prefix, turn each metadata object
     * into a DTO, then order newest first. `pages` are the service's answers.
     */
    method List(userId: string, pages: seq<ListPage>, presign: string -> string)
      returns (r: Result<seq<ClipboardItem>, ListError>)
      requires CompletePaging(pages)
      requires ListsPrefix(bucket, UserPrefix(configuredPrefix, userId), pages)
      ensures r == NewestFirst(Collect(bucket, PagedKeys(pages), presign))
    {
      var items: seq<ClipboardItem> := [];
      var i := 0;
      var more := true;
      while more
        invariant 0 <= i <= |pages|
        invariant more <==> i < |pages|
        invariant Collect(bucket, PagedKeys(pages[..i]), presign) == Ok(items)
        decreases |pages| - i
      {
        var page := pages[i];
        var continuationToken := NextToken(page);
        PagedKeysSnoc(pages, i);
        var gathered := ReadPage(PagedKeys(pages[..i]), page.keys, items, presign);
        if gathered.Err? {
          PagedKeysSplit(pages, i + 1);
          FailureSticks(bucket, PagedKeys(pages[..i + 1]), PagedKeys(pages[i + 1..]), presign);
          r := gathered;
          return;
        }
        items := gathered.value;
        i := i + 1;
        more := !IsNullOrWhiteSpace(continuationToken);
      }
      assert pages[..i] == pages;
      r := Ok(OrderByCreatedDescending(items));
    }

    /**
     * The `foreach` of `ListAsync` over one page: skip keys that are not
     * metadata and documents that are `null`, add a DTO for every other
     * metadata document. `items` is what the earlier keys `done` gathered.
     */
    method ReadPage(ghost done: seq<string>, keys: seq<string>, items: seq<ClipboardItem>, presign: string -> string)
      returns (r: Result<seq<ClipboardItem>, ListError>)
      requires Collect(bucket, done, presign) == Ok(items)
      ensures r == Collect(bucket, done + keys, presign)
    {
      var acc := items;
      var j := 0;
      assert done + keys[..0] == done;
      while j < |keys|
        invariant 0 <= j <= |keys|
        invariant Collect(bucket, done + keys[..j], presign) == Ok(acc)
      {
        var key := keys[j];
        j := j + 1;
        assert done + keys[..j] == (done + keys[..j - 1]) + [key];
        CollectSnoc(bucket, done + keys[..j - 1], key, presign);
        if !IsMetadataKey(key) {
          continue;
        }
        if key !in bucket {
          r := Err(MissingObject(key));
          PageFailed(done, keys, j, presign);
          return;
        }
        match bucket[key]
        case MetadataObject(None) =>
        case MetadataObject(Some(m)) =>
          acc := acc + [ToItem(m, presign)];
        case _ =>
          r := Err(UnreadableMetadata(key));
          PageFailed(done, keys, j, presign);
          return;
      }
      assert keys[..j] == keys;
      r := Ok(acc);
    }

    /** A failure at the `j`-th key of a page is the failure of the whole page. */
    lemma PageFailed(done: seq<string>, keys: seq<string>, j: nat, presign: string -> string)
      requires j <= |keys|
      requires Collect(bucket, done + keys[..j], presign).Err?
      ensures Collect(bucket, done + keys, presign) == Collect(bucket, done + keys[..j], presign)
    {
      assert done + keys == (done + keys[..j]) + keys[j..];
      FailureSticks(bucket, done + keys[..j], keys[j..], presign);
    }

    /** `CreateTextAsync`; `itemId` stands for the fresh GUID and `now` for the clock. */
    method CreateText(userId: string, request: TextCreateRequest, itemId: string, now: Timestamp) returns (id: string)
      requires request.markdownContent.Some?
      modifies this
      ensures id == itemId
      ensures bucket == AfterTextCreate(old(bucket), configuredPrefix, userId, request, itemId, now)
    {
      var baseKey := ItemPrefix(configuredPrefix, userId, itemId);
      var contentKey := baseKey + "/" + TextContentName;
      var metadataKey := baseKey + "/" + MetadataName;
      bucket := bucket[contentKey := MarkdownObject(MarkdownContentType, Trim(request.markdownContent.value))];
      var metadata := TextMetadata(itemId, request, now);
      bucket := bucket[metadataKey := MetadataObject(Some(metadata))];
      id := itemId;
    }

    /** `CreateFileAsync`; the stream is represented by its declared length only. */
    method CreateFile(userId: string, fileName: string, contentType: string, contentLength: int,
                      title: Option<string>, itemId: string, now: Timestamp) returns (id: string)
      modifies this
      ensures id == itemId
      ensures bucket == AfterFileCreate(old(bucket), configuredPrefix, userId, fileName, contentType,
                                        contentLength, title, itemId, now)
    {
      var baseKey := ItemPrefix(configuredPrefix, userId, itemId);
      var fileKey := baseKey + "/" + FileContentName;
      var metadataKey := baseKey + "/" + MetadataName;
      bucket := bucket[fileKey := FileObject(contentType, contentLength)];
      var metadata := FileMetadata(itemId, fileKey, fileName, contentType, contentLength, title, now);
      bucket := bucket[metadataKey := MetadataObject(Some(metadata))];
      id := itemId;
    }

    /** `DeleteAsync` as written: remove everything under the item prefix, which has no closing '/'. */
    method Delete(userId: string, itemId: string, pages: seq<ListPage>)
      requires CompletePaging(pages)
      requires ListsPrefix(bucket, ItemPrefix(configuredPrefix, userId, itemId), pages)
      modifies this
      ensures bucket == WithoutPrefix(old(bucket), ItemPrefix(configuredPrefix, userId, itemId))
    {
      DeleteUnder(ItemPrefix(configuredPrefix, userId, itemId), pages);
    }

    /** `DeleteAsync` scoped to the item's folder, so that only that item's objects go. */
    method DeleteItemOnly(userId: string, itemId: string, pages: seq<ListPage>)
      requires CompletePaging(pages)
      requires ListsPrefix(bucket, ItemFolder(configuredPrefix, userId, itemId), pages)
      modifies this
      ensures bucket == WithoutPrefix(old(bucket), ItemFolder(configuredPrefix, userId, itemId))
    {
      DeleteUnder(ItemFolder(configuredPrefix, userId, itemId), pages);
    }

    /** The paged loop of `DeleteAsync`: each non-empty page is deleted in one `DeleteObjects` call. */
    method DeleteUnder(prefix: string, pages: seq<ListPage>)
      requires CompletePaging(pages)
      requires ListsPrefix(bucket, prefix, pages)
      modifies this
      ensures bucket == WithoutPrefix(old(bucket), prefix)
    {
      var i := 0;
      var more := true;
      while more
        invariant 0 <= i <= |pages|
        invariant more <==> i < |pages|
        invariant bucket == old(bucket) - KeySet(PagedKeys(pages[..i]))
        decreases |pages| - i
      {
        var page := pages[i];
        var continuationToken := NextToken(page);
        if |page.keys| != 0 {
          bucket := bucket - KeySet(page.keys);
        }
        PagedKeysSnoc(pages, i);
        assert KeySet(PagedKeys(pages[..i + 1])) == KeySet(PagedKeys(pages[..i])) + KeySet(page.keys);
        i := i + 1;
        more := !IsNullOrWhiteSpace(continuationToken);
      }
      assert pages[..i] == pages;
    }
  }
}
