/**
 * The object-key scheme of `S3ClipboardStorageService`: every object of an
 * item lives under `<prefix>/<userId>/<itemId>`, where `<prefix>` is the
 * configured `S3Prefix` with its trailing '/' trimmed.
 */
module S3Layout {
  import opened Strings

  const TextContentName: string := "content.md"
  const FileContentName: string := "content"
  const MetadataName: string := "metadata.json"

  /** The suffix `ListAsync` recognises metadata objects by. */
  const MetadataSuffix: string := "/metadata.json"

  /** A key with no '/' in it: one segment of a path. */
  predicate IsSegment(s: string) {
    '/' !in s
  }

  /** `GetUserPrefix`: `$"{S3Prefix.TrimEnd('/')}/{userId}/"`. */
  function UserPrefix(configured: string, userId: string): (r: string)
    ensures var root := TrimEndChar(configured, '/');
      && |r| == |root| + |userId| + 2
      && r[..|root|] == configured[..|root|]
      && (root == [] || r[|root| - 1] != '/')
      && r[|root|] == '/'
      && r[|root| + 1..|r| - 1] == userId
      && r[|r| - 1] == '/'
  {
    var root := TrimEndChar(configured, '/');
    var r := root + "/" + userId + "/";
    assert r[|root| + 1..|r| - 1] == userId;
    r
  }

  /** `GetItemPrefix`: `$"{S3Prefix.TrimEnd('/')}/{userId}/{itemId}"`, with no '/' at the end. */
  function ItemPrefix(configured: string, userId: string, itemId: string): (r: string)
    ensures r == UserPrefix(configured, userId) + itemId
  {
    TrimEndChar(configured, '/') + "/" + userId + "/" + itemId
  }

  /** `$"{baseKey}/content.md"`: where a text create puts the trimmed markdown. */
  function TextContentKey(configured: string, userId: string, itemId: string): string {
    ItemPrefix(configured, userId, itemId) + "/" + TextContentName
  }

  /** `$"{baseKey}/content"`: where a file create puts the uploaded bytes. */
  function FileContentKey(configured: string, userId: string, itemId: string): string {
    ItemPrefix(configured, userId, itemId) + "/" + FileContentName
  }

  /** `$"{baseKey}/metadata.json"`: where both creates put the item's metadata. */
  function MetadataKey(configured: string, userId: string, itemId: string): string {
    ItemPrefix(configured, userId, itemId) + "/" + MetadataName
  }

  /** The filter of `ListAsync`: the key ends with "/metadata.json", ignoring case. */
  predicate IsMetadataKey(key: string) {
    EndsWithIgnoreCase(key, MetadataSuffix)
  }

  /** Trailing slashes on the configured prefix do not change any key. */
  lemma PrefixIgnoresTrailingSlashes(configured: string, slashes: string, userId: string, itemId: string)
    requires forall i | 0 <= i < |slashes| :: slashes[i] == '/'
    ensures UserPrefix(configured + slashes, userId) == UserPrefix(configured, userId)
    ensures ItemPrefix(configured + slashes, userId, itemId) == ItemPrefix(configured, userId, itemId)
  {
    TrimEndCharIgnoresRun(configured, slashes, '/');
  }

  /** Every key a create writes lies under the item prefix, hence under the user prefix. */
  lemma WrittenKeysAreUnderPrefixes(configured: string, userId: string, itemId: string)
    ensures forall key | key in {TextContentKey(configured, userId, itemId),
                                 FileContentKey(configured, userId, itemId),
                                 MetadataKey(configured, userId, itemId)} ::
      StartsWith(key, ItemPrefix(configured, userId, itemId) + "/")
      && StartsWith(key, UserPrefix(configured, userId))
  {
    var item := ItemPrefix(configured, userId, itemId);
    var user := UserPrefix(configured, userId);
    StartsWithConcat(user, itemId);
    StartsWithConcat(item, "/");
    StartsWithTrans(item + "/", item, user);
    forall key | key in {TextContentKey(configured, userId, itemId),
                         FileContentKey(configured, userId, itemId),
                         MetadataKey(configured, userId, itemId)}
      ensures StartsWith(key, item + "/") && StartsWith(key, user)
    {
      StartsWithConcat(item + "/", key[|item| + 1..]);
      assert key == item + "/" + key[|item| + 1..];
      StartsWithTrans(key, item + "/", user);
    }
  }

  /** The metadata key passes the listing filter; the two content keys do not. */
  lemma OnlyMetadataKeysAreListed(configured: string, userId: string, itemId: string)
    ensures IsMetadataKey(MetadataKey(configured, userId, itemId))
    ensures !IsMetadataKey(TextContentKey(configured, userId, itemId))
    ensures !IsMetadataKey(FileContentKey(configured, userId, itemId))
  {
    var m := MetadataKey(configured, userId, itemId);
    assert m[|m| - |MetadataSuffix|..] == MetadataSuffix;
    var t := TextContentKey(configured, userId, itemId);
    assert t[|t| - 1] == 'd';
    var f := FileContentKey(configured, userId, itemId);
    assert f[|f| - 1] == 't';
  }

  /** If both `base + a + "/"` and `base + b + "/"` start `key`, and `a`, `b` are single segments, then `a == b`. */
  lemma SegmentsAgree(base: string, a: string, b: string, key: string)
    requires IsSegment(a) && IsSegment(b)
    requires StartsWith(key, base + a + "/") && StartsWith(key, base + b + "/")
    ensures a == b
  {
    if |a| <= |b| {
      ShorterSegmentAgrees(base, a, b, key);
    } else {
      ShorterSegmentAgrees(base, b, a, key);
    }
  }

  lemma ShorterSegmentAgrees(base: string, a: string, b: string, key: string)
    requires IsSegment(b) && |a| <= |b|
    requires StartsWith(key, base + a + "/") && StartsWith(key, base + b + "/")
    ensures a == b
  {
    var p := base + a + "/";
    var q := base + b + "/";
    var n := |base| + |a|;
    assert key[n] == p[n] == '/';
    forall i | 0 <= i < |a|
      ensures a[i] == b[i]
    {
      assert key[|base| + i] == p[|base| + i] == q[|base| + i];
    }
  }

  /** Users whose ids are single segments never share a key: the user prefix ends in '/'. */
  lemma UsersAreIsolated(configured: string, userId: string, otherId: string, key: string)
    requires IsSegment(userId) && IsSegment(otherId)
    requires StartsWith(key, UserPrefix(configured, userId))
    requires StartsWith(key, UserPrefix(configured, otherId))
    ensures userId == otherId
  {
    var root := TrimEndChar(configured, '/') + "/";
    assert UserPrefix(configured, userId) == root + userId + "/";
    assert UserPrefix(configured, otherId) == root + otherId + "/";
    SegmentsAgree(root, userId, otherId, key);
  }

  /**
   * The item prefix has no trailing '/': every key of an item whose id
   * extends `itemId` also starts with `itemId`'s prefix.
   */
  lemma ItemPrefixCoversLongerIds(configured: string, userId: string, itemId: string, suffix: string, key: string)
    requires StartsWith(key, ItemPrefix(configured, userId, itemId + suffix))
    ensures StartsWith(key, ItemPrefix(configured, userId, itemId))
  {
    assert ItemPrefix(configured, userId, itemId + suffix) == ItemPrefix(configured, userId, itemId) + suffix;
    StartsWithConcat(ItemPrefix(configured, userId, itemId), suffix);
    StartsWithTrans(key, ItemPrefix(configured, userId, itemId + suffix), ItemPrefix(configured, userId, itemId));
  }

  /** The item prefix with its closing '/': the objects of exactly one item. */
  function ItemFolder(configured: string, userId: string, itemId: string): string {
    ItemPrefix(configured, userId, itemId) + "/"
  }

  /** Items whose ids are single segments never share a key under their folders. */
  lemma ItemFoldersAreDisjoint(configured: string, userId: string, itemId: string, otherId: string, key: string)
    requires IsSegment(itemId) && IsSegment(otherId)
    requires StartsWith(key, ItemFolder(configured, userId, itemId))
    requires StartsWith(key, ItemFolder(configured, userId, otherId))
    ensures itemId == otherId
  {
    var user := UserPrefix(configured, userId);
    assert ItemFolder(configured, userId, itemId) == user + itemId + "/";
    assert ItemFolder(configured, userId, otherId) == user + otherId + "/";
    SegmentsAgree(user, itemId, otherId, key);
  }
}
