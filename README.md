# Clipboard store model

A Dafny model of the per-user clipboard store of the MarinApp API: the
backend keeps short markdown notes and uploaded files for each signed-in
user. Three parts are modelled.

- **The in-memory store** (`InMemoryClipboardStorageService`), used for local
  development. It is a class holding a map from user id to that user's items in
  insertion order. Create appends to the user's list, creating the list when it
  is missing. List returns the items newest first. Delete removes every item
  whose id equals the given id, ignoring case.
- **The object-store layout** (`S3ClipboardStorageService`) with the AWS SDK
  taken out. The bucket is a map from key to object. Every item lives under
  `<S3Prefix without trailing '/'>/<userId>/<itemId>` as `content.md` (text) or
  `content` (file), plus `metadata.json`. Listing pages through the user's
  prefix, keeps the objects whose key ends with `/metadata.json` (ignoring case)
  and sorts newest first. Deleting pages through the item prefix and deletes each
  non-empty page.
- **The request guards** of `ClipboardController`. Each action returns 401 when the
  caller has no `NameIdentifier` claim, checks its input (400), and only then calls
  storage (200, 201 or 204).

Ids and timestamps are method parameters, since the GUID and the clock cannot
be modelled. A `ListObjectsV2` call is answered by a sequence of pages; the
loops are proved against that sequence. A presigned URL is the value of a
function `presign` passed to the listing.

Where the two stores differ, the model keeps each one's behaviour:
- A text item listed from the object store has content type `text/markdown`.
  The in-memory store leaves it null.
- The object store's delete matches key prefixes case-sensitively. The in-memory
  store's delete compares ids ignoring case.
- The object store's delete also removes items whose id extends the given id
  (see Findings).

## Model

| member | source | states |
|---|---|---|
| `Strings.Trim` | apps/api/src/Services/InMemoryClipboardStorageService.cs:32 | `Trim()` yields the part of the input that starts right after its leading white space and is followed only by white space. That part has no white space at either end, and it is empty exactly when the input is blank. |
| `Strings.TrimEndChar` | apps/api/src/Services/S3ClipboardStorageService.cs:262 | `TrimEnd('/')` drops only trailing '/' characters, and its result does not end in '/'. |
| `Strings.TrimEndCharIgnoresRun` | apps/api/src/Services/S3ClipboardStorageService.cs:262 | Appending any run of the trimmed character does not change the result of `TrimEnd`. |
| `Strings.IsNullOrWhiteSpace` | apps/api/src/Services/InMemoryClipboardStorageService.cs:31 | `string.IsNullOrWhiteSpace`: the value is null, or every character is white space in the sense of `char.IsWhiteSpace`. The empty string is included. |
| `Strings.EqualsIgnoreCase` | apps/api/src/Services/InMemoryClipboardStorageService.cs:52 | `string.Equals(..., OrdinalIgnoreCase)`: the strings have equal length and agree at every position after upper-casing ASCII letters. |
| `Strings.EndsWithIgnoreCase` | apps/api/src/Services/S3ClipboardStorageService.cs:60 | `EndsWith(..., OrdinalIgnoreCase)`: the suffix is no longer than the string and equals its last characters, ignoring case. |
| `ClipboardItems.NormalizeTitle` | apps/api/src/Services/InMemoryClipboardStorageService.cs:31 | The title is null exactly when the input title is null or white space. Otherwise it is the input title unchanged. |
| `ClipboardItems.OrderByCreatedDescending` | apps/api/src/Services/InMemoryClipboardStorageService.cs:17 | `OrderByDescending(CreatedAt)` returns a permutation of its input, sorted newest first. |
| `ClipboardItems.OrderIsStable` | apps/api/src/Services/InMemoryClipboardStorageService.cs:17 | The order is stable: items with equal `CreatedAt` keep their input order. |
| `ClipboardItems.NewestFirstIsUnique` | apps/api/src/Services/InMemoryClipboardStorageService.cs:17 | Two newest-first sequences that agree on the order within every timestamp are equal. |
| `ClipboardItems.OrderIsTheStableSort` | apps/api/src/Services/InMemoryClipboardStorageService.cs:17 | Any newest-first arrangement that keeps the input order within each timestamp is exactly the list the stores return. |
| `InMemoryStorage.Listing` | apps/api/src/Services/InMemoryClipboardStorageService.cs:13-22 | A user with no entry lists as empty. Otherwise the listing is a permutation of the user's stored items, newest first. |
| `InMemoryStorage.ListingKeepsTies` | apps/api/src/Services/InMemoryClipboardStorageService.cs:17 | Items created at one instant are listed in their insertion order. |
| `InMemoryStorage.Appended` | apps/api/src/Services/InMemoryClipboardStorageService.cs:36-42 | A create adds the user's key if it is missing. The user's list gains exactly the new item at its end, and every other user's list is unchanged. |
| `InMemoryStorage.NewTextItem` | apps/api/src/Services/InMemoryClipboardStorageService.cs:27-34 | A text item has type "text", the trimmed markdown, the normalised title, the given id and time, and no file fields. |
| `InMemoryStorage.NewFileItem` | apps/api/src/Services/InMemoryClipboardStorageService.cs:68-77 | A file item has type "file", the given file name and content type, a size equal to `contentLength`, the normalised title and no markdown. |
| `InMemoryStorage.Matches` | apps/api/src/Services/InMemoryClipboardStorageService.cs:52 | The `RemoveAll` predicate: an item matches when its id equals `itemId`, ignoring case. |
| `InMemoryStorage.RemoveMatching` | apps/api/src/Services/InMemoryClipboardStorageService.cs:52 | `RemoveAll` keeps exactly the items whose id differs from `itemId` ignoring case, and never grows the list. |
| `InMemoryStorage.RemoveMatchingDistributes` | apps/api/src/Services/InMemoryClipboardStorageService.cs:52 | Removal distributes over concatenation, so the surviving items keep their relative order. |
| `InMemoryStorage.RemoveMatchingIdempotent` | apps/api/src/Services/InMemoryClipboardStorageService.cs:52 | Removing the same id twice removes nothing more. |
| `InMemoryStorage.Removed` | apps/api/src/Services/InMemoryClipboardStorageService.cs:48-56 | Delete changes only the given user's list. For an unknown user the table is unchanged. |
| `InMemoryStorage.DeleteIsIdempotent` | apps/api/src/Services/InMemoryClipboardStorageService.cs:48-56 | Deleting twice leaves the same table as deleting once. |
| `InMemoryStorage.DeletedItemIsNotListed` | apps/api/src/Services/InMemoryClipboardStorageService.cs:50-52 | After a delete, an item is listed for the user exactly when it was stored for them and its id does not match. |
| `InMemoryStorage.CreatedItemIsListed` | apps/api/src/Services/InMemoryClipboardStorageService.cs:36-44 | After a create, the new item, carrying the returned id, is in the user's listing, which has grown by exactly one. |
| `InMemoryStorage.CreateLeavesOthersListed` | apps/api/src/Services/InMemoryClipboardStorageService.cs:36-42 | A create for one user leaves every other user's listing as it was. |
| `InMemoryStorage.InMemoryClipboardStore.constructor` | apps/api/src/Services/InMemoryClipboardStorageService.cs:10 | The store starts with an empty table. |
| `InMemoryStorage.InMemoryClipboardStore.List` | apps/api/src/Services/InMemoryClipboardStorageService.cs:13-22 | `ListAsync` returns the listing of the current table. |
| `InMemoryStorage.InMemoryClipboardStore.CreateText` | apps/api/src/Services/InMemoryClipboardStorageService.cs:25-45 | `CreateTextAsync` appends the text item to the user's list and returns its id. |
| `InMemoryStorage.InMemoryClipboardStore.CreateFile` | apps/api/src/Services/InMemoryClipboardStorageService.cs:59-88 | `CreateFileAsync` appends the file item to the user's list and returns its id. |
| `InMemoryStorage.InMemoryClipboardStore.Add` | apps/api/src/Services/InMemoryClipboardStorageService.cs:36-42 | Finds or creates the user's list, then appends one item. |
| `InMemoryStorage.InMemoryClipboardStore.Delete` | apps/api/src/Services/InMemoryClipboardStorageService.cs:48-56 | `DeleteAsync` applies `RemoveAll` to the user's list, when there is one. |
| `S3Layout.UserPrefix` | apps/api/src/Services/S3ClipboardStorageService.cs:260-263 | The user prefix is the configured prefix up to its trailing slashes. Then come exactly one '/', the user id, and a closing '/'. |
| `S3Layout.ItemPrefix` | apps/api/src/Services/S3ClipboardStorageService.cs:265-268 | The item prefix is the user prefix followed by the item id, with no closing '/'. |
| `S3Layout.TextContentKey` | apps/api/src/Services/S3ClipboardStorageService.cs:122-123 | A text create's markdown goes to the item prefix followed by `/content.md`. |
| `S3Layout.FileContentKey` | apps/api/src/Services/S3ClipboardStorageService.cs:164-165 | A file create's bytes go to the item prefix followed by `/content`. |
| `S3Layout.MetadataKey` | apps/api/src/Services/S3ClipboardStorageService.cs:122-124 | Both creates put the metadata at the item prefix followed by `/metadata.json`. |
| `S3Layout.IsMetadataKey` | apps/api/src/Services/S3ClipboardStorageService.cs:60 | The listing filter: the key ends with `/metadata.json`, ignoring case. |
| `S3Layout.PrefixIgnoresTrailingSlashes` | apps/api/src/Services/S3ClipboardStorageService.cs:260-268 | A configured prefix with any number of trailing '/' gives the same user and item prefixes as without them. |
| `S3Layout.WrittenKeysAreUnderPrefixes` | apps/api/src/Services/S3ClipboardStorageService.cs:121-166 | `content.md`, `content` and `metadata.json` all start with the item prefix plus '/'. Hence they start with the user's prefix. |
| `S3Layout.OnlyMetadataKeysAreListed` | apps/api/src/Services/S3ClipboardStorageService.cs:58-63 | The metadata key passes the `/metadata.json` filter. Neither content key passes it. |
| `S3Layout.UsersAreIsolated` | apps/api/src/Services/S3ClipboardStorageService.cs:260-263 | If user ids contain no '/', no key lies under the prefixes of two different users. |
| `S3Layout.ItemPrefixCoversLongerIds` | apps/api/src/Services/S3ClipboardStorageService.cs:265-268 | Every key under the prefix of an id that extends `itemId` also lies under `itemId`'s prefix. |
| `S3Layout.ItemFoldersAreDisjoint` | apps/api/src/Services/S3ClipboardStorageService.cs:199-201 | Corrected prefix: with a closing '/', two different item ids without '/' share no key. |
| `S3Storage.NextToken` | apps/api/src/Services/S3ClipboardStorageService.cs:56 | A page that is not truncated gives no continuation token. A truncated page gives its `NextContinuationToken`. The delete loop does the same at line 214. |
| `S3Storage.HasMore` | apps/api/src/Services/S3ClipboardStorageService.cs:93 | The loop condition: the continuation token is neither null nor white space. The delete loop uses it at line 228. |
| `S3Storage.ToItem` | apps/api/src/Services/S3ClipboardStorageService.cs:71-89 | The DTO copies the id, type, title, markdown content, file name, content type, size and time of the metadata. `PreviewUrl` is non-null exactly when the metadata has a `FileKey`, and is then the presigned URL of that key. |
| `S3Storage.ReadEntry` | apps/api/src/Services/S3ClipboardStorageService.cs:58-69 | A key that is not a metadata key is skipped, and so is a metadata key holding a `null` document. A metadata key fails the read exactly when its object is missing (`MissingObject`) or is not a metadata document (`UnreadableMetadata`). It yields an item exactly when it holds a non-null document, and the item is `ToItem` of that document. |
| `S3Storage.Collect` | apps/api/src/Services/S3ClipboardStorageService.cs:58-92 | A successful gathering has at most one item per key that ends with "/metadata.json". |
| `S3Storage.CollectIsSound` | apps/api/src/Services/S3ClipboardStorageService.cs:58-92 | Every item of a successful gathering is the item some listed key yields. No item comes from anywhere else. |
| `S3Storage.CollectFailsIff` | apps/api/src/Services/S3ClipboardStorageService.cs:58-92 | A gathering fails exactly when some listed key fails to read. |
| `S3Storage.FailureSticks` | apps/api/src/Services/S3ClipboardStorageService.cs:65 | A failed metadata read fails the whole listing, whatever keys follow. |
| `S3Storage.CollectFinds` | apps/api/src/Services/S3ClipboardStorageService.cs:58-92 | Every item a listed metadata key yields is in a successful listing. |
| `S3Storage.CollectReadsOnlyItsKeys` | apps/api/src/Services/S3ClipboardStorageService.cs:58-92 | The listing depends only on the objects at the listed keys. |
| `S3Storage.TextMetadata` | apps/api/src/Services/S3ClipboardStorageService.cs:138-146 | Text metadata has type "text", the trimmed markdown, content type "text/markdown", the normalised title, and no file key, file name or size. |
| `S3Storage.FileMetadata` | apps/api/src/Services/S3ClipboardStorageService.cs:181-191 | File metadata has type "file", the file key, the file name, the content type, a size equal to `contentLength`, and the normalised title. |
| `S3Storage.NewestFirst` | apps/api/src/Services/S3ClipboardStorageService.cs:95 | A failed gathering stays the same failure. A successful one becomes a newest-first permutation of its items. |
| `S3Storage.AfterTextCreate` | apps/api/src/Services/S3ClipboardStorageService.cs:119-151 | A text create adds or replaces exactly two objects: the trimmed markdown, typed `text/markdown`, at `content.md` and the text metadata at `metadata.json`. Every other object is unchanged. |
| `S3Storage.AfterFileCreate` | apps/api/src/Services/S3ClipboardStorageService.cs:154-196 | A file create adds or replaces exactly two objects: the file at `content` and metadata pointing at that key at `metadata.json`. Every other object is unchanged. |
| `S3Storage.WithoutPrefix` | apps/api/src/Services/S3ClipboardStorageService.cs:204-228 | The bucket after a prefix delete keeps exactly the keys that do not start with the prefix, with their objects unchanged. |
| `S3Storage.TextCreateIsListed` | apps/api/src/Services/S3ClipboardStorageService.cs:119-151 | After a text create, a successful listing of that user contains the new item, with the returned id, the trimmed markdown and no preview URL. |
| `S3Storage.FileCreateIsListed` | apps/api/src/Services/S3ClipboardStorageService.cs:154-196 | After a file create, a successful listing contains the new item. It has the returned id, file name, content type and size, and a preview URL for its `content` key. |
| `S3Storage.OtherUsersCreateIsInvisible` | apps/api/src/Services/S3ClipboardStorageService.cs:42-56 | With ids that contain no '/', a text create for another user changes neither this user's listed keys nor their listing. |
| `S3Storage.OtherUsersFileCreateIsInvisible` | apps/api/src/Services/S3ClipboardStorageService.cs:154-196 | With ids that contain no '/', a file create for another user changes neither this user's listed keys nor their listing. |
| `S3Storage.DeleteTakesLongerIds` | apps/api/src/Services/S3ClipboardStorageService.cs:199-228 | As written, deleting `itemId` removes the metadata of an item whose id extends `itemId`. The in-memory store would keep that item. |
| `S3Storage.DeleteRemovesItem` | apps/api/src/Services/S3ClipboardStorageService.cs:199-228 | The delete as written removes the item's `content.md`, `content` and `metadata.json` objects. A later listing of the user does not include the item's metadata key. |
| `S3Storage.ScopedDeleteRemovesItem` | apps/api/src/Services/S3ClipboardStorageService.cs:199-201 | Corrected delete: removing under the item's folder removes all three keys the creates write. |
| `S3Storage.ScopedDeleteKeepsOtherItems` | apps/api/src/Services/S3ClipboardStorageService.cs:199-201 | Corrected delete: removing under the item's folder keeps every object of every other item whose id contains no '/'. |
| `S3Storage.S3ClipboardStore.constructor` | apps/api/src/Services/S3ClipboardStorageService.cs:28-35 | The store holds the configured prefix and the bucket it is given. |
| `S3Storage.S3ClipboardStore.List` | apps/api/src/Services/S3ClipboardStorageService.cs:38-96 | The do-while loop visits every page until the token is null or white space. It gathers the items of all pages in order, or fails with the first failure, and returns them newest first. |
| `S3Storage.S3ClipboardStore.ReadPage` | apps/api/src/Services/S3ClipboardStorageService.cs:58-92 | The `foreach` over one page extends the items gathered so far by exactly what the page's keys contribute. |
| `S3Storage.S3ClipboardStore.PageFailed` | apps/api/src/Services/S3ClipboardStorageService.cs:65 | A read failure inside a page is the failure of the whole page. |
| `S3Storage.S3ClipboardStore.CreateText` | apps/api/src/Services/S3ClipboardStorageService.cs:119-151 | Writes the trimmed markdown, typed `text/markdown`, at `content.md`, then the text metadata at `metadata.json`, and returns the id. |
| `S3Storage.S3ClipboardStore.CreateFile` | apps/api/src/Services/S3ClipboardStorageService.cs:154-196 | Writes the file at `content`, then metadata pointing at that key, and returns the id. |
| `S3Storage.S3ClipboardStore.Delete` | apps/api/src/Services/S3ClipboardStorageService.cs:199-229 | Removes exactly the objects whose key starts with the item prefix, across all pages. |
| `S3Storage.S3ClipboardStore.DeleteUnder` | apps/api/src/Services/S3ClipboardStorageService.cs:204-228 | The paged delete loop skips empty pages and ends with every key under the prefix removed and every other object kept. |
| `S3Storage.S3ClipboardStore.DeleteItemOnly` | apps/api/src/Services/S3ClipboardStorageService.cs:199-201 | Corrected delete: removes exactly the objects under the item's folder. |
| `ClipboardController.List` | apps/api/src/Controllers/ClipboardController.cs:36-46 | 401 with no storage call exactly when there is no user. Otherwise 200 with what storage listed for that user. |
| `ClipboardController.CreateText` | apps/api/src/Controllers/ClipboardController.cs:58-75 | 401 exactly when there is no user. 400 exactly when there is a user and the markdown is null, empty or white space. Otherwise 201 with the stored id. Storage is called exactly on 201, and then the content trims to something non-empty. |
| `ClipboardController.UploadFile` | apps/api/src/Controllers/ClipboardController.cs:88-115 | 401 exactly when there is no user. 400 exactly when there is a user and the file is missing or has length 0. Otherwise 201, and the storage call gets the file's name, its non-zero length as `contentLength`, the title, and the content type or "application/octet-stream". |
| `ClipboardController.Delete` | apps/api/src/Controllers/ClipboardController.cs:126-136 | 401 with no storage call when there is no user. Otherwise always 204 after the delete call. |
| `ClipboardController.AnonymousIsRefusedFirst` | apps/api/src/Controllers/ClipboardController.cs:62-71 | Authentication comes before input checks: an anonymous request gets 401 even with empty content, and no action calls storage for it. |
| `ClipboardController.AcceptedTextIsStoredNonEmpty` | apps/api/src/Controllers/ClipboardController.cs:68-73 | A text create the controller accepts meets the store's precondition, and the stored markdown is not blank. |

## Findings

| source | as written | input that shows it | evidently intended | confidence | as-written member | corrected member |
|---|---|---|---|---|---|---|
| apps/api/src/Services/S3ClipboardStorageService.cs:265-268 | `DeleteAsync` deletes every key starting with `GetItemPrefix(userId, itemId)`, which has no closing '/'. | A user holds items `abc…` and `abd…` and sends `DELETE api/clipboard/ab`. The objects of both items are removed, although neither id is `ab`. | Delete only the item with that id, as the in-memory store of the same interface does. That means deleting under `<itemPrefix>/`. | medium; not executed | `S3Storage.DeleteTakesLongerIds` | `S3Storage.ScopedDeleteKeepsOtherItems` |

The item ids the stores generate are 32 hex digits, so no generated id is a
proper prefix of another. The over-deletion needs a client to send a shortened
or different id. `S3ClipboardStore.Delete` models the code as written.
`S3ClipboardStore.DeleteItemOnly` is the corrected delete.

## Left out

- Bucket existence and creation (`EnsureBucketExistsAsync`, S3ClipboardStorageService.cs:98-116) is AWS SDK plumbing.
- The real `ListObjectsV2`, `PutObject`, `GetObject` and `DeleteObjects` calls are left out. The bucket is a map. A listing is the sequence of pages the service answers with: `CompletePaging` says the last page stops the loop, and `ListsPrefix` says the pages name exactly the bucket's keys under the prefix. The order in which the service lists keys is not modelled.
- Presigned URLs and their 15-minute expiry are left out. A preview URL is `presign(fileKey)` for a function passed in.
- JSON serialisation of the metadata is left out. A metadata document is read back exactly as written, and a JSON `null` document is `MetadataObject(None)`.
- S3ClipboardStore.List: an object at a metadata key that is not a metadata document fails the listing. The real deserialiser might instead parse some bodies.
- The S3 user-metadata headers (`user-id`, `item-type`, `created-at`, `title`, `original-file-name`) are not modelled. Only the objects' contents are.
- GUID generation and `DateTimeOffset.UtcNow` become parameters (`newId`/`itemId`, `now`). Timestamps are integers, compared as UTC instants.
- Google ID-token validation, JWT issuance, `AuthController`, `ProfileController`, `Program.cs` wiring and the React frontend are foreign libraries, framework plumbing or UI.
- The caller's identity is the value of the `NameIdentifier` claim, or `None`. ASP.NET's `[Authorize]` filter and automatic model validation, such as a missing request body, are not modelled.
- Async execution, cancellation tokens and concurrent access to the in-memory dictionary are left out. Each operation is one sequential step.
- Upload streams are left out. Only the declared length is stored.
- InMemoryStorage.NewTextItem, S3Storage.TextMetadata, S3Storage.AfterTextCreate and both `CreateText` methods require non-null markdown. On null markdown the source throws a `NullReferenceException` at `request.MarkdownContent.Trim()`. The controller, their only caller, refuses null markdown with 400 first, as `ClipboardController.AcceptedTextIsStoredNonEmpty` shows.
- Strings.EqualsIgnoreCase: folds case for ASCII letters only. `OrdinalIgnoreCase` also maps non-ASCII letters; the ids compared here are hex digits.
- `long` sizes are unbounded integers. No arithmetic is done on them, so overflow does not arise.
