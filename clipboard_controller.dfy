/**
 * `ClipboardController`: each action maps the caller's `NameIdentifier`
 * claim and the request to a status code, and decides whether the storage
 * call happens. What storage returns is passed in.
 */
module ClipboardController {
  import opened Wrappers
  import opened Strings
  import opened ClipboardItems
  import InMemoryStorage

  const Status200OK: int := 200
  const Status201Created: int := 201
  const Status204NoContent: int := 204
  const Status400BadRequest: int := 400
  const Status401Unauthorized: int := 401

  const MissingContentMessage: string := "Markdown content is required."
  const MissingFileMessage: string := "File is required."
  const DefaultContentType: string := "application/octet-stream"

  /** The parts of an `IFormFile` the controller reads. */
  datatype FormFile = FormFile(fileName: string, contentType: Option<string>, length: int)

  /** The one storage call an action may delegate to. */
  datatype StorageCall =
    | ListCall(userId: string)
    | CreateTextCall(userId: string, request: TextCreateRequest)
    | CreateFileCall(userId: string, fileName: string, contentType: string, contentLength: int, title: Option<string>)
    | DeleteCall(userId: string, itemId: string)

  datatype Body = NoBody | Problem(message: string) | Items(items: seq<ClipboardItem>) | CreatedId(id: string)

  /** The HTTP outcome of an action, with the storage call it made, if any. */
  datatype Response = Response(status: int, body: Body, call: Option<StorageCall>)

  /** `GET api/clipboard`; `listed` is what `ListAsync` returns. */
  function List(userId: Option<string>, listed: seq<ClipboardItem>): (r: Response)
    ensures r.status == Status401Unauthorized <==> userId.None?
    ensures r.call.Some? <==> userId.Some?
    ensures userId.Some? ==> r == Response(Status200OK, Items(listed), Some(ListCall(userId.value)))
  {
    if userId.None? then Response(Status401Unauthorized, NoBody, None)
    else Response(Status200OK, Items(listed), Some(ListCall(userId.value)))
  }

  /** `POST api/clipboard/text`; `storedId` is what `CreateTextAsync` returns. */
  function CreateText(userId: Option<string>, request: TextCreateRequest, storedId: string): (r: Response)
    ensures r.status == Status401Unauthorized <==> userId.None?
    ensures r.status == Status400BadRequest <==> userId.Some? && IsNullOrWhiteSpace(request.markdownContent)
    ensures r.status in {Status401Unauthorized, Status400BadRequest, Status201Created}
    ensures r.call.Some? <==> r.status == Status201Created
    ensures r.status == Status201Created ==>
              r.body == CreatedId(storedId) && r.call == Some(CreateTextCall(userId.value, request))
              && request.markdownContent.Some? && Trim(request.markdownContent.value) != []
  {
    if userId.None? then Response(Status401Unauthorized, NoBody, None)
    else if IsNullOrWhiteSpace(request.markdownContent) then
      Response(Status400BadRequest, Problem(MissingContentMessage), None)
    else Response(Status201Created, CreatedId(storedId), Some(CreateTextCall(userId.value, request)))
  }

  /** `POST api/clipboard/files`; `storedId` is what `CreateFileAsync` returns. */
  function UploadFile(userId: Option<string>, file: Option<FormFile>, title: Option<string>, storedId: string): (r: Response)
    ensures r.status == Status401Unauthorized <==> userId.None?
    ensures r.status == Status400BadRequest <==> userId.Some? && (file.None? || file.value.length == 0)
    ensures r.status in {Status401Unauthorized, Status400BadRequest, Status201Created}
    ensures r.call.Some? <==> r.status == Status201Created
    ensures r.status == Status201Created ==>
              && r.body == CreatedId(storedId)
              && r.call.value.CreateFileCall?
              && r.call.value.userId == userId.value
              && r.call.value.fileName == file.value.fileName
              && r.call.value.contentLength == file.value.length != 0
              && r.call.value.title == title
              && r.call.value.contentType
                   == (if file.value.contentType.Some? then file.value.contentType.value else DefaultContentType)
  {
    if userId.None? then Response(Status401Unauthorized, NoBody, None)
    else if file.None? || file.value.length == 0 then
      Response(Status400BadRequest, Problem(MissingFileMessage), None)
    else
      var f := file.value;
      var contentType := if f.contentType.None? then DefaultContentType else f.contentType.value;
      Response(Status201Created, CreatedId(storedId),
               Some(CreateFileCall(userId.value, f.fileName, contentType, f.length, title)))
  }

  /** `DELETE api/clipboard/{itemId}`. */
  function Delete(userId: Option<string>, itemId: string): (r: Response)
    ensures r.status == Status401Unauthorized <==> userId.None?
    ensures userId.Some? ==> r == Response(Status204NoContent, NoBody, Some(DeleteCall(userId.value, itemId)))
    ensures userId.None? ==> r.call.None?
  {
    if userId.None? then Response(Status401Unauthorized, NoBody, None)
    else Response(Status204NoContent, NoBody, Some(DeleteCall(userId.value, itemId)))
  }

  /** The caller is checked before the input: an anonymous request is refused with 401 whatever it carries. */
  lemma AnonymousIsRefusedFirst(request: TextCreateRequest, file: Option<FormFile>, title: Option<string>,
                                itemId: string, storedId: string, listed: seq<ClipboardItem>)
    ensures CreateText(None, request, storedId).status == Status401Unauthorized
    ensures UploadFile(None, file, title, storedId).status == Status401Unauthorized
    ensures List(None, listed).call.None? && CreateText(None, request, storedId).call.None?
    ensures UploadFile(None, file, title, storedId).call.None? && Delete(None, itemId).call.None?
  {
  }

  /**
   * A text create the controller accepts meets the store's precondition, and
   * the item the in-memory store keeps for it has non-empty markdown.
   */
  lemma AcceptedTextIsStoredNonEmpty(userId: string, request: TextCreateRequest, storedId: string, now: Timestamp)
    requires CreateText(Some(userId), request, storedId).status == Status201Created
    ensures request.markdownContent.Some?
    ensures InMemoryStorage.NewTextItem(storedId, request, now).markdownContent.value != []
    ensures !IsBlank(InMemoryStorage.NewTextItem(storedId, request, now).markdownContent.value)
  {
  }
}
