/** `processMedicalFiles`: the HTTP handler.  It checks the method,
    authenticates the caller, parses the upload, forwards the files to the
    conversion wrapper, stores the PDF it returns, records a timeline entry
    and answers; whatever is thrown on the way is mapped to a status and an
    error message. */
module Handler {
  import opened Common
  import opened RequestChecks
  import opened Upload
  import opened Artifact

  /** The parts of the request the handler reads. */
  datatype Request = Request(
    httpMethod: string,
    authorization: Option<string>,
    contentType: Option<string>,
    rawBody: Option<seq<uint8>>)

  /** One `form.append("files", buffer, { filename, contentType })`. */
  datatype FormPart = FormPart(field: string, content: seq<uint8>, filename: string, contentType: string)

  /** What the wrapper POST gave: a response (any status is accepted by
      `validateStatus`) with its body bytes, or a thrown error. */
  datatype WrapperOutcome = Responded(status: int, data: seq<uint8>) | PostThrew(error: Thrown)

  /** The metadata `save` attaches to the object. */
  datatype ObjectMetadata = ObjectMetadata(contentType: string, cacheControl: string, downloadToken: string)

  /** An awaited call that returns nothing or throws. */
  datatype Completion = Done | Threw(error: Thrown)

  /** Everything outside the handler's own code, as the handler sees it: the
      token verifier, what the multipart parser does with this request, the
      secret in the environment, the wrapper, the clock, `randomUUID`, the
      storage write and the timeline insert. */
  datatype Platform = Platform(
    verifyIdToken: string -> Result<string>,
    parserStart: ParserStart,
    events: seq<Event>,
    secret: Option<string>,
    postToWrapper: (seq<FormPart>, string) -> WrapperOutcome,
    now: nat,
    uuid: string,
    saveObject: (string, seq<uint8>, ObjectMetadata) -> Completion,
    addTimelineEntry: (string, TimelineEntry) -> Result<string>)

  /** The calls the handler makes to the outside, in order. */
  datatype Effect =
    | VerifyIdToken(token: string)
    | PostToWrapper(url: string, form: seq<FormPart>, secret: string)
    | SaveObject(path: string, content: seq<uint8>, metadata: ObjectMetadata)
    | AddTimelineEntry(uid: string, entry: TimelineEntry)

  /** The JSON (or text) body of an answer. */
  datatype Body =
    | PlainText(text: string)
    | ErrorJson(error: string)
    | WrapperFailedJson(error: string, status: int)
    | SuccessJson(timelineEventId: string, pdfUrl: string)

  /** The answer, or none when the upload promise never settles (the platform
      times the request out). */
  datatype Reply = Reply(status: int, body: Body) | NoReply

  const WrapperUrl := "https://medxern-wrapper-714043644019.asia-south1.run.app/export_pdf_from_files"
  const MinPdfBytes := 100
  /** The fixed strings of the stored object, the timeline entry and the replies. */
  const PdfType := "application/pdf"
  const CacheControl := "private, max-age=3600"
  const EntryTitle := "AI Medical Summary"
  const EntryType := "document"
  const MethodNotAllowed := "Method Not Allowed"
  const NoFilesUploaded := "No files uploaded (field must be 'files')"
  const Misconfigured := "Server misconfiguration"
  const WrapperFailed := "Wrapper failed"
  const InvalidPdf := "Wrapper returned empty/invalid PDF"
  const Post := "POST"
  const InternalError := "Internal error"

  /** The catch-all: `err?.status || 500` and `err?.message || "Internal error"`. */
  function ErrorReply(err: Thrown): (r: Reply)
    ensures r.Reply? && r.body.ErrorJson?
    // The status is the thrown one unless that is absent or 0, and is never 0 itself.
    ensures r.status != 0
    ensures err.status.Some? && err.status.value != 0 ==> r.status == err.status.value
    // The message is the thrown one unless that is absent or empty, and is never empty itself.
    ensures r.body.error != ""
    ensures Truthy(err.message) ==> r.body.error == err.message.value
    // The fallbacks: 500 and "Internal error".
    ensures !(err.status.Some? && err.status.value != 0) ==> r.status == 500
    ensures !Truthy(err.message) ==> r.body.error == InternalError
  {
    var status := if err.status.Some? && err.status.value != 0 then err.status.value else 500;
    Reply(status, ErrorJson(OrDefault(err.message, InternalError)))
  }

  /** The part the form carries for one upload. */
  function PartFor(f: UploadedFile): FormPart {
    FormPart(UploadField, f.buffer, f.filename, f.mime)
  }

  /** The uid the handler authenticates, if it gets that far. */
  function Uid(req: Request, env: Platform): Option<string> {
    if req.httpMethod == Post && RequireAuth(req.authorization, env.verifyIdToken).Ok?
    then Some(RequireAuth(req.authorization, env.verifyIdToken).value)
    else None
  }

  /** The promise `readMultipartFiles` returns for this request. */
  function UploadOutcome(req: Request, env: Platform): Settlement {
    ReadOutcome(req.contentType, req.rawBody, env.parserStart, env.events)
  }

  /** `processMedicalFiles`: the answer and the outside calls made, in order. */
  method ProcessMedicalFiles(req: Request, env: Platform) returns (reply: Reply, effects: seq<Effect>)
    // A non-POST request is refused before anything else happens.
    ensures req.httpMethod != Post ==> reply == Reply(405, PlainText(MethodNotAllowed)) && effects == []
    // Authentication comes next; a header without the bearer form is a 401 with no call made, whatever the body.
    ensures req.httpMethod == Post && BearerToken(req.authorization).None? ==>
              reply == ErrorReply(MissingAuthorization) && effects == []
    // The first call made is always the verification of the header's token.
    ensures effects != [] ==>
              req.httpMethod == Post && BearerToken(req.authorization).Some?
              && effects[0] == VerifyIdToken(BearerToken(req.authorization).value)
    ensures req.httpMethod == Post && BearerToken(req.authorization).Some?
            && env.verifyIdToken(BearerToken(req.authorization).value).Err? ==>
              reply == ErrorReply(env.verifyIdToken(BearerToken(req.authorization).value).error) && |effects| == 1
    // The upload is parsed only for an authenticated caller; its failure is answered through the catch-all.
    ensures Uid(req, env).Some? && UploadOutcome(req, env).Failed? ==>
              reply == ErrorReply(UploadOutcome(req, env).error) && |effects| == 1
    ensures Uid(req, env).Some? && UploadOutcome(req, env).Unsettled? ==> reply == NoReply && |effects| == 1
    ensures Uid(req, env).Some? && UploadOutcome(req, env) == Fulfilled([]) ==>
              reply == Reply(400, ErrorJson(NoFilesUploaded)) && |effects| == 1
    // The secret is checked only once there are files.
    ensures Uid(req, env).Some? && UploadOutcome(req, env).Fulfilled? && UploadOutcome(req, env).files != [] && !Truthy(env.secret) ==>
              reply == Reply(500, ErrorJson(Misconfigured)) && |effects| == 1
    // Once every guard has passed, the wrapper is called; it gets one form part per parsed file, in order, with the secret.
    ensures Uid(req, env).Some? && UploadOutcome(req, env).Fulfilled? && UploadOutcome(req, env).files != [] && Truthy(env.secret) ==>
              |effects| >= 2
    ensures |effects| >= 2 ==>
              Uid(req, env).Some? && UploadOutcome(req, env).Fulfilled? && UploadOutcome(req, env).files != [] && Truthy(env.secret)
              && effects[1].PostToWrapper? && effects[1].url == WrapperUrl && effects[1].secret == env.secret.value
              && |effects[1].form| == |UploadOutcome(req, env).files|
              && (forall i :: 0 <= i < |effects[1].form| ==> effects[1].form[i] == PartFor(UploadOutcome(req, env).files[i]))
    ensures |effects| >= 2 && env.postToWrapper(effects[1].form, effects[1].secret).PostThrew? ==>
              reply == ErrorReply(env.postToWrapper(effects[1].form, effects[1].secret).error) && |effects| == 2
    ensures |effects| >= 2 && env.postToWrapper(effects[1].form, effects[1].secret).Responded?
            && !(200 <= env.postToWrapper(effects[1].form, effects[1].secret).status < 300) ==>
              reply == Reply(502, WrapperFailedJson(WrapperFailed, env.postToWrapper(effects[1].form, effects[1].secret).status))
              && |effects| == 2
    ensures |effects| >= 2 && env.postToWrapper(effects[1].form, effects[1].secret).Responded?
            && 200 <= env.postToWrapper(effects[1].form, effects[1].secret).status < 300
            && |env.postToWrapper(effects[1].form, effects[1].secret).data| < MinPdfBytes ==>
              reply == Reply(502, ErrorJson(InvalidPdf)) && |effects| == 2
    // Only an accepted, large enough PDF is stored, under the caller's uid, with a fresh download token.
    ensures |effects| >= 3 ==>
              var answer := env.postToWrapper(effects[1].form, effects[1].secret);
              && answer.Responded? && 200 <= answer.status < 300 && |answer.data| >= MinPdfBytes
              && effects[2] == SaveObject(StoragePath(Uid(req, env).value, env.now), answer.data,
                                          ObjectMetadata(PdfType, CacheControl, env.uuid))
    ensures |effects| >= 2 && env.postToWrapper(effects[1].form, effects[1].secret).Responded?
            && 200 <= env.postToWrapper(effects[1].form, effects[1].secret).status < 300
            && |env.postToWrapper(effects[1].form, effects[1].secret).data| >= MinPdfBytes ==>
              |effects| >= 3
    ensures |effects| >= 3 && env.saveObject(effects[2].path, effects[2].content, effects[2].metadata).Threw? ==>
              reply == ErrorReply(env.saveObject(effects[2].path, effects[2].content, effects[2].metadata).error)
              && |effects| == 3
    // The timeline entry is written exactly when the object was saved, and points at it through a URL carrying the stored token.
    ensures |effects| >= 3 && env.saveObject(effects[2].path, effects[2].content, effects[2].metadata).Done? ==>
              |effects| == 4
    ensures |effects| >= 4 ==>
              && |effects| == 4
              && env.saveObject(effects[2].path, effects[2].content, effects[2].metadata).Done?
              && effects[3].AddTimelineEntry? && effects[3].uid == Uid(req, env).value
              && effects[3].entry.title == EntryTitle && effects[3].entry.eventType == EntryType
              && effects[3].entry.aiProcessed
              && effects[3].entry.source.storagePath == effects[2].path
              && effects[3].entry.source.fileName == FileName(env.now)
              && effects[3].entry.source.token == effects[2].metadata.downloadToken
              && effects[3].entry.source.fileUrl == DownloadUrl(Bucket, effects[2].path, effects[2].metadata.downloadToken)
              && effects[3].entry.source.originalFiles == Summaries(UploadOutcome(req, env).files)
    // A failed timeline write is answered as an error, and the stored object is left in place.
    ensures |effects| >= 4 && env.addTimelineEntry(effects[3].uid, effects[3].entry).Err? ==>
              reply == ErrorReply(env.addTimelineEntry(effects[3].uid, effects[3].entry).error)
    // Success: every step ran, and the answer carries the entry id and the URL the entry holds.
    ensures reply.Reply? && reply.body.SuccessJson? <==>
              |effects| == 4 && env.addTimelineEntry(effects[3].uid, effects[3].entry).Ok?
    ensures |effects| == 4 && env.addTimelineEntry(effects[3].uid, effects[3].entry).Ok? ==>
              reply == Reply(200, SuccessJson(env.addTimelineEntry(effects[3].uid, effects[3].entry).value,
                                              effects[3].entry.source.fileUrl))
  {
    effects := [];
    if req.httpMethod != Post {
      return Reply(405, PlainText(MethodNotAllowed)), [];
    }

    // 1) Auth
    var bearer := BearerToken(req.authorization);
    if bearer.None? {
      return ErrorReply(MissingAuthorization), [];
    }
    effects := [VerifyIdToken(bearer.value)];
    var verified := RequireAuth(req.authorization, env.verifyIdToken);
    if verified.Err? {
      return ErrorReply(verified.error), effects;
    }
    var uid := verified.value;

    // 2) Parse uploaded PDFs
    var uploaded := ReadMultipartFiles(req.contentType, req.rawBody, env.parserStart, env.events);
    if uploaded.Unsettled? {
      return NoReply, effects;
    }
    if uploaded.Failed? {
      return ErrorReply(uploaded.error), effects;
    }
    var files := uploaded.files;
    if |files| == 0 {
      return Reply(400, ErrorJson(NoFilesUploaded)), effects;
    }

    // 3) Read secret
    if !Truthy(env.secret) {
      return Reply(500, ErrorJson(Misconfigured)), effects;
    }
    var secret := env.secret.value;

    // 4) Forward to wrapper
    var form, conversion := ForwardToWrapper(files, secret, env);
    effects := effects + [PostToWrapper(WrapperUrl, form, secret)];
    if conversion.Refused? {
      return conversion.reply, effects;
    }

    // 5), 6) and 7)
    var stored;
    reply, stored := StoreAndRecord(uid, files, conversion.pdf, env);
    effects := effects + stored;
  }

  /** A request that passes every guard, against collaborators that all
      succeed, is answered 200 with the new entry's id and the download URL of
      the PDF stored under the caller's uid; all four calls are made. */
  method ProcessMedicalFilesSucceeds(req: Request, env: Platform) returns (reply: Reply, effects: seq<Effect>)
    requires Uid(req, env).Some? && UploadOutcome(req, env).Fulfilled? && UploadOutcome(req, env).files != []
    requires Truthy(env.secret)
    requires forall form, secret :: env.postToWrapper(form, secret).Responded?
               && 200 <= env.postToWrapper(form, secret).status < 300 && |env.postToWrapper(form, secret).data| >= MinPdfBytes
    requires forall path, content, metadata :: env.saveObject(path, content, metadata).Done?
    requires forall uid, entry :: env.addTimelineEntry(uid, entry).Ok?
    ensures |effects| == 4
    ensures reply.Reply? && reply.status == 200 && reply.body.SuccessJson?
    ensures reply.body.pdfUrl == DownloadUrl(Bucket, StoragePath(Uid(req, env).value, env.now), env.uuid)
    ensures effects[3].AddTimelineEntry?
            && reply.body.timelineEventId == env.addTimelineEntry(Uid(req, env).value, effects[3].entry).value
  {
    reply, effects := ProcessMedicalFiles(req, env);
  }

  /** What became of the wrapper's answer: a PDF to store, or the reply that ends the request. */
  datatype Conversion = Converted(pdf: seq<uint8>) | Refused(reply: Reply)

  /** Step 4: one form part per file, in order, posted with the secret; a thrown
      post goes to the catch-all, a status outside 2xx and a body under
      `MinPdfBytes` bytes are 502s. */
  method ForwardToWrapper(files: seq<UploadedFile>, secret: string, env: Platform)
    returns (form: seq<FormPart>, conversion: Conversion)
    ensures |form| == |files|
    ensures forall i :: 0 <= i < |files| ==> form[i] == PartFor(files[i])
    ensures env.postToWrapper(form, secret).PostThrew? ==>
              conversion == Refused(ErrorReply(env.postToWrapper(form, secret).error))
    ensures env.postToWrapper(form, secret).Responded? && !(200 <= env.postToWrapper(form, secret).status < 300) ==>
              conversion == Refused(Reply(502, WrapperFailedJson(WrapperFailed, env.postToWrapper(form, secret).status)))
    ensures env.postToWrapper(form, secret).Responded? && 200 <= env.postToWrapper(form, secret).status < 300
            && |env.postToWrapper(form, secret).data| < MinPdfBytes ==>
              conversion == Refused(Reply(502, ErrorJson(InvalidPdf)))
    // A PDF is passed on exactly when the wrapper accepted and it is large enough, and it is the wrapper's body.
    ensures conversion.Converted? <==>
              env.postToWrapper(form, secret).Responded? && 200 <= env.postToWrapper(form, secret).status < 300
              && |env.postToWrapper(form, secret).data| >= MinPdfBytes
    ensures conversion.Converted? ==> conversion.pdf == env.postToWrapper(form, secret).data
  {
    form := [];
    for i := 0 to |files|
      invariant |form| == i
      invariant forall j :: 0 <= j < i ==> form[j] == PartFor(files[j])
    {
      form := form + [FormPart(UploadField, files[i].buffer, files[i].filename, files[i].mime)];
    }
    var answer := env.postToWrapper(form, secret);
    if answer.PostThrew? {
      return form, Refused(ErrorReply(answer.error));
    }
    if answer.status < 200 || answer.status >= 300 {
      return form, Refused(Reply(502, WrapperFailedJson(WrapperFailed, answer.status)));
    }
    var pdf := answer.data;
    if |pdf| < MinPdfBytes {
      return form, Refused(Reply(502, ErrorJson(InvalidPdf)));
    }
    return form, Converted(pdf);
  }

  /** Steps 5 to 7: store the PDF under the caller's uid with a fresh download
      token, record a timeline entry pointing at it, and answer with the
      entry's id and the download URL. */
  method StoreAndRecord(uid: string, files: seq<UploadedFile>, pdf: seq<uint8>, env: Platform)
    returns (reply: Reply, effects: seq<Effect>)
    ensures 1 <= |effects| <= 2
    ensures effects[0] == SaveObject(StoragePath(uid, env.now), pdf,
                                     ObjectMetadata(PdfType, CacheControl, env.uuid))
    ensures env.saveObject(effects[0].path, effects[0].content, effects[0].metadata).Threw? ==>
              reply == ErrorReply(env.saveObject(effects[0].path, effects[0].content, effects[0].metadata).error)
              && |effects| == 1
    ensures env.saveObject(effects[0].path, effects[0].content, effects[0].metadata).Done? ==> |effects| == 2
    ensures |effects| == 2 ==>
              && env.saveObject(effects[0].path, effects[0].content, effects[0].metadata).Done?
              && effects[1].AddTimelineEntry? && effects[1].uid == uid
              && effects[1].entry.title == EntryTitle && effects[1].entry.eventType == EntryType
              && effects[1].entry.aiProcessed
              && effects[1].entry.source.storagePath == effects[0].path
              && effects[1].entry.source.fileName == FileName(env.now)
              && effects[1].entry.source.token == effects[0].metadata.downloadToken
              && effects[1].entry.source.fileUrl == DownloadUrl(Bucket, effects[0].path, effects[0].metadata.downloadToken)
              && effects[1].entry.source.originalFiles == Summaries(files)
    ensures |effects| == 2 && env.addTimelineEntry(effects[1].uid, effects[1].entry).Err? ==>
              reply == ErrorReply(env.addTimelineEntry(effects[1].uid, effects[1].entry).error)
    ensures reply.Reply? && reply.body.SuccessJson? <==>
              |effects| == 2 && env.addTimelineEntry(effects[1].uid, effects[1].entry).Ok?
    ensures |effects| == 2 && env.addTimelineEntry(effects[1].uid, effects[1].entry).Ok? ==>
              reply == Reply(200, SuccessJson(env.addTimelineEntry(effects[1].uid, effects[1].entry).value,
                                              effects[1].entry.source.fileUrl))
  {
    // 5) Save PDF to storage
    var fileName := FileName(env.now);
    var storagePath := StoragePath(uid, env.now);
    var token := env.uuid;
    var metadata := ObjectMetadata(PdfType, CacheControl, token);
    effects := [SaveObject(storagePath, pdf, metadata)];
    var saved := env.saveObject(storagePath, pdf, metadata);
    if saved.Threw? {
      return ErrorReply(saved.error), effects;
    }
    var downloadUrl := DownloadUrl(Bucket, storagePath, token);

    // 6) Save timeline entry
    var entry := TimelineEntry(EntryTitle, EntryType, true,
      SourceDocument(downloadUrl, storagePath, fileName, token, Summaries(files)));
    effects := effects + [AddTimelineEntry(uid, entry)];
    var added := env.addTimelineEntry(uid, entry);
    if added.Err? {
      return ErrorReply(added.error), effects;
    }

    // 7) Answer
    return Reply(200, SuccessJson(added.value, downloadUrl)), effects;
  }
}
