/** The documents router (`routes/documents.js`, which the server's entry point never
    mounts, so no request reaches these handlers): documents owned by a user. A row is
    registered after a client-side upload, or made by an upload through the handler, which
    stores the bytes under `<user id>/<timestamp>_<original name>`. Delete and analyze
    address the caller's own row with `.single()`; analysis is limited to PDF and Word files. */
module DocumentsRoutes {
  import opened Js
  import opened Http
  import opened Services
  import opened Database
  import DocumentAnalyzer

  /** The extensions an analysis accepts */
  const SUPPORTED: seq<string> := ["pdf", "doc", "docx"]

  const INFO_MISSING: string := "Informations manquantes"
  const FILE_MISSING: string := "Fichier ou type manquant"
  const DOCUMENT_NOT_FOUND: string := "Document non trouvé"
  const DOCUMENT_DELETED: string := "Document supprimé"
  const UNSUPPORTED: string := "Type de document non supporté"

  // ---------------------------------------------------------------------------
  // Names and paths

  /** `fileName.split('.').pop().toLowerCase()`: the text after the last '.', or the
      whole name when it has none, in lower case */
  function Extension(fileName: string): (r: string)
    ensures |r| <= |fileName|
    ensures var tail := fileName[|fileName| - |r|..]; '.' !in tail && r == ToLower(tail)
    ensures |r| == |fileName| || fileName[|fileName| - |r| - 1] == '.'
  {
    SplitLast(fileName, '.');
    ToLower(Last(Split(fileName, '.')))
  }

  /** The extension of `base.ext` is `ext`, whatever `base` holds */
  lemma ExtensionAfterLastDot(base: string, ext: string)
    requires '.' !in ext
    ensures Extension(base + "." + ext) == ToLower(ext)
  {
    assert base + "." + ext == base + ['.'] + ext;
    SplitConcat(base, '.', ext);
    SplitWithoutSep(ext, '.');
  }

  /** A name without a '.' is its own extension */
  lemma ExtensionWithoutDot(fileName: string)
    requires '.' !in fileName
    ensures Extension(fileName) == ToLower(fileName)
  {
    SplitWithoutSep(fileName, '.');
  }

  /** The storage key of an upload */
  function StoragePath(userId: string, timestamp: nat, originalName: string): string {
    userId + "/" + Decimal(timestamp) + "_" + originalName
  }

  /** An upload's key lies in the owner's folder: the user id, '/', the digits that
      spell the timestamp, '_', then the original name */
  lemma StoragePathLayout(userId: string, timestamp: nat, originalName: string)
    ensures var path := StoragePath(userId, timestamp, originalName);
            var digits := |Decimal(timestamp)|;
            && StartsWith(path, userId + "/")
            && |path| == |userId| + 1 + digits + 1 + |originalName|
            && (forall i :: |userId| + 1 <= i < |userId| + 1 + digits ==> IsDigit(path[i]))
            && DigitsValue(path[|userId| + 1..|userId| + 1 + digits]) == timestamp
            && path[|userId| + 1 + digits] == '_'
            && path[|path| - |originalName|..] == originalName
  {
    var path := StoragePath(userId, timestamp, originalName);
    var d := Decimal(timestamp);
    assert path == (userId + "/") + d + "_" + originalName;
    assert forall i :: |userId| + 1 <= i < |userId| + 1 + |d| ==> path[i] == d[i - |userId| - 1];
    assert path[|userId| + 1..|userId| + 1 + |d|] == d;
    DecimalValue(timestamp);
  }

  // ---------------------------------------------------------------------------
  // Creating rows

  /** `.eq('id', id).eq('user_id', userId)` on `documents` */
  function OwnedDocument(id: int, userId: string): Document -> bool {
    (d: Document) => d.id == id && d.userId == userId
  }

  datatype DocumentBody = DocumentBody(
    fileName: Option<string>, fileType: Option<string>, fileUrl: Option<string>, fileSize: Option<int>)

  /** The row registered for a client-side upload */
  function RegisteredRow(id: int, userId: string, b: DocumentBody): Document
    requires Given(b.fileName) && Given(b.fileType) && Given(b.fileUrl)
  {
    Document(id, userId, b.fileName.value, b.fileType.value, b.fileUrl, None, b.fileSize, 0, false)
  }

  /** `POST /`: a name, a type and a URL are required (400); the row is inserted for the
      caller with a fresh id and no token cost (201) */
  function CreateDocument(db: Tables, userId: string, b: DocumentBody): (out: Outcome<Document>)
    ensures out.reply.Ok? <==> Given(b.fileName) && Given(b.fileType) && Given(b.fileUrl)
    ensures out.reply.Fail? ==> out.reply == Fail(BAD_REQUEST, Text(INFO_MISSING)) && out.after == db
    ensures out.reply.Ok? ==>
              && out.reply.status == CREATED
              && out.reply.body.id == db.nextId && out.reply.body.userId == userId
              && out.reply.body.fileName == b.fileName.value && out.reply.body.fileType == b.fileType.value
              && out.reply.body.fileUrl == b.fileUrl && out.reply.body.fileSize == b.fileSize
              && out.reply.body.filePath.None? && out.reply.body.tokensRequired == 0 && !out.reply.body.isShared
              && out.after == db.(documents := db.documents + [out.reply.body], nextId := db.nextId + 1)
  {
    if !Given(b.fileName) || !Given(b.fileType) || !Given(b.fileUrl) then
      Outcome(Fail(BAD_REQUEST, Text(INFO_MISSING)), db)
    else
      var row := RegisteredRow(db.nextId, userId, b);
      Outcome(Ok(CREATED, row), db.(documents := db.documents + [row], nextId := db.nextId + 1))
  }

  /** The multipart file of an upload */
  datatype Upload = Upload(originalName: string, bytes: Blob, size: nat)

  /** The row made by an upload */
  function UploadedRow(id: int, userId: string, file: Upload, fileType: string, path: string): Document {
    Document(id, userId, file.originalName, fileType, None, Some(path), Some(file.size), 0, false)
  }

  /** `POST /upload`: a file and a type are required (400). The bytes are stored under
      the caller's folder, which fails (500) when the key is taken; then the row is
      inserted and its id returned (201). */
  function UploadDocument(db: Tables, userId: string, file: Option<Upload>, fileType: Option<string>, now: nat)
    : (out: Outcome<int>)
    ensures out.reply.Fail? ==> out.after == db
    ensures file.None? || !Given(fileType) ==> out.reply == Fail(BAD_REQUEST, Text(FILE_MISSING))
    ensures out.reply.Ok? <==>
              file.Some? && Given(fileType) && StoragePath(userId, now, file.value.originalName) !in db.storage
    ensures file.Some? && Given(fileType) && !out.reply.Ok? ==> out.reply == Fail(SERVER_ERROR, Upstream)
    ensures out.reply.Ok? ==>
              var path := StoragePath(userId, now, file.value.originalName);
              && out.reply == Ok(CREATED, db.nextId)
              && out.after == db.(storage := db.storage[path := file.value.bytes],
                                  documents := db.documents + [UploadedRow(db.nextId, userId, file.value, fileType.value, path)],
                                  nextId := db.nextId + 1)
  {
    if file.None? || !Given(fileType) then Outcome(Fail(BAD_REQUEST, Text(FILE_MISSING)), db)
    else
      var path := StoragePath(userId, now, file.value.originalName);
      if path in db.storage then Outcome(Fail(SERVER_ERROR, Upstream), db)
      else
        var row := UploadedRow(db.nextId, userId, file.value, fileType.value, path);
        Outcome(Ok(CREATED, db.nextId),
                db.(storage := db.storage[path := file.value.bytes], documents := db.documents + [row], nextId := db.nextId + 1))
  }

  /** The uploaded document is the caller's, addressable by the returned id, and its key
      holds the bytes */
  lemma UploadIsAddressable(db: Tables, userId: string, file: Option<Upload>, fileType: Option<string>, now: nat)
    requires IdsFresh(db)
    requires UploadDocument(db, userId, file, fileType, now).reply.Ok?
    ensures var out := UploadDocument(db, userId, file, fileType, now);
            var row := Single(out.after.documents, OwnedDocument(out.reply.body, userId));
            && IdsFresh(out.after)
            && row.Some? && row.value.filePath.Some? && StartsWith(row.value.filePath.value, userId + "/")
            && out.after.storage[row.value.filePath.value] == file.value.bytes
  {
    var out := UploadDocument(db, userId, file, fileType, now);
    var path := StoragePath(userId, now, file.value.originalName);
    var row := UploadedRow(db.nextId, userId, file.value, fileType.value, path);
    FilterNone(db.documents, OwnedDocument(db.nextId, userId));
    FilterConcat(db.documents, [row], OwnedDocument(db.nextId, userId));
    StoragePathLayout(userId, now, file.value.originalName);
  }

  // ---------------------------------------------------------------------------
  // Deleting

  /** The key the handler removes: the owner's folder and the file's name */
  function KeyAsWritten(userId: string, doc: Document): string {
    userId + "/" + doc.fileName
  }

  /** The key the bytes were stored under: the row's `file_path` when the upload made it */
  function StoredKey(userId: string, doc: Document): string {
    doc.filePath.GetOr(KeyAsWritten(userId, doc))
  }

  /** The two writes of a delete: the storage key, then the caller's row */
  function Discard(db: Tables, userId: string, id: int, key: string): Tables {
    db.(storage := db.storage - {key}, documents := Remove(db.documents, OwnedDocument(id, userId)))
  }

  /** `DELETE /:id` as the handler writes it: the caller's row (404 when `.single()`
      fails), then the key `<user id>/<file name>` and the row are removed */
  function DeleteDocumentAsWritten(db: Tables, userId: string, id: int): (out: Outcome<string>)
    ensures out.reply.Ok? <==> Single(db.documents, OwnedDocument(id, userId)).Some?
    ensures out.reply.Fail? ==> out.reply == Fail(NOT_FOUND, Text(DOCUMENT_NOT_FOUND)) && out.after == db
    ensures out.reply.Ok? ==>
              var doc := Single(db.documents, OwnedDocument(id, userId)).value;
              && out.reply == Ok(OK, DOCUMENT_DELETED)
              && out.after == db.(storage := db.storage - {KeyAsWritten(userId, doc)},
                                  documents := Remove(db.documents, OwnedDocument(id, userId)))
  {
    match Single(db.documents, OwnedDocument(id, userId))
    case None => Outcome(Fail(NOT_FOUND, Text(DOCUMENT_NOT_FOUND)), db)
    case Some(doc) => Outcome(Ok(OK, DOCUMENT_DELETED), Discard(db, userId, id, KeyAsWritten(userId, doc)))
  }

  /** The key removed as written is never an upload's key: the upload's has the timestamp
      and '_' between the folder and the name */
  lemma AsWrittenKeyMissesUpload(userId: string, now: nat, file: Upload, fileType: string, id: int)
    ensures var path := StoragePath(userId, now, file.originalName);
            KeyAsWritten(userId, UploadedRow(id, userId, file, fileType, path)) != path
  {
    StoragePathLayout(userId, now, file.originalName);
  }

  /** Uploading then deleting, as written, leaves the uploaded bytes in storage with no row
      pointing at them */
  lemma UploadThenDeleteAsWrittenOrphansBlob(db: Tables, userId: string, file: Upload, fileType: string, now: nat)
    requires IdsFresh(db)
    requires UploadDocument(db, userId, Some(file), Some(fileType), now).reply.Ok?
    ensures var up := UploadDocument(db, userId, Some(file), Some(fileType), now);
            var del := DeleteDocumentAsWritten(up.after, userId, up.reply.body);
            var path := StoragePath(userId, now, file.originalName);
            && del.reply.Ok?
            && path in del.after.storage && del.after.storage[path] == file.bytes
            && Filter(del.after.documents, OwnedDocument(up.reply.body, userId)) == []
  {
    var up := UploadDocument(db, userId, Some(file), Some(fileType), now);
    UploadIsAddressable(db, userId, Some(file), Some(fileType), now);
    var path := StoragePath(userId, now, file.originalName);
    AsWrittenKeyMissesUpload(userId, now, file, fileType, db.nextId);
    RemoveMatched(up.after.documents, OwnedDocument(up.reply.body, userId));
  }

  /** `DELETE /:id` with the key the bytes were stored under */
  function DeleteDocument(db: Tables, userId: string, id: int): (out: Outcome<string>)
    ensures out.reply.Ok? <==> Single(db.documents, OwnedDocument(id, userId)).Some?
    ensures out.reply.Fail? ==> out.reply == Fail(NOT_FOUND, Text(DOCUMENT_NOT_FOUND)) && out.after == db
    ensures out.reply.Ok? ==>
              var doc := Single(db.documents, OwnedDocument(id, userId)).value;
              && out.reply == Ok(OK, DOCUMENT_DELETED)
              && out.after == db.(storage := db.storage - {StoredKey(userId, doc)},
                                  documents := Remove(db.documents, OwnedDocument(id, userId)))
  {
    match Single(db.documents, OwnedDocument(id, userId))
    case None => Outcome(Fail(NOT_FOUND, Text(DOCUMENT_NOT_FOUND)), db)
    case Some(doc) => Outcome(Ok(OK, DOCUMENT_DELETED), Discard(db, userId, id, StoredKey(userId, doc)))
  }

  /** Uploading then deleting restores the store: the bytes and the row are both gone */
  lemma UploadThenDeleteRestores(db: Tables, userId: string, file: Upload, fileType: string, now: nat)
    requires IdsFresh(db)
    requires UploadDocument(db, userId, Some(file), Some(fileType), now).reply.Ok?
    ensures var up := UploadDocument(db, userId, Some(file), Some(fileType), now);
            var del := DeleteDocument(up.after, userId, up.reply.body);
            && del.reply.Ok?
            && del.after == db.(nextId := db.nextId + 1)
  {
    var up := UploadDocument(db, userId, Some(file), Some(fileType), now);
    UploadIsAddressable(db, userId, Some(file), Some(fileType), now);
    var path := StoragePath(userId, now, file.originalName);
    var row := UploadedRow(db.nextId, userId, file, fileType, path);
    var p := OwnedDocument(db.nextId, userId);
    RemoveUnmatched(db.documents, p);
    RemoveConcat(db.documents, [row], p);
    assert up.after.storage - {path} == db.storage;
  }

  /** A delete removes every row of the caller with that id and no other row */
  lemma DeleteRemovesOnlyOwnRow(db: Tables, userId: string, id: int)
    requires DeleteDocument(db, userId, id).reply.Ok?
    ensures var after := DeleteDocument(db, userId, id).after;
            && Filter(after.documents, OwnedDocument(id, userId)) == []
            && (forall otherId, owner :: otherId != id || owner != userId ==>
                  Filter(after.documents, OwnedDocument(otherId, owner)) == Filter(db.documents, OwnedDocument(otherId, owner)))
  {
    var p := OwnedDocument(id, userId);
    RemoveMatched(db.documents, p);
    forall otherId, owner | otherId != id || owner != userId
      ensures Filter(Remove(db.documents, p), OwnedDocument(otherId, owner)) == Filter(db.documents, OwnedDocument(otherId, owner))
    {
      FilterRemove(db.documents, p, OwnedDocument(otherId, owner));
    }
  }

  /** Deleting the same document again is answered with a 404 and changes nothing */
  lemma DeleteTwiceNotFound(db: Tables, userId: string, id: int)
    requires DeleteDocument(db, userId, id).reply.Ok?
    ensures var after := DeleteDocument(db, userId, id).after;
            DeleteDocument(after, userId, id) == Outcome(Fail(NOT_FOUND, Text(DOCUMENT_NOT_FOUND)), after)
  {
    DeleteRemovesOnlyOwnRow(db, userId, id);
  }

  /** Every row with this id belongs to someone else */
  predicate OwnedByOthers(documents: seq<Document>, id: int, userId: string) {
    forall i :: 0 <= i < |documents| && documents[i].id == id ==> documents[i].userId != userId
  }

  /** Someone who does not own the document cannot delete it */
  lemma NonOwnerCannotDelete(db: Tables, userId: string, id: int)
    requires OwnedByOthers(db.documents, id, userId)
    ensures DeleteDocument(db, userId, id) == Outcome(Fail(NOT_FOUND, Text(DOCUMENT_NOT_FOUND)), db)
  {
    FilterNone(db.documents, OwnedDocument(id, userId));
  }

  // ---------------------------------------------------------------------------
  // Analysis

  /** What an analysis answers and the completion request it made, if any */
  datatype AnalysisReply = AnalysisReply(reply: Reply<string>, request: Option<CompletionRequest>)

  /** The bytes of a row, when it names a key that holds some */
  predicate Downloadable(db: Tables, doc: Document) {
    doc.filePath.Some? && doc.filePath.value in db.storage
  }

  /** `POST /:id/analyze`: the caller's row (404 when `.single()` fails); its bytes,
      downloaded from `file_path` (500 when the row has none or the key holds nothing);
      an extension among pdf, doc and docx (500 otherwise); then the analyzer, whose
      failures are 500s with its message and whose answer is the reply */
  function AnalyzeRoute(db: Tables, userId: string, id: int, extract: (Blob, string) -> Option<string>,
                        complete: CompletionRequest -> Completion): (r: AnalysisReply)
    ensures Single(db.documents, OwnedDocument(id, userId)).None? ==>
              r == AnalysisReply(Fail(NOT_FOUND, Text(DOCUMENT_NOT_FOUND)), None)
    ensures r.reply.Fail? ==> r.reply.status == NOT_FOUND || r.reply.status == SERVER_ERROR
    ensures var doc := Single(db.documents, OwnedDocument(id, userId));
            doc.Some? && !Downloadable(db, doc.value) ==> r == AnalysisReply(Fail(SERVER_ERROR, Upstream), None)
    ensures var doc := Single(db.documents, OwnedDocument(id, userId));
            doc.Some? && Downloadable(db, doc.value) && Extension(doc.value.fileName) !in SUPPORTED ==>
              r == AnalysisReply(Fail(SERVER_ERROR, Text(UNSUPPORTED)), None)
    ensures r.request.Some? ==>
              var doc := Single(db.documents, OwnedDocument(id, userId));
              doc.Some? && Downloadable(db, doc.value) && Extension(doc.value.fileName) in SUPPORTED
    ensures r.reply.Ok? <==> r.request.Some? && complete(r.request.value).Completed?
    ensures r.reply.Ok? ==> r.reply == Ok(OK, complete(r.request.value).text)
  {
    match Single(db.documents, OwnedDocument(id, userId))
    case None => AnalysisReply(Fail(NOT_FOUND, Text(DOCUMENT_NOT_FOUND)), None)
    case Some(doc) =>
      if !Downloadable(db, doc) then AnalysisReply(Fail(SERVER_ERROR, Upstream), None)
      else
        var extension := Extension(doc.fileName);
        if extension !in SUPPORTED then AnalysisReply(Fail(SERVER_ERROR, Text(UNSUPPORTED)), None)
        else
          var run := DocumentAnalyzer.AnalyzeDocument(db.storage[doc.filePath.value], extension, extract, complete);
          match run.analysis
          case Answered(text) => AnalysisReply(Ok(OK, text), run.request)
          case Failed(error) => AnalysisReply(Fail(SERVER_ERROR, error), run.request)
  }

  /** The analysis of a PDF or Word document asks with the general instructions, never
      the CV or letter ones, followed by the extracted text; a text that cannot be
      extracted ends in a 500 without a request */
  lemma AnalysisUsesGeneralPrompt(db: Tables, userId: string, id: int, extract: (Blob, string) -> Option<string>,
                                  complete: CompletionRequest -> Completion)
    requires var doc := Single(db.documents, OwnedDocument(id, userId));
             doc.Some? && Downloadable(db, doc.value) && Extension(doc.value.fileName) in SUPPORTED
    ensures var doc := Single(db.documents, OwnedDocument(id, userId)).value;
            var extension := Extension(doc.fileName);
            var text := extract(db.storage[doc.filePath.value], extension);
            var r := AnalyzeRoute(db, userId, id, extract, complete);
            && (text.None? ==> r == AnalysisReply(Fail(SERVER_ERROR, Text(DocumentAnalyzer.UNREADABLE)), None))
            && (text.Some? ==>
                  && r.request.Some? && r.request.value.model == DocumentAnalyzer.ANALYSIS_MODEL
                  && r.request.value.messages
                       == [ChatMessage(DocumentAnalyzer.SYSTEM_ROLE, DocumentAnalyzer.ANALYST),
                           ChatMessage(DocumentAnalyzer.USER_ROLE,
                                       DocumentAnalyzer.DEFAULT_PROMPT + DocumentAnalyzer.DOCUMENT_HEADER + text.value)])
  {
    var doc := Single(db.documents, OwnedDocument(id, userId)).value;
    var extension := Extension(doc.fileName);
    assert extension in DocumentAnalyzer.PARSED_TYPES;
    DocumentAnalyzer.ParsedTypesGetDefaultPrompt(extension);
  }

  /** Someone who does not own the document cannot have it analyzed */
  lemma NonOwnerCannotAnalyze(db: Tables, userId: string, id: int, extract: (Blob, string) -> Option<string>,
                              complete: CompletionRequest -> Completion)
    requires OwnedByOthers(db.documents, id, userId)
    ensures AnalyzeRoute(db, userId, id, extract, complete) == AnalysisReply(Fail(NOT_FOUND, Text(DOCUMENT_NOT_FOUND)), None)
  {
    FilterNone(db.documents, OwnedDocument(id, userId));
  }

  /** A document registered through `POST /` names no storage key, so its analysis fails */
  lemma RegisteredRowCannotBeAnalyzed(db: Tables, userId: string, b: DocumentBody,
                                      extract: (Blob, string) -> Option<string>, complete: CompletionRequest -> Completion)
    requires IdsFresh(db)
    requires CreateDocument(db, userId, b).reply.Ok?
    ensures var after := CreateDocument(db, userId, b).after;
            AnalyzeRoute(after, userId, db.nextId, extract, complete) == AnalysisReply(Fail(SERVER_ERROR, Upstream), None)
  {
    var row := CreateDocument(db, userId, b).reply.body;
    FilterNone(db.documents, OwnedDocument(db.nextId, userId));
    FilterConcat(db.documents, [row], OwnedDocument(db.nextId, userId));
  }

  // ---------------------------------------------------------------------------
  // The handlers against the store

  method RegisterDocument(store: Store, userId: string, b: DocumentBody) returns (r: Reply<Document>)
    modifies store
    ensures r == CreateDocument(old(store.Contents()), userId, b).reply
    ensures store.Contents() == CreateDocument(old(store.Contents()), userId, b).after
  {
    if !Given(b.fileName) || !Given(b.fileType) || !Given(b.fileUrl) {
      return Fail(BAD_REQUEST, Text(INFO_MISSING));
    }
    var row := RegisteredRow(store.nextId, userId, b);
    store.documents := store.documents + [row];
    store.nextId := store.nextId + 1;
    r := Ok(CREATED, row);
  }

  /** The upload: the bytes first, then the row */
  method StoreUpload(store: Store, userId: string, file: Option<Upload>, fileType: Option<string>, now: nat)
    returns (r: Reply<int>)
    modifies store
    ensures r == UploadDocument(old(store.Contents()), userId, file, fileType, now).reply
    ensures store.Contents() == UploadDocument(old(store.Contents()), userId, file, fileType, now).after
  {
    if file.None? || !Given(fileType) {
      return Fail(BAD_REQUEST, Text(FILE_MISSING));
    }
    var path := StoragePath(userId, now, file.value.originalName);
    if path in store.storage {
      return Fail(SERVER_ERROR, Upstream);
    }
    store.storage := store.storage[path := file.value.bytes];
    var id := store.nextId;
    store.documents := store.documents + [UploadedRow(id, userId, file.value, fileType.value, path)];
    store.nextId := id + 1;
    r := Ok(CREATED, id);
  }

  /** The delete, with the key the bytes were stored under */
  method RemoveDocument(store: Store, userId: string, id: int) returns (r: Reply<string>)
    modifies store
    ensures r == DeleteDocument(old(store.Contents()), userId, id).reply
    ensures store.Contents() == DeleteDocument(old(store.Contents()), userId, id).after
  {
    var doc := Single(store.documents, OwnedDocument(id, userId));
    if doc.None? {
      return Fail(NOT_FOUND, Text(DOCUMENT_NOT_FOUND));
    }
    store.storage := store.storage - {StoredKey(userId, doc.value)};
    store.documents := Remove(store.documents, OwnedDocument(id, userId));
    r := Ok(OK, DOCUMENT_DELETED);
  }
}
