/** The certificate endpoints of src/routes/certificates.ts: generation from
    a list or a CSV file, batch status and contents behind an ownership
    check, the paged listing, the archive download, regeneration and
    preview. Authentication has already put the caller's id in `userId`. */
module CertificateRoutes {
  import opened Wrappers
  import opened Bytes
  import opened Strings
  import opened JsValues
  import opened Constants
  import opened Store
  import opened ZipCreator
  import opened CsvParser
  import opened CertificateService

  const GENERATION_FAILED: string := "Certificate generation failed"
  const CSV_GENERATION_FAILED: string := "CSV certificate generation failed"
  const NO_CSV: string := "No CSV file uploaded"
  const CSV_FIELDS_REQUIRED: string := "Event name and template ID are required"
  const BATCH_NOT_FOUND: string := "Batch not found"
  const DOWNLOAD_NOT_AVAILABLE: string := "Download not available"
  const CERTIFICATE_NOT_FOUND: string := "Certificate not found"
  const REGENERATION_FAILED: string := "Certificate regeneration failed"
  const TEMPLATE_ID_REQUIRED: string := "Template ID is required"
  const PREVIEW_FAILED: string := "Certificate preview failed"

  /** Page size and start of the listing when the query leaves them out. */
  const DEFAULT_LIMIT: string := "50"
  const DEFAULT_OFFSET: string := "0"

  /** An error reply: status, `error`, and `message` when the route adds one. */
  datatype ErrorReply = ErrorReply(status: int, error: string, message: Option<string>)

  datatype GenerateReply = Generated(result: GenerationResult) | GenerateRejected(reply: ErrorReply)

  function GenerateStatus(r: GenerateReply): int {
    if r.Generated? then 201 else r.reply.status
  }

  // ---------------------------------------------------------------------
  // POST /certificates/generate and /certificates/generate/csv

  /** `POST /certificates/generate`, for a body the validation middleware
      accepted: 201 with the result, or 400 carrying the thrown message. The
      route calls the service as written, so `batchId` (the `uuidv4` id) and
      `batchRowId` (the store's id for the batch row) are separate. */
  method GenerateRoute(db: Database, userId: string, request: GenerateRequest, batchId: string, batchRowId: string,
                       certId: nat -> string, now: int, iso: string, zipError: Option<string>, env: Env)
    returns (reply: GenerateReply)
    requires db.Valid()
    modifies db`batches, db`certificates, db`users
    ensures db.Valid()
    ensures var o := old(Planned(db, userId, request, batchId, batchRowId, certId, now, iso, zipError, env));
      && (o.result.Success? ==> reply == Generated(o.result.value))
      && (o.result.Failure? ==> reply == GenerateRejected(ErrorReply(400, GENERATION_FAILED, Some(o.result.error))))
      && db.batches == o.batches && db.certificates == o.certificates && db.users == o.users
  {
    var r, archive := GenerateCertificates(db, userId, request, batchId, batchRowId, certId, now, iso, zipError, env);
    match r
    case Success(result) => reply := Generated(result);
    case Failure(e) => reply := GenerateRejected(ErrorReply(400, GENERATION_FAILED, Some(e)));
  }

  /** A multipart CSV upload: the parsed rows of the file and the two form
      fields. */
  datatype CsvUpload = CsvUpload(rows: Result<seq<Row>>, eventName: Option<string>, templateId: Option<string>)

  /** `POST /certificates/generate/csv`: a missing file, then a missing
      event name or template id, are refused before the service runs. */
  method GenerateFromCsvRoute(db: Database, userId: string, upload: Option<CsvUpload>, batchId: string,
                              batchRowId: string, certId: nat -> string, now: int, iso: string,
                              zipError: Option<string>, env: Env)
    returns (reply: GenerateReply)
    requires db.Valid()
    modifies db`batches, db`certificates, db`users
    ensures db.Valid()
    ensures upload.None? ==> reply == GenerateRejected(ErrorReply(400, NO_CSV, None))
    ensures upload.Some? && !(Truthy(upload.value.eventName) && Truthy(upload.value.templateId)) ==>
              reply == GenerateRejected(ErrorReply(400, CSV_FIELDS_REQUIRED, None))
    ensures (upload.None? || !(Truthy(upload.value.eventName) && Truthy(upload.value.templateId))) ==>
              db.batches == old(db.batches) && db.certificates == old(db.certificates) && db.users == old(db.users)
    ensures upload.Some? && Truthy(upload.value.eventName) && Truthy(upload.value.templateId)
            && CsvNames(upload.value.rows).Failure? ==>
              reply == GenerateRejected(ErrorReply(400, CSV_GENERATION_FAILED, Some(CsvNames(upload.value.rows).error)))
    ensures GenerateStatus(reply) == 201 ==>
      upload.Some? && Truthy(upload.value.eventName) && Truthy(upload.value.templateId)
      && CsvNames(upload.value.rows).Success?
    ensures upload.Some? && Truthy(upload.value.eventName) && Truthy(upload.value.templateId)
            && CsvNames(upload.value.rows).Success? ==>
      var u := upload.value;
      var o := old(Planned(db, userId, GenerateRequest(u.eventName.value, CsvNames(u.rows).value, u.templateId.value),
                           batchId, batchRowId, certId, now, iso, zipError, env));
      && (o.result.Success? ==> reply == Generated(o.result.value))
      && (o.result.Failure? ==> reply == GenerateRejected(ErrorReply(400, CSV_GENERATION_FAILED, Some(o.result.error))))
      && db.batches == o.batches && db.certificates == o.certificates && db.users == o.users
  {
    if upload.None? {
      return GenerateRejected(ErrorReply(400, NO_CSV, None));
    }
    var u := upload.value;
    if !Truthy(u.eventName) || !Truthy(u.templateId) {
      return GenerateRejected(ErrorReply(400, CSV_FIELDS_REQUIRED, None));
    }
    var r, archive := GenerateCertificatesFromCsv(db, userId, u.eventName.value, u.templateId.value, u.rows,
                                                  batchId, batchRowId, certId, now, iso, zipError, env);
    match r
    case Success(result) => reply := Generated(result);
    case Failure(e) => reply := GenerateRejected(ErrorReply(400, CSV_GENERATION_FAILED, Some(e)));
  }

  // ---------------------------------------------------------------------
  // Batches behind the ownership check

  datatype Reply<T> = Ok(value: T) | Refused(reply: ErrorReply)

  /** The batch with that id, if the caller owns it. */
  function OwnedBatch(db: Database, batchId: string, userId: string): (r: Option<Batch>)
    reads db
    ensures r.Some? <==> db.FindBatchById(batchId).Some? && db.FindBatchById(batchId).value.userId == userId
    ensures r.Some? ==> r == db.FindBatchById(batchId)
  {
    match db.FindBatchById(batchId)
    case None => None
    case Some(b) => if b.userId != userId then None else Some(b)
  }

  /** `GET /certificates/batch/:batchId`: the batch, or 404 alike for an
      unknown id and for another user's batch. */
  function BatchStatusRoute(db: Database, batchId: string, userId: string): (r: Reply<Batch>)
    reads db
    ensures r.Ok? <==> db.FindBatchById(batchId).Some? && db.FindBatchById(batchId).value.userId == userId
    ensures r.Ok? ==> r.value.id == batchId && r.value.userId == userId && r.value in db.batches
    ensures r.Refused? ==> r.reply == ErrorReply(404, BATCH_NOT_FOUND, None)
  {
    match OwnedBatch(db, batchId, userId)
    case None => Refused(ErrorReply(404, BATCH_NOT_FOUND, None))
    case Some(b) => Ok(b)
  }

  /** `GET /certificates/batches`: the caller's batches, newest first. */
  function UserBatchesRoute(db: Database, userId: string): (r: seq<Batch>)
    reads db
    ensures forall b :: b in r <==> b in db.batches && b.userId == userId
  {
    db.BatchesByUserId(userId)
  }

  /** `GET /certificates/batch/:batchId/certificates`: after the same check,
      the active certificates that carry that batch id. */
  function BatchCertificatesRoute(db: Database, batchId: string, userId: string): (r: Reply<seq<Certificate>>)
    reads db
    ensures r.Ok? <==> BatchStatusRoute(db, batchId, userId).Ok?
    ensures r.Ok? ==> forall c :: c in r.value <==> c in db.certificates && c.batchId == batchId && c.isActive
    ensures r.Refused? ==> r.reply == ErrorReply(404, BATCH_NOT_FOUND, None)
  {
    match OwnedBatch(db, batchId, userId)
    case None => Refused(ErrorReply(404, BATCH_NOT_FOUND, None))
    case Some(_) => Ok(db.CertificatesByBatchId(batchId))
  }

  // ---------------------------------------------------------------------
  // GET /certificates

  datatype ListReply = Listed(certificates: seq<Certificate>) | ListFailed

  /** `parseInt(query.x || default)`; an empty string also takes the default. */
  function QueryNumber(field: Option<string>, default: string): (r: Option<int>)
    ensures !Truthy(field) ==> r == ParseInt(default)
    ensures Truthy(field) ==> r == ParseInt(field.value)
  {
    ParseInt(OrElse(field, default))
  }

  /** `GET /certificates`: a limit or offset that does not read as a
      non-negative integer makes the store query throw. */
  function ListCertificatesRoute(db: Database, userId: string, limit: Option<string>, offset: Option<string>)
    : (r: ListReply)
    reads db
    ensures r.Listed? <==> var l := QueryNumber(limit, DEFAULT_LIMIT); var o := QueryNumber(offset, DEFAULT_OFFSET);
                           l.Some? && l.value >= 0 && o.Some? && o.value >= 0
    ensures r.Listed? ==> |r.certificates| <= QueryNumber(limit, DEFAULT_LIMIT).value
    ensures r.Listed? ==> forall c :: c in r.certificates ==> c in db.certificates && c.userId == userId && c.isActive
    ensures r.Listed? ==> r.certificates == db.CertificatesByUserId(userId, QueryNumber(limit, DEFAULT_LIMIT).value,
                                                                    QueryNumber(offset, DEFAULT_OFFSET).value)
  {
    var l := QueryNumber(limit, DEFAULT_LIMIT);
    var o := QueryNumber(offset, DEFAULT_OFFSET);
    if l.None? || l.value < 0 || o.None? || o.value < 0 then ListFailed
    else Listed(db.CertificatesByUserId(userId, l.value, o.value))
  }

  /** Without a query the listing is the first 50 of the caller's active
      certificates. */
  lemma ListDefaults(db: Database, userId: string)
    ensures ListCertificatesRoute(db, userId, None, None) == Listed(db.CertificatesByUserId(userId, 50, 0))
  {
    DefaultLimitParses();
    DefaultOffsetParses();
  }

  /** A limit and an offset written as decimals reach the store query as
      those numbers. */
  lemma ListOfDecimals(db: Database, userId: string, l: nat, o: nat)
    ensures ListCertificatesRoute(db, userId, Some(NatToString(l)), Some(NatToString(o))) ==
            Listed(db.CertificatesByUserId(userId, l, o))
  {
    ParseIntOfDecimal(l);
    ParseIntOfDecimal(o);
  }

  lemma DefaultLimitParses()
    ensures ParseInt(DEFAULT_LIMIT) == Some(50)
  {
    var s := DEFAULT_LIMIT;
    assert IsAsciiDigit(s[0]) && IsAsciiDigit(s[1]);
    ParseIntOfDigits(s);
    assert s[..1] == "5";
    assert RadixValue("5", 10) == 5;
    assert RadixValue(s, 10) == RadixValue("5", 10) * 10;
  }

  lemma DefaultOffsetParses()
    ensures ParseInt(DEFAULT_OFFSET) == Some(0)
  {
    var s := DEFAULT_OFFSET;
    assert IsAsciiDigit(s[0]);
    ParseIntOfDigits(s);
    assert RadixValue(s, 10) == 0;
  }

  // ---------------------------------------------------------------------
  // GET /certificates/batch/:batchId/download

  datatype FileReply = FileReply(contentType: string, contentDisposition: string, path: string)

  const ZIP_TYPE: string := "application/zip"
  const PDF_TYPE: string := "application/pdf"

  function Attachment(fileName: string): string {
    "attachment; filename=\"" + fileName + "\""
  }

  /** `GET /certificates/batch/:batchId/download`. */
  function DownloadRoute(db: Database, batchId: string, userId: string, exists_: string -> bool)
    : (r: Reply<FileReply>)
    reads db
    ensures r.Ok? <==> DownloadBatchZip(db, batchId, userId, exists_).Some?
    ensures r.Ok? ==> var d := DownloadBatchZip(db, batchId, userId, exists_).value;
      r.value == FileReply(ZIP_TYPE, Attachment(Basename(d.filePath)), d.filePath)
    ensures r.Refused? ==> r.reply == ErrorReply(404, DOWNLOAD_NOT_AVAILABLE, None)
  {
    match DownloadBatchZip(db, batchId, userId, exists_)
    case None => Refused(ErrorReply(404, DOWNLOAD_NOT_AVAILABLE, None))
    case Some(d) => Ok(FileReply(ZIP_TYPE, Attachment(d.fileName), d.filePath))
  }

  // ---------------------------------------------------------------------
  // POST /certificates/:certificateId/regenerate

  datatype PdfReply = PdfReply(fileName: string, pdf: Bytes)

  /** The attachment name of a regenerated certificate. */
  function RegeneratedFileName(participantName: string): (r: string)
    ensures r == EntryName(participantName)
  {
    Sanitize(participantName) + "_certificate.pdf"
  }

  /** `POST /certificates/:certificateId/regenerate`. */
  function RegenerateRoute(db: Database, certificateId: string, userId: string, env: Env): (r: Reply<PdfReply>)
    reads db
    ensures RegenerateCertificate(db, certificateId, userId, env) == Success(None) ==>
              r == Refused(ErrorReply(404, CERTIFICATE_NOT_FOUND, None))
    ensures RegenerateCertificate(db, certificateId, userId, env).Failure? ==>
              r == Refused(ErrorReply(500, REGENERATION_FAILED, Some(RegenerateCertificate(db, certificateId, userId, env).error)))
    ensures r.Ok? ==> var g := RegenerateCertificate(db, certificateId, userId, env).value.value;
      r.value == PdfReply(EntryName(g.certificate.participantName), g.pdf)
  {
    match RegenerateCertificate(db, certificateId, userId, env)
    case Failure(e) => Refused(ErrorReply(500, REGENERATION_FAILED, Some(e)))
    case Success(None) => Refused(ErrorReply(404, CERTIFICATE_NOT_FOUND, None))
    case Success(Some(g)) => Ok(PdfReply(RegeneratedFileName(g.certificate.participantName), g.pdf))
  }

  // ---------------------------------------------------------------------
  // POST /certificates/preview

  datatype PreviewBody = PreviewBody(templateId: Option<string>, participantName: Option<string>, eventName: Option<string>)

  /** The TypeError of destructuring an absent request body. */
  const NO_PREVIEW_BODY: string := "Cannot destructure property 'template_id' of 'request.body' as it is undefined."

  /** `POST /certificates/preview`: `body` is `None` when the request carries
      no body, whose destructuring throws into the handler's `catch`; then
      400 without a template id, else the preview image, or 500 carrying the
      thrown message. */
  function PreviewRoute(db: Database, userId: string, body: Option<PreviewBody>, previewUuid: string, now: int,
                        env: Env)
    : (r: Reply<Bytes>)
    reads db
    requires db.Valid()
    ensures body.None? ==> r == Refused(ErrorReply(500, PREVIEW_FAILED, Some(NO_PREVIEW_BODY)))
    ensures body.Some? && !Truthy(body.value.templateId) ==> r == Refused(ErrorReply(400, TEMPLATE_ID_REQUIRED, None))
    ensures body.Some? && Truthy(body.value.templateId) ==>
      var b := body.value;
      var p := PreviewCertificate(db, userId, b.templateId.value, b.participantName, b.eventName,
                                  previewUuid, now, env);
      && (p.Success? ==> r == Ok(p.value))
      && (p.Failure? ==> r == Refused(ErrorReply(500, PREVIEW_FAILED, Some(p.error))))
  {
    match body
    case None => Refused(ErrorReply(500, PREVIEW_FAILED, Some(NO_PREVIEW_BODY)))
    case Some(b) =>
      if !Truthy(b.templateId) then Refused(ErrorReply(400, TEMPLATE_ID_REQUIRED, None))
      else match PreviewCertificate(db, userId, b.templateId.value, b.participantName, b.eventName,
                                    previewUuid, now, env)
        case Success(png) => Ok(png)
        case Failure(e) => Refused(ErrorReply(500, PREVIEW_FAILED, Some(e)))
  }
}
