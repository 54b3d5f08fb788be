/** The public verification endpoints of src/routes/verification.ts: the
    single-id API with its rate-limit gate and audit log, the HTML page, and
    bulk verification. Each certificate lookup is given as its outcome, the
    date formatter and the clock as parameters. */
module VerificationRoutes {
  import opened Wrappers
  import opened Strings
  import opened JsValues
  import opened Store
  import opened VerificationService

  const TOO_MANY: string := "Too many verification requests. Please try again later."
  const IDS_REQUIRED: string := "certificate_ids array is required"
  const BULK_FAILED: string := "Bulk verification failed"
  const TRY_LATER: string := "Please try again later"
  const TOO_MANY_IDS: string := "Maximum 100 certificates can be verified at once"
  const PAGE_ERROR: string := "An error occurred while verifying the certificate."
  const UNKNOWN: string := "unknown"

  /** At most this many ids in one bulk request. */
  const MAX_BULK: nat := 100

  /** One call of `logVerificationAttempt`. */
  datatype LogEntry = LogEntry(certificateId: string, ipAddress: string, userAgent: string, success: bool)

  datatype ApiReply =
    | Verified(certificate: DisplayCertificate, verificationDate: string, message: string)  // 200
    | NotVerified(verificationDate: string, message: string)                                 // 404
    | RateLimited                                                                           // 429

  function Status(r: ApiReply): int {
    match r
    case Verified(_, _, _) => 200
    case NotVerified(_, _) => 404
    case RateLimited => 429
  }

  /** The reply, and the log lines written before it was sent. */
  datatype ApiOutcome = ApiOutcome(reply: ApiReply, log: seq<LogEntry>)

  /** `GET /api/verify/:certificateId`. `rateLimitOk` is the answer of the
      rate-limit check for the client address, `lookup` what the store
      returned for the id, `nowIso` the ISO time of the answer. */
  function ApiVerify(certificateId: string, ip: Option<string>, userAgent: Option<string>, rateLimitOk: bool,
                     lookup: Result<Option<CertificateWithUser>>, formatDate: int -> string, nowIso: string)
    : (o: ApiOutcome)
    ensures Status(o.reply) == 429 <==> !rateLimitOk
    ensures !rateLimitOk ==> o.log == []
    ensures var v := VerifyCertificate(certificateId, lookup);
      && (rateLimitOk ==> o.log == [LogEntry(certificateId, OrElse(ip, UNKNOWN), OrElse(userAgent, UNKNOWN), v.valid)])
      && (Status(o.reply) == 200 <==> rateLimitOk && v.valid && v.certificate.Some?)
      && (o.reply.Verified? ==> o.reply == Verified(FormatCertificateForDisplay(v.certificate.value, formatDate), nowIso, v.message))
      && (o.reply.NotVerified? ==> o.reply == NotVerified(nowIso, v.message))
  {
    if !rateLimitOk then ApiOutcome(RateLimited, [])
    else
      var v := VerifyCertificate(certificateId, lookup);
      var entry := LogEntry(certificateId, OrElse(ip, UNKNOWN), OrElse(userAgent, UNKNOWN), v.valid);
      if v.valid && v.certificate.Some? then
        ApiOutcome(Verified(FormatCertificateForDisplay(v.certificate.value, formatDate), nowIso, v.message), [entry])
      else ApiOutcome(NotVerified(nowIso, v.message), [entry])
  }

  /** With the service's own rate limiter no request is turned away, and
      the answer is 200 exactly for a well-formed id of an active
      certificate; everything else is 404 with the service's message. */
  lemma ApiVerifyWithServiceLimit(certificateId: string, ip: string, lookup: Result<Option<CertificateWithUser>>,
                                  formatDate: int -> string, nowIso: string)
    ensures var o := ApiVerify(certificateId, Some(ip), None, CheckRateLimit(ip), lookup, formatDate, nowIso);
      && |o.log| == 1 && o.log[0].userAgent == UNKNOWN
      && (Status(o.reply) == 200 <==>
           IsValidUUID(certificateId) && lookup.Success? && lookup.value.Some? && lookup.value.value.certificate.isActive)
      && (Status(o.reply) != 200 ==> Status(o.reply) == 404)
  {
  }

  /** What the verification page shows. */
  datatype PageView = PageView(
    certificateId: string, valid: bool, certificate: Option<DisplayCertificate>, message: string)

  /** `GET /verify/:certificateId`: the page shows the formatted
      certificate only when it verified. */
  function VerifyPage(certificateId: string, lookup: Result<Option<CertificateWithUser>>, formatDate: int -> string)
    : (p: PageView)
    ensures var v := VerifyCertificate(certificateId, lookup);
      && p.valid == v.valid && p.message == v.message && p.certificateId == certificateId
      && (p.certificate.Some? <==> v.valid)
      && (p.certificate.Some? ==> p.certificate.value == FormatCertificateForDisplay(v.certificate.value, formatDate))
  {
    var v := VerifyCertificate(certificateId, lookup);
    PageView(certificateId, v.valid,
             if v.valid && v.certificate.Some? then Some(FormatCertificateForDisplay(v.certificate.value, formatDate)) else None,
             v.message)
  }

  // ---------------------------------------------------------------------
  // Bulk verification

  datatype BulkItem = BulkItem(
    certificateId: string, valid: bool, message: string, certificate: Option<DisplayCertificate>)

  datatype BulkReply =
    | BulkResults(results: seq<BulkItem>, message: string)   // 200
    | BulkRejected(status: int, error: string)
    | BulkFailed(error: string, message: string)               // 500

  /** The id an element of `certificate_ids` stands for; an element that is
      not a string is checked as the empty id, which is malformed. */
  function IdOf(x: Json): string {
    if x.JString? then x.s else ""
  }

  /** The answer for one id. */
  function VerifyOne(id: string, lookup: Result<Option<CertificateWithUser>>, formatDate: int -> string)
    : (b: BulkItem)
    ensures var v := VerifyCertificate(id, lookup);
      && b.certificateId == id && b.valid == v.valid && b.message == v.message
      && (b.certificate.Some? <==> v.valid)
  {
    var v := VerifyCertificate(id, lookup);
    BulkItem(id, v.valid, v.message,
             if v.valid && v.certificate.Some? then Some(FormatCertificateForDisplay(v.certificate.value, formatDate)) else None)
  }

  /** `POST /api/verify/bulk`. `body` is `None` when the request carries no
      body: destructuring it throws, and the handler's `catch` answers 500.
      `lookup` gives what the store returned for each id. */
  function BulkVerify(body: Option<map<string, Json>>, lookup: string -> Result<Option<CertificateWithUser>>,
                      formatDate: int -> string): (r: BulkReply)
    ensures body.None? <==> r == BulkFailed(BULK_FAILED, TRY_LATER)
    ensures body.Some? ==> var ids := Field(body.value, "certificate_ids");
      && (r == BulkRejected(400, IDS_REQUIRED) <==> !ids.JArray? || |ids.elems| == 0)
      && (r == BulkRejected(400, TOO_MANY_IDS) <==> ids.JArray? && |ids.elems| > MAX_BULK)
      && (r.BulkResults? <==> ids.JArray? && 1 <= |ids.elems| <= MAX_BULK)
    ensures r.BulkResults? ==>
      var ids := Field(body.value, "certificate_ids").elems;
      && |r.results| == |ids|
      && r.message == "Verified " + NatToString(|ids|) + " certificates"
  {
    match body
    case None => BulkFailed(BULK_FAILED, TRY_LATER)
    case Some(fields) =>
      var ids := Field(fields, "certificate_ids");
      if !ids.JArray? || |ids.elems| == 0 then BulkRejected(400, IDS_REQUIRED)
      else if |ids.elems| > MAX_BULK then BulkRejected(400, TOO_MANY_IDS)
      else
        var elems := ids.elems;
        BulkResults(seq(|elems|, i requires 0 <= i < |elems| => VerifyOne(IdOf(elems[i]), lookup(IdOf(elems[i])), formatDate)),
                    "Verified " + NatToString(|elems|) + " certificates")
  }

  /** The bulk answer keeps the order of the request: result `i` is the
      single-id answer for id `i`, and it carries a certificate exactly when
      that id verified. */
  lemma BulkPreservesOrder(body: map<string, Json>, lookup: string -> Result<Option<CertificateWithUser>>,
                           formatDate: int -> string, i: nat)
    requires BulkVerify(Some(body), lookup, formatDate).BulkResults?
    requires i < |Field(body, "certificate_ids").elems|
    ensures var id := IdOf(Field(body, "certificate_ids").elems[i]);
      var item := BulkVerify(Some(body), lookup, formatDate).results[i];
      && item == VerifyOne(id, lookup(id), formatDate)
      && item.certificateId == id
      && (item.certificate.Some? <==> VerifyCertificate(id, lookup(id)).valid)
  {
  }
}
