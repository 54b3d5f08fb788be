/** The verification link and the QR-code wrappers of
    src/utils/qrCodeGenerator.ts. The encoder of the `qrcode` library is a
    parameter that either yields its output or fails. */
module QrCode {
  import opened Wrappers
  import opened Bytes
  import opened Strings

  const VERIFY_PATH: string := "/verify/"
  const QR_FAILED: string := "Failed to generate QR code"
  const QR_DATA_URL_FAILED: string := "Failed to generate QR code data URL"

  /** `getVerificationUrl`: the configured domain, '/verify/', then the id. */
  function VerificationUrl(domain: string, certificateId: string): (url: string)
    ensures StartsWith(url, domain + VERIFY_PATH)
    ensures url[|domain + VERIFY_PATH|..] == certificateId
  {
    domain + VERIFY_PATH + certificateId
  }

  /** Dropping the prefix gives the id back, so different ids get different links. */
  lemma VerificationUrlInjective(domain: string, a: string, b: string)
    requires VerificationUrl(domain, a) == VerificationUrl(domain, b)
    ensures a == b
  {
    assert a == VerificationUrl(domain, a)[|domain + VERIFY_PATH|..];
  }

  /** `generateQRCode`: the PNG encoding of the verification link, or a
      fixed error when the encoder fails. */
  function GenerateQRCode(domain: string, certificateId: string, encodePng: string -> Option<Bytes>)
    : (r: Result<Bytes>)
    ensures r.Success? <==> encodePng(VerificationUrl(domain, certificateId)).Some?
    ensures r.Success? ==> r.value == encodePng(VerificationUrl(domain, certificateId)).value
    ensures r.Failure? ==> r.error == QR_FAILED
  {
    match encodePng(VerificationUrl(domain, certificateId))
    case Some(png) => Success(png)
    case None => Failure(QR_FAILED)
  }

  /** `generateQRCodeDataURL`: the same link, encoded as a data URL. */
  function GenerateQRCodeDataURL(domain: string, certificateId: string, encodeDataUrl: string -> Option<string>)
    : (r: Result<string>)
    ensures r.Success? <==> encodeDataUrl(VerificationUrl(domain, certificateId)).Some?
    ensures r.Success? ==> r.value == encodeDataUrl(VerificationUrl(domain, certificateId)).value
    ensures r.Failure? ==> r.error == QR_DATA_URL_FAILED
  {
    match encodeDataUrl(VerificationUrl(domain, certificateId))
    case Some(u) => Success(u)
    case None => Failure(QR_DATA_URL_FAILED)
  }
}
