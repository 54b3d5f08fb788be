/** Certificate verification of src/services/verificationService.ts: the
    identifier syntax check, the decision chain over a lookup, and the
    helpers around it. The lookup is passed in as its outcome: `Failure`
    stands for a lookup that threw. */
module VerificationService {
  import opened Wrappers
  import opened Strings
  import opened Store
  import QrCode

  const INVALID_FORMAT: string := "Invalid certificate ID format"
  const NOT_FOUND: string := "Certificate not found. This certificate may not exist or may have been revoked."
  const REVOKED: string := "This certificate has been revoked and is no longer valid."
  const VALID: string := "Certificate is valid and authentic."
  const LOOKUP_ERROR: string := "An error occurred while verifying the certificate. Please try again later."

  datatype VerificationResult = VerificationResult(
    valid: bool, certificate: Option<CertificateWithUser>, message: string)

  /** Positions of the four hyphens in the 8-4-4-4-12 form. */
  predicate IsHyphenPosition(k: int) { k == 8 || k == 13 || k == 18 || k == 23 }

  /** `isValidUUID`: the string form of section 3 of RFC 4122 (32 hex digits
      in groups 8-4-4-4-12, either case), version digit 1 to 5 (section
      4.1.3) and variant digit 8, 9, a or b (section 4.1.1). */
  function IsValidUUID(s: string): (b: bool)
    ensures b ==> |s| == 36 && s[8] == '-' && s[13] == '-' && s[18] == '-' && s[23] == '-'
    ensures b <==> IsHyphenatedUuid(s)
  {
    var ok :=
      && |s| == 36
      && (forall k | 0 <= k < 36 :: if IsHyphenPosition(k) then s[k] == '-' else IsHexDigit(s[k]))
      && '1' <= s[14] <= '5'
      && (s[19] == '8' || s[19] == '9' || s[19] == 'a' || s[19] == 'b' || s[19] == 'A' || s[19] == 'B');
    if ok then
      HyphenateDigits(s);
      ok
    else
      assert !IsHyphenatedUuid(s) by {
        if IsHyphenatedUuid(s) {
          var h :| UuidDigits(h) && s == Hyphenate(h);
          HyphenatedIsWellFormed(h);
        }
      }
      ok
  }

  /** 32 hexadecimal digits whose 13th is the version (1-5) and 17th the variant. */
  predicate UuidDigits(h: string) {
    && |h| == 32
    && (forall k :: 0 <= k < 32 ==> IsHexDigit(h[k]))
    && '1' <= h[12] <= '5'
    && (h[16] == '8' || h[16] == '9' || h[16] == 'a' || h[16] == 'b' || h[16] == 'A' || h[16] == 'B')
  }

  /** The 8-4-4-4-12 rendering of 32 digits. */
  function Hyphenate(h: string): (s: string)
    requires |h| == 32
    ensures |s| == 36
  {
    h[..8] + "-" + h[8..12] + "-" + h[12..16] + "-" + h[16..20] + "-" + h[20..]
  }

  /** The digits of an identifier, hyphens removed. */
  function StripHyphens(s: string): (h: string)
    requires |s| == 36
    ensures |h| == 32
  {
    s[..8] + s[9..13] + s[14..18] + s[19..23] + s[24..]
  }

  ghost predicate IsHyphenatedUuid(s: string) {
    exists h :: UuidDigits(h) && s == Hyphenate(h)
  }

  lemma HyphenatedIsWellFormed(h: string)
    requires UuidDigits(h)
    ensures var s := Hyphenate(h);
      && (forall k | 0 <= k < 36 :: if IsHyphenPosition(k) then s[k] == '-' else IsHexDigit(s[k]))
      && '1' <= s[14] <= '5'
      && (s[19] == '8' || s[19] == '9' || s[19] == 'a' || s[19] == 'b' || s[19] == 'A' || s[19] == 'B')
  {
    var s := Hyphenate(h);
    forall k | 0 <= k < 36
      ensures if IsHyphenPosition(k) then s[k] == '-' else IsHexDigit(s[k])
    {
      if k < 8 { assert s[k] == h[k]; }
      else if 8 < k < 13 { assert s[k] == h[k - 1]; }
      else if 13 < k < 18 { assert s[k] == h[k - 2]; }
      else if 18 < k < 23 { assert s[k] == h[k - 3]; }
      else if 23 < k { assert s[k] == h[k - 4]; }
    }
    assert s[14] == h[12] && s[19] == h[16];
  }

  lemma HyphenateDigits(s: string)
    requires |s| == 36
    requires forall k | 0 <= k < 36 :: if IsHyphenPosition(k) then s[k] == '-' else IsHexDigit(s[k])
    requires '1' <= s[14] <= '5'
    requires s[19] == '8' || s[19] == '9' || s[19] == 'a' || s[19] == 'b' || s[19] == 'A' || s[19] == 'B'
    ensures UuidDigits(StripHyphens(s)) && Hyphenate(StripHyphens(s)) == s
  {
    var h := StripHyphens(s);
    forall k | 0 <= k < 32 ensures IsHexDigit(h[k]) {
      if k < 8 { assert h[k] == s[k]; }
      else if k < 12 { assert h[k] == s[k + 1]; }
      else if k < 16 { assert h[k] == s[k + 2]; }
      else if k < 20 { assert h[k] == s[k + 3]; }
      else { assert h[k] == s[k + 4]; assert !IsHyphenPosition(k + 4); }
    }
    assert h[12] == s[14] && h[16] == s[19];
    var t := Hyphenate(h);
    forall k | 0 <= k < 36 ensures t[k] == s[k] {
      if k < 8 { assert t[k] == h[k]; }
      else if k == 8 || k == 13 || k == 18 || k == 23 { assert IsHyphenPosition(k); }
      else if k < 13 { assert t[k] == h[k - 1]; }
      else if k < 18 { assert t[k] == h[k - 2]; }
      else if k < 23 { assert t[k] == h[k - 3]; }
      else { assert t[k] == h[k - 4]; }
    }
    assert t == s;
  }

  /** Removing the hyphens of a rendering gives the digits back. */
  lemma StripHyphenate(h: string)
    requires |h| == 32
    ensures StripHyphens(Hyphenate(h)) == h
  {
    var s := Hyphenate(h);
    var g := StripHyphens(s);
    forall k | 0 <= k < 32 ensures g[k] == h[k] {
      if k < 8 { assert g[k] == s[k]; }
      else if k < 12 { assert g[k] == s[k + 1]; }
      else if k < 16 { assert g[k] == s[k + 2]; }
      else if k < 20 { assert g[k] == s[k + 3]; }
      else { assert g[k] == s[k + 4]; }
    }
    assert g == h;
  }

  /** `verifyCertificate`, given what `CertificateQueries.findById` returned
      for the id (or that it threw). */
  function VerifyCertificate(certificateId: string, lookup: Result<Option<CertificateWithUser>>)
    : (r: VerificationResult)
    ensures r.valid <==> IsValidUUID(certificateId) && lookup.Success? && lookup.value.Some?
                         && lookup.value.value.certificate.isActive
    ensures r.valid ==> r.certificate == lookup.value && r.message == VALID
    ensures !r.valid ==> r.certificate.None?
    ensures !IsValidUUID(certificateId) ==> r.message == INVALID_FORMAT
    ensures IsValidUUID(certificateId) && lookup.Failure? ==> r.message == LOOKUP_ERROR
    ensures IsValidUUID(certificateId) && lookup == Success(None) ==> r.message == NOT_FOUND
    ensures (IsValidUUID(certificateId) && lookup.Success? && lookup.value.Some?
             && !lookup.value.value.certificate.isActive) ==> r.message == REVOKED
  {
    if !IsValidUUID(certificateId) then VerificationResult(false, None, INVALID_FORMAT)
    else match lookup
      case Failure(_) => VerificationResult(false, None, LOOKUP_ERROR)
      case Success(None) => VerificationResult(false, None, NOT_FOUND)
      case Success(Some(c)) =>
        if !c.certificate.isActive then VerificationResult(false, None, REVOKED)
        else VerificationResult(true, Some(c), VALID)
  }

  /** A malformed id is answered without looking at the lookup at all. */
  lemma MalformedNeedsNoLookup(certificateId: string, a: Result<Option<CertificateWithUser>>,
                               b: Result<Option<CertificateWithUser>>)
    requires !IsValidUUID(certificateId)
    ensures VerifyCertificate(certificateId, a) == VerifyCertificate(certificateId, b)
  {
  }

  /** Verification against the store. */
  function VerifyInStore(db: Database, certificateId: string): (r: VerificationResult)
    reads db
    ensures r == VerifyCertificate(certificateId, Success(db.FindCertificateById(certificateId)))
    ensures r.valid <==> IsValidUUID(certificateId) && db.FindCertificateById(certificateId).Some?
  {
    VerifyCertificate(certificateId, Success(db.FindCertificateById(certificateId)))
  }

  /** Because the store lookup only sees active certificates, the revoked
      message is never produced: a revoked id reads as not found. */
  lemma RevokedIsUnreachable(db: Database, certificateId: string)
    ensures VerifyInStore(db, certificateId).message != REVOKED
    ensures IsValidUUID(certificateId) && !VerifyInStore(db, certificateId).valid ==>
              VerifyInStore(db, certificateId).message == NOT_FOUND
  {
  }

  /** An issued certificate verifies while it is active and its owner exists:
      the answer carries that very row and the owner's organisation. */
  lemma IssuedCertificateVerifies(db: Database, i: nat, u: nat)
    requires db.Valid()
    requires i < |db.certificates| && u < |db.users|
    requires db.certificates[i].isActive && db.users[u].id == db.certificates[i].userId
    requires IsValidUUID(db.certificates[i].id)
    ensures VerifyInStore(db, db.certificates[i].id).valid
    ensures VerifyInStore(db, db.certificates[i].id).certificate ==
              Some(CertificateWithUser(db.certificates[i], db.users[u].organizationName))
  {
    FindByKeyUnique(db.certificates, CertificateKey, i);
    FindByKeyUnique(db.users, UserKey, u);
  }

  /** `getCertificateDetails`: `None` for a malformed id and when the lookup
      threw, otherwise whatever the lookup found. */
  function GetCertificateDetails(certificateId: string, lookup: Result<Option<CertificateWithUser>>)
    : (r: Option<CertificateWithUser>)
    ensures !IsValidUUID(certificateId) ==> r.None?
    ensures lookup.Failure? ==> r.None?
    ensures IsValidUUID(certificateId) && lookup.Success? ==> r == lookup.value
  {
    if !IsValidUUID(certificateId) then None
    else match lookup
      case Failure(_) => None
      case Success(found) => found
  }

  /** `generateVerificationQRCodeText`: the same link the QR generator encodes. */
  function VerificationQRCodeText(certificateId: string, domain: string): (text: string)
    ensures text == QrCode.VerificationUrl(domain, certificateId)
    ensures text[|domain + QrCode.VERIFY_PATH|..] == certificateId
  {
    domain + "/verify/" + certificateId
  }

  /** `checkRateLimit`: no limit is enforced, every address passes. */
  function CheckRateLimit(ipAddress: string): (allowed: bool)
    ensures allowed
  {
    true
  }

  datatype DisplayCertificate = DisplayCertificate(
    participantName: string, eventName: string, organizationName: string,
    generatedDate: string, certificateId: string)

  /** `formatCertificateForDisplay`; the locale date rendering is a parameter. */
  function FormatCertificateForDisplay(c: CertificateWithUser, formatDate: int -> string): (d: DisplayCertificate)
    ensures d.participantName == c.certificate.participantName
    ensures d.eventName == c.certificate.eventName
    ensures d.organizationName == c.organizationName
    ensures d.certificateId == c.certificate.id
    ensures d.generatedDate == formatDate(c.certificate.generatedAt)
  {
    DisplayCertificate(c.certificate.participantName, c.certificate.eventName, c.organizationName,
      formatDate(c.certificate.generatedAt), c.certificate.id)
  }
}
