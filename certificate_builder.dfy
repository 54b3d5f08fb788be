/** The certificate builder of src/routes/certificateBuilder.ts: which border,
    logo and badge the preview shows, the defaults of the printable page, the
    identifier label, and the name of the downloaded file. The markup itself
    is not modelled: each helper yields the branch it takes and the values it
    places. The configuration is the request body, with every text field a
    string or absent and every flag reduced to its truthiness. */
module CertificateBuilder {
  import opened Wrappers
  import opened Bytes
  import opened Strings
  import opened JsValues
  import QrCode
  import PdfGenerator

  datatype BuilderConfig = BuilderConfig(
    template: Option<string>, borderStyle: Option<string>,
    primaryColor: Option<string>, secondaryColor: Option<string>, accentColor: Option<string>,
    title: Option<string>, subtitle: Option<string>, recipientName: Option<string>,
    description: Option<string>, date: Option<string>, signature: Option<string>,
    fontFamily: Option<string>,
    showLogo: bool, logoImage: Option<string>, logoText: Option<string>,
    logoPosition: Option<string>, logoSize: Option<string>, logoUrl: Option<string>,
    showBadge: bool, badgeIcon: Option<string>, badgeText: Option<string>)

  // ---------------------------------------------------------------------
  // UTF-16 helpers

  /** `s.slice(0, n)` on whole characters: the longest prefix that fits in
      `n` UTF-16 code units. */
  function FirstUnits(s: string, n: nat): (r: string)
    ensures |r| <= |s| && r == s[..|r|]
    ensures Utf16Length(r) <= n
    ensures |r| < |s| ==> Utf16Length(r) + (if s[|r|] as int > 0xFFFF then 2 else 1) > n
  {
    if s == [] then []
    else
      var w := if s[0] as int > 0xFFFF then 2 else 1;
      if w > n then [] else [s[0]] + FirstUnits(s[1..], n - w)
  }

  /** Text made of characters of the Basic Multilingual Plane. */
  predicate IsBmp(s: string) {
    forall k :: 0 <= k < |s| ==> s[k] as int <= 0xFFFF
  }

  /** On such text, the slice is the first `n` characters. */
  lemma {:induction false} FirstUnitsOfBmp(s: string, n: nat)
    requires IsBmp(s)
    ensures FirstUnits(s, n) == if n <= |s| then s[..n] else s
  {
    if s != [] && n > 0 {
      assert IsBmp(s[1..]) by {
        forall k | 0 <= k < |s[1..]| ensures s[1..][k] as int <= 0xFFFF { assert s[1..][k] == s[k + 1]; }
      }
      FirstUnitsOfBmp(s[1..], n - 1);
      if n <= |s| {
        assert [s[0]] + s[1..][..n - 1] == s[..n];
      } else {
        assert [s[0]] + s[1..] == s;
      }
    }
  }

  // ---------------------------------------------------------------------
  // Download file name

  /** What `.replace(/[^a-z0-9]/gi, '_')` leaves of one character: an ASCII
      letter or digit stays, anything else becomes one underscore per
      UTF-16 code unit. */
  function UnderscoreChar(c: char): (r: string)
    ensures Utf16Length(r) == Utf16Length([c])
  {
    if IsAsciiAlnum(c) then [c] else if c as int > 0xFFFF then "__" else "_"
  }

  function UnderscoreNonAlnum(s: string): (r: string)
  {
    if s == [] then [] else UnderscoreChar(s[0]) + UnderscoreNonAlnum(s[1..])
  }

  predicate AlnumOrUnderscore(s: string) {
    forall k :: 0 <= k < |s| ==> IsAsciiAlnum(s[k]) || s[k] == '_'
  }

  lemma {:induction false} Utf16LengthAppend(a: string, b: string)
    ensures Utf16Length(a + b) == Utf16Length(a) + Utf16Length(b)
  {
    if a != [] {
      var w := if a[0] as int > 0xFFFF then 2 else 1;
      assert (a + b)[0] == a[0] && (a + b)[1..] == a[1..] + b;
      Utf16LengthAppend(a[1..], b);
      assert Utf16Length(a + b) == w + Utf16Length(a[1..] + b);
      assert Utf16Length(a) == w + Utf16Length(a[1..]);
    } else {
      assert a + b == b;
    }
  }

  /** The replacement keeps the JavaScript length, and leaves only ASCII
      letters, digits and underscores. */
  lemma UnderscoreFacts(s: string)
    ensures Utf16Length(UnderscoreNonAlnum(s)) == Utf16Length(s)
    ensures AlnumOrUnderscore(UnderscoreNonAlnum(s))
  {
    UnderscoreKeepsLength(s);
    UnderscoreOnlySafe(s);
  }

  lemma {:induction false} UnderscoreKeepsLength(s: string)
    ensures Utf16Length(UnderscoreNonAlnum(s)) == Utf16Length(s)
  {
    if s != [] {
      UnderscoreKeepsLength(s[1..]);
      Utf16LengthAppend(UnderscoreChar(s[0]), UnderscoreNonAlnum(s[1..]));
      Utf16LengthAppend([s[0]], s[1..]);
      assert [s[0]] + s[1..] == s;
    }
  }

  lemma {:induction false} UnderscoreOnlySafe(s: string)
    ensures AlnumOrUnderscore(UnderscoreNonAlnum(s))
  {
    if s != [] {
      UnderscoreOnlySafe(s[1..]);
      var head := UnderscoreChar(s[0]);
      var tail := UnderscoreNonAlnum(s[1..]);
      assert AlnumOrUnderscore(head);
      forall k | 0 <= k < |head + tail| ensures IsAsciiAlnum((head + tail)[k]) || (head + tail)[k] == '_' {
        if k >= |head| { assert (head + tail)[k] == tail[k - |head|]; }
      }
    }
  }

  lemma {:induction false} UnderscoreAppend(a: string, b: string)
    ensures UnderscoreNonAlnum(a + b) == UnderscoreNonAlnum(a) + UnderscoreNonAlnum(b)
  {
    if a != [] {
      assert (a + b)[0] == a[0] && (a + b)[1..] == a[1..] + b;
      UnderscoreAppend(a[1..], b);
      assert UnderscoreNonAlnum(a + b) == UnderscoreChar(a[0]) + UnderscoreNonAlnum(a[1..] + b);
    } else {
      assert a + b == b;
    }
  }

  /** Text of letters, digits and underscores passes through unchanged, so
      the replacement is idempotent. */
  lemma {:induction false} UnderscoreKeeps(s: string)
    requires AlnumOrUnderscore(s)
    ensures UnderscoreNonAlnum(s) == s
  {
    if s != [] {
      assert AlnumOrUnderscore(s[1..]) by {
        forall k | 0 <= k < |s[1..]| ensures IsAsciiAlnum(s[1..][k]) || s[1..][k] == '_' { assert s[1..][k] == s[k + 1]; }
      }
      UnderscoreKeeps(s[1..]);
    }
  }

  lemma UnderscoreIdempotent(s: string)
    ensures UnderscoreNonAlnum(UnderscoreNonAlnum(s)) == UnderscoreNonAlnum(s)
  {
    UnderscoreFacts(s);
    UnderscoreKeeps(UnderscoreNonAlnum(s));
  }

  const DOWNLOAD_FALLBACK: string := "Certificate"

  /** The file name of a download before the replacement: recipient (or
      'Certificate'), '_', title (or 'Certificate'), '.pdf'. */
  function RawDownloadName(recipientName: Option<string>, title: Option<string>): string {
    OrElse(recipientName, DOWNLOAD_FALLBACK) + "_" + OrElse(title, DOWNLOAD_FALLBACK) + ".pdf"
  }

  /** The file name of a download, with every character outside [A-Za-z0-9]
      replaced, the final dot included. */
  function DownloadFilename(recipientName: Option<string>, title: Option<string>): (f: string)
    ensures Utf16Length(f) == Utf16Length(RawDownloadName(recipientName, title))
    ensures AlnumOrUnderscore(f)
  {
    var raw := RawDownloadName(recipientName, title);
    UnderscoreFacts(raw);
    UnderscoreNonAlnum(raw)
  }

  lemma UnderscoreOfPdf()
    ensures UnderscoreNonAlnum(".pdf") == "_pdf"
  {
    assert ".pdf"[1..] == "pdf";
    assert "pdf"[1..] == "df";
    assert "df"[1..] == "f";
    assert UnderscoreNonAlnum("f") == "f";
    assert UnderscoreNonAlnum("df") == "df";
    assert UnderscoreNonAlnum("pdf") == "pdf";
  }

  lemma UnderscoreOfJoin(r: string, t: string)
    ensures UnderscoreNonAlnum(r + "_" + t + ".pdf") ==
      UnderscoreNonAlnum(r) + "_" + UnderscoreNonAlnum(t) + "_pdf"
  {
    UnderscoreAppend(r + "_" + t, ".pdf");
    UnderscoreAppend(r + "_", t);
    UnderscoreAppend(r, "_");
    assert UnderscoreNonAlnum("_") == "_" by { assert "_"[1..] == []; }
    UnderscoreOfPdf();
  }

  /** The name is the replaced recipient, '_', the replaced title, and
      '_pdf': the extension dot does not survive. */
  lemma DownloadFilenameShape(recipientName: Option<string>, title: Option<string>)
    ensures DownloadFilename(recipientName, title) ==
      UnderscoreNonAlnum(OrElse(recipientName, DOWNLOAD_FALLBACK)) + "_"
      + UnderscoreNonAlnum(OrElse(title, DOWNLOAD_FALLBACK)) + "_pdf"
  {
    UnderscoreOfJoin(OrElse(recipientName, DOWNLOAD_FALLBACK), OrElse(title, DOWNLOAD_FALLBACK));
  }

  /** A space and a hyphen between two parts are replaced alike. */
  lemma SpaceLikeHyphen(a: string, b: string)
    ensures UnderscoreNonAlnum(a + " " + b) == UnderscoreNonAlnum(a + "-" + b)
  {
    UnderscoreAppend(a + " ", b);
    UnderscoreAppend(a + "-", b);
    UnderscoreAppend(a, " ");
    UnderscoreAppend(a, "-");
    assert UnderscoreNonAlnum(" ") == "_" by { assert " "[1..] == []; }
    assert UnderscoreNonAlnum("-") == "_" by { assert "-"[1..] == []; }
  }

  /** Recipients that differ only in a space versus a hyphen download under
      the same name. */
  lemma DownloadNamesCollide(a: string, b: string, title: Option<string>)
    ensures DownloadFilename(Some(a + " " + b), title) == DownloadFilename(Some(a + "-" + b), title)
  {
    DownloadFilenameShape(Some(a + " " + b), title);
    DownloadFilenameShape(Some(a + "-" + b), title);
    SpaceLikeHyphen(a, b);
  }

  // ---------------------------------------------------------------------
  // Preview: border, logo, badge, fonts

  /** The border markup `getBorderDesign` picks. */
  datatype Border = NoBorder | ModernSwoosh | ProfessionalGradient | BoldBars | VibrantBlocks | OrnateFrame

  function GetBorderDesign(template: Option<string>, borderStyle: Option<string>): (b: Border)
    ensures borderStyle == Some("ornate") ==> b == OrnateFrame
    ensures borderStyle == Some("modern") ==>
      (b != NoBorder <==> template.Some? && template.value in {"modern", "professional", "bold", "vibrant"})
    ensures borderStyle != Some("modern") && borderStyle != Some("ornate") ==> b == NoBorder
  {
    if borderStyle == Some("modern") && template == Some("modern") then ModernSwoosh
    else if borderStyle == Some("modern") && template == Some("professional") then ProfessionalGradient
    else if borderStyle == Some("modern") && template == Some("bold") then BoldBars
    else if borderStyle == Some("modern") && template == Some("vibrant") then VibrantBlocks
    else if borderStyle == Some("ornate") then OrnateFrame
    else NoBorder
  }

  /** The `positions` and `sizes` records of `getLogoHTML`. */
  const POSITIONS: map<string, string> := map[
    "top-left" := "top-6 left-6",
    "top-center" := "top-6 left-1/2 transform -translate-x-1/2",
    "top-right" := "top-6 right-6"]
  const SIZES: map<string, string> := map[
    "small" := "w-12 h-12",
    "medium" := "w-16 h-16",
    "large" := "w-20 h-20"]

  /** Indexing one of those records: an absent key, or one outside the
      record, gives `undefined`, shown here as `None`. */
  function ClassOf(table: map<string, string>, key: Option<string>): (r: Option<string>)
    ensures r.Some? <==> key.Some? && key.value in table
    ensures r.Some? ==> r.value == table[key.value]
  {
    match key
    case Some(k) => if k in table then Some(table[k]) else None
    case None => None
  }

  /** Exactly the three positions and the three sizes have a class. */
  lemma KnownLogoClasses(position: string, size: string)
    ensures ClassOf(POSITIONS, Some(position)).Some? <==>
      position == "top-left" || position == "top-center" || position == "top-right"
    ensures ClassOf(SIZES, Some(size)).Some? <==> size == "small" || size == "medium" || size == "large"
  {
  }

  /** What `getLogoHTML` shows: nothing, the uploaded image with an optional
      caption, or a disc with the first two units of the logo text. */
  datatype Logo =
    | NoLogo
    | ImageLogo(position: Option<string>, size: Option<string>, image: string, caption: Option<string>)
    | InitialsLogo(position: Option<string>, size: Option<string>, initials: string, text: string)

  /** The TypeError of `undefined.slice(0, 2)`. */
  const LOGO_TEXT_MISSING: string := "Cannot read properties of undefined (reading 'slice')"

  function GetLogo(c: BuilderConfig): (r: Result<Logo>)
    ensures r == Success(NoLogo) <==> !c.showLogo
    ensures r.Success? && r.value.ImageLogo? <==> c.showLogo && Truthy(c.logoImage)
    ensures r.Failure? <==> c.showLogo && !Truthy(c.logoImage) && c.logoText.None?
    ensures r.Failure? ==> r.error == LOGO_TEXT_MISSING
    ensures r.Success? && r.value.ImageLogo? ==>
      r.value.image == c.logoImage.value && (r.value.caption.Some? <==> Truthy(c.logoText))
    ensures r.Success? && r.value.InitialsLogo? ==>
      && r.value.text == c.logoText.value
      && r.value.initials == FirstUnits(c.logoText.value, 2)
    ensures r.Success? && !r.value.NoLogo? ==>
      r.value.position == ClassOf(POSITIONS, c.logoPosition) && r.value.size == ClassOf(SIZES, c.logoSize)
  {
    if !c.showLogo then Success(NoLogo)
    else if Truthy(c.logoImage) then
      Success(ImageLogo(ClassOf(POSITIONS, c.logoPosition), ClassOf(SIZES, c.logoSize), c.logoImage.value,
                        if Truthy(c.logoText) then c.logoText else None))
    else
      match c.logoText
      case None => Failure(LOGO_TEXT_MISSING)
      case Some(t) => Success(InitialsLogo(ClassOf(POSITIONS, c.logoPosition), ClassOf(SIZES, c.logoSize), FirstUnits(t, 2), t))
  }

  /** The initials are at most two characters, the start of the logo text. */
  lemma InitialsArePrefix(c: BuilderConfig)
    requires GetLogo(c).Success? && GetLogo(c).value.InitialsLogo?
    ensures var l := GetLogo(c).value;
      |l.initials| <= 2 && l.initials == l.text[..|l.initials|]
  {
  }

  /** The icons of `getBadgeHTML`. */
  const ICON_NAMES: set<string> :=
    {"award", "star", "shield", "trophy", "medal", "crown", "sparkles", "check", "hexagon"}
  const DEFAULT_ICON: string := "award"

  datatype Badge = NoBadge | Badge(icon: string, color: Option<string>, text: Option<string>)

  /** `getBadgeHTML`: no badge unless it is switched on; an unknown icon name
      falls back to the award icon. */
  function GetBadge(c: BuilderConfig): (b: Badge)
    ensures b == NoBadge <==> !c.showBadge
    ensures b.Badge? ==> b.icon in ICON_NAMES
    ensures b.Badge? ==> (b.icon == DEFAULT_ICON <==> c.badgeIcon.None? || c.badgeIcon.value !in ICON_NAMES - {DEFAULT_ICON})
    ensures b.Badge? && c.badgeIcon.Some? && c.badgeIcon.value in ICON_NAMES ==> b.icon == c.badgeIcon.value
    ensures b.Badge? ==> b.color == c.secondaryColor && b.text == c.badgeText
  {
    if !c.showBadge then NoBadge
    else
      var icon := if c.badgeIcon.Some? && c.badgeIcon.value in ICON_NAMES then c.badgeIcon.value else DEFAULT_ICON;
      Badge(icon, c.secondaryColor, c.badgeText)
  }

  /** The fonts of the preview: serif selects Georgia for text and a script
      face in normal weight for the name and signature; anything else, Arial
      in bold. */
  datatype Fonts = Fonts(text: string, script: string, nameWeight: string)

  function PreviewFonts(fontFamily: Option<string>): (f: Fonts)
    ensures f.text == "Georgia, serif" <==> fontFamily == Some("serif")
    ensures f.text == "Arial, sans-serif" <==> fontFamily != Some("serif")
    ensures fontFamily != Some("serif") ==> f.script == f.text && f.nameWeight == "bold"
    ensures fontFamily == Some("serif") ==> f.script == "Brush Script MT, cursive" && f.nameWeight == "normal"
  {
    if fontFamily == Some("serif") then Fonts("Georgia, serif", "Brush Script MT, cursive", "normal")
    else Fonts("Arial, sans-serif", "Arial, sans-serif", "bold")
  }

  /** The branches `generateCertificateHTML` combines. */
  datatype Preview = Preview(border: Border, logo: Logo, badge: Badge, fonts: Fonts)

  datatype PreviewReply = PreviewHtml(preview: Preview) | PreviewError(status: int, error: string, message: string)

  const PREVIEW_FAILED: string := "Preview generation failed"
  /** The TypeError of destructuring the fields of an absent body. */
  const NO_CONFIG_DESTRUCTURE: string := "Cannot destructure property 'template' of 'config' as it is undefined."

  /** The preview route. An absent body fails in `getBorderDesign`, the first
      helper to read it; a configuration whose logo cannot be drawn is a 500
      carrying the TypeError's message. */
  function PreviewCertificate(body: Option<BuilderConfig>): (r: PreviewReply)
    ensures body.None? ==> r == PreviewError(500, PREVIEW_FAILED, NO_CONFIG_DESTRUCTURE)
    ensures body.Some? ==> (r.PreviewHtml? <==> GetLogo(body.value).Success?)
    ensures body.Some? && r.PreviewHtml? ==>
      var c := body.value;
      r.preview == Preview(GetBorderDesign(c.template, c.borderStyle), GetLogo(c).value, GetBadge(c), PreviewFonts(c.fontFamily))
    ensures body.Some? && r.PreviewError? ==> r == PreviewError(500, PREVIEW_FAILED, LOGO_TEXT_MISSING)
  {
    match body
    case None => PreviewError(500, PREVIEW_FAILED, NO_CONFIG_DESTRUCTURE)
    case Some(c) =>
      match GetLogo(c)
      case Failure(e) => PreviewError(500, PREVIEW_FAILED, e)
      case Success(logo) =>
        PreviewHtml(Preview(GetBorderDesign(c.template, c.borderStyle), logo, GetBadge(c), PreviewFonts(c.fontFamily)))
  }

  // ---------------------------------------------------------------------
  // The printable page and the download

  const DEFAULT_PRIMARY: string := "#0891b2"
  const DEFAULT_SECONDARY: string := "#fbbf24"
  const DEFAULT_TITLE: string := "Certificate of Achievement"
  const DEFAULT_RECIPIENT: string := "Recipient Name"
  const DEFAULT_SIGNATURE: string := "Director Signature"
  const DEFAULT_DESCRIPTION: string :=
    "For outstanding performance and dedication in completing the advanced training program with exceptional results and demonstrating remarkable commitment to excellence."
  /** An inline SVG reading 'QR Code', shown when no code was generated. */
  const QR_PLACEHOLDER: string :=
    "data:image/svg+xml;base64,PHN2ZyB3aWR0aD0iODAiIGhlaWdodD0iODAiIHhtbG5zPSJodHRwOi8vd3d3LnczLm9yZy8yMDAwL3N2ZyI+PHJlY3Qgd2lkdGg9IjgwIiBoZWlnaHQ9IjgwIiBmaWxsPSJ3aGl0ZSIgc3Ryb2tlPSIjNjY2IiBzdHJva2Utd2lkdGg9IjEiLz48dGV4dCB4PSI0MCIgeT0iNDAiIHRleHQtYW5jaG9yPSJtaWRkbGUiIGRvbWluYW50LWJhc2VsaW5lPSJtaWRkbGUiIGZvbnQtc2l6ZT0iMTAiIGZpbGw9IiM2NjYiPlFSIENvZGU8L3RleHQ+PC9zdmc+"
  const ID_PREFIX: string := "ID: "

  /** The values `generateFullCertificateHTML` places on the page. */
  datatype PageFields = PageFields(
    pageTitle: string, bodyFont: string, primaryColor: string, secondaryColor: string,
    title: string, recipient: string, description: string, date: string, signature: string,
    logoUrl: Option<string>, qrImage: string, idLabel: Option<string>)

  /** The identifier label: the first eight units of the id, or nothing
      when there is no id. */
  function IdLabel(certificateId: Option<string>): (r: Option<string>)
    ensures r.Some? <==> Truthy(certificateId)
    ensures r.Some? ==> r.value == ID_PREFIX + FirstUnits(certificateId.value, 8)
  {
    if Truthy(certificateId) then Some(ID_PREFIX + FirstUnits(certificateId.value, 8)) else None
  }

  /** `today` is the server's date in the 'en-US' long format, the fallback
      of the date line. */
  function PageOf(c: BuilderConfig, certificateId: Option<string>, qrCodeDataUrl: Option<string>, today: string)
    : (p: PageFields)
    ensures p.pageTitle == "Certificate - " + OrElse(c.recipientName, DOWNLOAD_FALLBACK)
    ensures p.bodyFont == (if c.fontFamily == Some("serif") then "'Playfair Display', serif" else "'Inter', sans-serif")
    ensures Truthy(c.primaryColor) ==> p.primaryColor == c.primaryColor.value
    ensures !Truthy(c.primaryColor) ==> p.primaryColor == DEFAULT_PRIMARY
    ensures Truthy(c.secondaryColor) ==> p.secondaryColor == c.secondaryColor.value
    ensures !Truthy(c.secondaryColor) ==> p.secondaryColor == DEFAULT_SECONDARY
    ensures Truthy(c.title) ==> p.title == c.title.value
    ensures !Truthy(c.title) ==> p.title == DEFAULT_TITLE
    ensures Truthy(c.recipientName) ==> p.recipient == c.recipientName.value
    ensures !Truthy(c.recipientName) ==> p.recipient == DEFAULT_RECIPIENT
    ensures Truthy(c.description) ==> p.description == c.description.value
    ensures !Truthy(c.description) ==> p.description == DEFAULT_DESCRIPTION
    ensures Truthy(c.date) ==> p.date == c.date.value
    ensures !Truthy(c.date) ==> p.date == today
    ensures Truthy(c.signature) ==> p.signature == c.signature.value
    ensures !Truthy(c.signature) ==> p.signature == DEFAULT_SIGNATURE
    ensures p.logoUrl.Some? <==> Truthy(c.logoUrl)
    ensures p.logoUrl.Some? ==> p.logoUrl == c.logoUrl
    ensures Truthy(qrCodeDataUrl) ==> p.qrImage == qrCodeDataUrl.value
    ensures !Truthy(qrCodeDataUrl) ==> p.qrImage == QR_PLACEHOLDER
    ensures p.idLabel == IdLabel(certificateId)
  {
    PageFields(
      "Certificate - " + OrElse(c.recipientName, DOWNLOAD_FALLBACK),
      if c.fontFamily == Some("serif") then "'Playfair Display', serif" else "'Inter', sans-serif",
      OrElse(c.primaryColor, DEFAULT_PRIMARY), OrElse(c.secondaryColor, DEFAULT_SECONDARY),
      OrElse(c.title, DEFAULT_TITLE), OrElse(c.recipientName, DEFAULT_RECIPIENT),
      OrElse(c.description, DEFAULT_DESCRIPTION), OrElse(c.date, today),
      OrElse(c.signature, DEFAULT_SIGNATURE),
      if Truthy(c.logoUrl) then c.logoUrl else None,
      OrElse(qrCodeDataUrl, QR_PLACEHOLDER),
      IdLabel(certificateId))
  }

  /** A 36-character identifier in the canonical text form of RFC 4122. */
  predicate IsUuidText(id: string) {
    |id| == 36 && forall k :: 0 <= k < |id| ==> IsHexDigit(id[k]) || id[k] == '-'
  }

  /** For a minted identifier the label is 'ID: ' and its first eight characters. */
  lemma IdLabelOfUuid(id: string)
    requires IsUuidText(id)
    ensures IdLabel(Some(id)) == Some(ID_PREFIX + id[..8])
  {
    FirstUnitsOfBmp(id, 8);
  }

  /** The options the download hands to the PDF conversion: A4 landscape
      with backgrounds, 8mm margins, the page size of the CSS, no header or
      footer. */
  function DownloadPdfOptions(): (m: map<string, Json>)
    ensures m.Keys == {"format", "landscape", "printBackground", "margin", "preferCSSPageSize", "displayHeaderFooter"}
  {
    map["format" := JString("A4"), "landscape" := JBool(true), "printBackground" := JBool(true),
        "margin" := JObject(map["top" := JString("8mm"), "right" := JString("8mm"),
                                "bottom" := JString("8mm"), "left" := JString("8mm")]),
        "preferCSSPageSize" := JBool(true), "displayHeaderFooter" := JBool(false)]
  }

  /** Every option the download gives overrides the conversion's default,
      so its 8mm margins replace the 10mm ones. */
  lemma DownloadOptionsWin()
    ensures PdfGenerator.MergePdfOptions(Some(DownloadPdfOptions())) == DownloadPdfOptions()
  {
    var m := PdfGenerator.MergePdfOptions(Some(DownloadPdfOptions()));
    assert m.Keys == DownloadPdfOptions().Keys;
  }

  datatype DownloadReply =
    | PdfDownload(filename: string, pdf: Bytes, contentLength: nat)
    | DownloadError(status: int, error: string, message: string)

  const DOWNLOAD_FAILED: string := "PDF generation failed"
  /** The TypeError of reading the recipient of an absent body, which the
      route does only after the PDF is rendered. */
  const NO_CONFIG_RECIPIENT: string := "Cannot read properties of undefined (reading 'recipientName')"

  /** The fields `{...config}` spreads: those of the body, or none at all
      when the request has no body. */
  function SpreadConfig(body: Option<BuilderConfig>): (c: BuilderConfig)
    ensures body.Some? ==> c == body.value
    ensures body.None? ==> !Truthy(c.recipientName) && !Truthy(c.title) && !c.showLogo && !c.showBadge
  {
    match body
    case Some(c) => c
    case None => BuilderConfig(None, None, None, None, None, None, None, None, None, None, None, None,
                               false, None, None, None, None, None, false, None, None)
  }

  /** The download route. `certificateId` is the freshly minted id the QR
      code links to; `encodeDataUrl` is the QR encoder, `launched` and
      `render` the browser, `today` the server date. Without a body the page
      is rendered from defaults and the route then fails on naming the file. */
  function DownloadCertificate(body: Option<BuilderConfig>, certificateId: string, domain: string,
                               encodeDataUrl: string -> Option<string>, launched: bool,
                               render: (PageFields, map<string, Json>) -> Option<Bytes>, today: string)
    : (r: DownloadReply)
    ensures var qr := QrCode.GenerateQRCodeDataURL(domain, certificateId, encodeDataUrl);
      && (qr.Failure? ==> r == DownloadError(500, DOWNLOAD_FAILED, QrCode.QR_DATA_URL_FAILED))
      && (qr.Success? ==>
           var page := PageOf(SpreadConfig(body), Some(certificateId), Some(qr.value), today);
           var pdf := render(page, DownloadPdfOptions());
           && (r.PdfDownload? <==> body.Some? && launched && pdf.Some?)
           && (r.PdfDownload? ==>
                 r == PdfDownload(DownloadFilename(body.value.recipientName, body.value.title), pdf.value, |pdf.value|))
           && (!(launched && pdf.Some?) ==> r == DownloadError(500, DOWNLOAD_FAILED, PdfGenerator.PDF_FROM_HTML_FAILED))
           && (body.None? && launched && pdf.Some? ==> r == DownloadError(500, DOWNLOAD_FAILED, NO_CONFIG_RECIPIENT)))
  {
    match QrCode.GenerateQRCodeDataURL(domain, certificateId, encodeDataUrl)
    case Failure(e) => DownloadError(500, DOWNLOAD_FAILED, e)
    case Success(qr) =>
      var page := PageOf(SpreadConfig(body), Some(certificateId), Some(qr), today);
      DownloadOptionsWin();
      var options := PdfGenerator.MergePdfOptions(Some(DownloadPdfOptions()));
      var session := PdfGenerator.RunSession(launched, if launched then render(page, options) else None,
                                             PdfGenerator.PDF_FROM_HTML_FAILED);
      match session.result
      case Failure(e) => DownloadError(500, DOWNLOAD_FAILED, e)
      case Success(pdf) =>
        match body
        case None => DownloadError(500, DOWNLOAD_FAILED, NO_CONFIG_RECIPIENT)
        case Some(c) => PdfDownload(DownloadFilename(c.recipientName, c.title), pdf, |pdf|)
  }

  /** A successful download's page carries the QR code of the minted id and
      a label naming the same id. */
  lemma DownloadShowsMintedId(c: BuilderConfig, certificateId: string, domain: string,
                              encodeDataUrl: string -> Option<string>, today: string)
    requires IsUuidText(certificateId)
    requires Truthy(encodeDataUrl(QrCode.VerificationUrl(domain, certificateId)))
    ensures var qr := QrCode.GenerateQRCodeDataURL(domain, certificateId, encodeDataUrl);
      var page := PageOf(c, Some(certificateId), Some(qr.value), today);
      && page.qrImage == encodeDataUrl(QrCode.VerificationUrl(domain, certificateId)).value
      && page.idLabel == Some(ID_PREFIX + certificateId[..8])
  {
    IdLabelOfUuid(certificateId);
  }

  // ---------------------------------------------------------------------
  // Logo upload

  datatype UploadReply =
    | LogoUploaded(logoImage: string)
    | UploadError(status: int, error: string)

  /** The upload-logo route: the file becomes a data URL of its MIME type
      and its Base64 text; `base64` is the encoder. */
  function UploadLogo(file: Option<(string, Bytes)>, base64: Bytes -> string): (r: UploadReply)
    ensures r.UploadError? <==> file.None?
    ensures r.UploadError? ==> r == UploadError(400, "No file uploaded")
    ensures r.LogoUploaded? ==>
      && StartsWith(r.logoImage, "data:" + file.value.0 + ";base64,")
      && r.logoImage[|"data:" + file.value.0 + ";base64,"|..] == base64(file.value.1)
  {
    match file
    case None => UploadError(400, "No file uploaded")
    case Some((mime, data)) => LogoUploaded("data:" + mime + ";base64," + base64(data))
  }
}
