/** The layout, escaping and guard logic of src/utils/imageProcessor.ts.
    Image decoding, resizing and compositing (sharp) are function parameters
    that return bytes or fail; the model computes what is handed to them. */
module ImageProcessor {
  import opened Wrappers
  import opened Bytes
  import opened Strings
  import opened Store
  import opened QrCode
  import opened TemplateService

  const IMAGE_FAILED: string := "Failed to generate certificate image"
  const DIMENSIONS_UNKNOWN: string := "Could not determine image dimensions"
  const READ_ERROR_PREFIX: string := "Error reading image: "

  const DEFAULT_WIDTH: int := 1024
  const DEFAULT_HEIGHT: int := 768
  const QR_SIZE: int := 120
  const QR_MARGIN: int := 30
  const LOGO_BOX_WIDTH: int := 150
  const LOGO_BOX_HEIGHT: int := 100
  const LOGO_TOP: int := 30
  const EVENT_LINE_OFFSET: int := -80
  const ORGANIZATION_LINE_OFFSET: int := 60
  const MIN_WIDTH: int := 800
  const MIN_HEIGHT: int := 600

  // ---------------------------------------------------------------------
  // Text escaping (createTextSvg)

  /** `s.replace(/c/g, rep)`. */
  function ReplaceChar(s: string, c: char, rep: string): (r: string)
  {
    if s == [] then [] else (if s[0] == c then rep else [s[0]]) + ReplaceChar(s[1..], c, rep)
  }

  lemma {:induction false} ReplaceCharAppend(a: string, b: string, c: char, rep: string)
    ensures ReplaceChar(a + b, c, rep) == ReplaceChar(a, c, rep) + ReplaceChar(b, c, rep)
  {
    if a == [] {
      assert a + b == b;
    } else {
      assert (a + b)[0] == a[0];
      assert (a + b)[1..] == a[1..] + b;
      ReplaceCharAppend(a[1..], b, c, rep);
    }
  }

  /** The five replacements of `createTextSvg`, '&' first. */
  function EscapeText(s: string): (r: string)
  {
    ReplaceChar(ReplaceChar(ReplaceChar(ReplaceChar(ReplaceChar(
      s, '&', "&amp;"), '<', "&lt;"), '>', "&gt;"), '"', "&quot;"), '\'', "&#39;")
  }

  /** The entity one character becomes. */
  function EscapeChar(c: char): (r: string)
  {
    match c
    case '&' => "&amp;"
    case '<' => "&lt;"
    case '>' => "&gt;"
    case '"' => "&quot;"
    case '\'' => "&#39;"
    case _ => [c]
  }

  /** Escaping in a single pass, character by character. */
  function EscapeEach(s: string): (r: string)
  {
    if s == [] then [] else EscapeChar(s[0]) + EscapeEach(s[1..])
  }

  lemma EscapeTextAppend(a: string, b: string)
    ensures EscapeText(a + b) == EscapeText(a) + EscapeText(b)
  {
    var a1, b1 := ReplaceChar(a, '&', "&amp;"), ReplaceChar(b, '&', "&amp;");
    ReplaceCharAppend(a, b, '&', "&amp;");
    var a2, b2 := ReplaceChar(a1, '<', "&lt;"), ReplaceChar(b1, '<', "&lt;");
    ReplaceCharAppend(a1, b1, '<', "&lt;");
    var a3, b3 := ReplaceChar(a2, '>', "&gt;"), ReplaceChar(b2, '>', "&gt;");
    ReplaceCharAppend(a2, b2, '>', "&gt;");
    var a4, b4 := ReplaceChar(a3, '"', "&quot;"), ReplaceChar(b3, '"', "&quot;");
    ReplaceCharAppend(a3, b3, '"', "&quot;");
    ReplaceCharAppend(a4, b4, '\'', "&#39;");
  }

  lemma {:induction false} ReplaceAbsent(s: string, c: char, rep: string)
    requires forall k :: 0 <= k < |s| ==> s[k] != c
    ensures ReplaceChar(s, c, rep) == s
  {
    if s != [] {
      ReplaceAbsent(s[1..], c, rep);
    }
  }

  lemma ReplaceOne(c: char, rep: string)
    ensures ReplaceChar([c], c, rep) == rep
  {
    assert [c][1..] == [];
  }

  lemma EscapeAmpersand()
    ensures EscapeText("&") == "&amp;"
  {
    var amp := ReplaceChar("&", '&', "&amp;");
    ReplaceOne('&', "&amp;");
    assert forall k :: 0 <= k < |amp| ==> !IsMarkup(amp[k]);
    LaterReplacementsKeep(amp);
  }

  /** Text with no markup character passes the last four replacements
      unchanged. */
  lemma LaterReplacementsKeep(s: string)
    requires forall k :: 0 <= k < |s| ==> !IsMarkup(s[k])
    ensures ReplaceChar(ReplaceChar(ReplaceChar(ReplaceChar(s, '<', "&lt;"), '>', "&gt;"), '"', "&quot;"), '\'', "&#39;") == s
  {
    ReplaceAbsent(s, '<', "&lt;");
    ReplaceAbsent(s, '>', "&gt;");
    ReplaceAbsent(s, '"', "&quot;");
    ReplaceAbsent(s, '\'', "&#39;");
  }

  lemma EscapeLess()
    ensures EscapeText("<") == "&lt;"
  {
    ReplaceAbsent("<", '&', "&amp;");
    var lt := ReplaceChar("<", '<', "&lt;");
    ReplaceOne('<', "&lt;");
    assert forall k :: 0 <= k < |lt| ==> lt[k] != '>' && lt[k] != '"' && lt[k] != '\'';
    LastReplacementsKeep(lt);
  }

  /** Text with no '>', '"' or '\'' passes the last three replacements
      unchanged. */
  lemma LastReplacementsKeep(s: string)
    requires forall k :: 0 <= k < |s| ==> s[k] != '>' && s[k] != '"' && s[k] != '\''
    ensures ReplaceChar(ReplaceChar(ReplaceChar(s, '>', "&gt;"), '"', "&quot;"), '\'', "&#39;") == s
  {
    ReplaceAbsent(s, '>', "&gt;");
    ReplaceAbsent(s, '"', "&quot;");
    ReplaceAbsent(s, '\'', "&#39;");
  }

  lemma EscapeGreater()
    ensures EscapeText(">") == "&gt;"
  {
    ReplaceAbsent(">", '&', "&amp;");
    ReplaceAbsent(">", '<', "&lt;");
    var gt := ReplaceChar(">", '>', "&gt;");
    ReplaceOne('>', "&gt;");
    assert forall k :: 0 <= k < |gt| ==> gt[k] != '"' && gt[k] != '\'';
    ReplaceAbsent(gt, '"', "&quot;");
    ReplaceAbsent(gt, '\'', "&#39;");
  }

  lemma EscapeQuote()
    ensures EscapeText("\"") == "&quot;"
  {
    ReplaceAbsent("\"", '&', "&amp;");
    ReplaceAbsent("\"", '<', "&lt;");
    ReplaceAbsent("\"", '>', "&gt;");
    ReplaceOne('"', "&quot;");
    ReplaceAbsent("&quot;", '\'', "&#39;");
  }

  lemma EscapeApostrophe()
    ensures EscapeText("'") == "&#39;"
  {
    ReplaceAbsent("'", '&', "&amp;");
    ReplaceAbsent("'", '<', "&lt;");
    ReplaceAbsent("'", '>', "&gt;");
    ReplaceAbsent("'", '"', "&quot;");
    ReplaceOne('\'', "&#39;");
  }

  lemma EscapePlain(c: char)
    requires c != '&' && c != '<' && c != '>' && c != '"' && c != '\''
    ensures EscapeText([c]) == [c]
  {
    ReplaceAbsent([c], '&', "&amp;");
    ReplaceAbsent([c], '<', "&lt;");
    ReplaceAbsent([c], '>', "&gt;");
    ReplaceAbsent([c], '"', "&quot;");
    ReplaceAbsent([c], '\'', "&#39;");
  }

  lemma EscapeTextOfChar(c: char)
    ensures EscapeText([c]) == EscapeChar(c)
  {
    if c == '&' { EscapeAmpersand(); }
    else if c == '<' { EscapeLess(); }
    else if c == '>' { EscapeGreater(); }
    else if c == '"' { EscapeQuote(); }
    else if c == '\'' { EscapeApostrophe(); }
    else { EscapePlain(c); }
  }

  /** Because '&' is replaced first, no entity a later replacement writes is
      escaped again: the chain equals a single per-character pass. */
  lemma {:induction false} EscapeTextIsPerCharacter(s: string)
    ensures EscapeText(s) == EscapeEach(s)
  {
    if s == [] {
    } else {
      assert s == [s[0]] + s[1..];
      EscapeTextAppend([s[0]], s[1..]);
      EscapeTextOfChar(s[0]);
      EscapeTextIsPerCharacter(s[1..]);
    }
  }

  predicate IsMarkup(c: char) { c == '<' || c == '>' || c == '"' || c == '\'' }

  /** Escaped text holds no raw '<', '>', '"' or '\''. */
  lemma {:induction false} EscapeEachHasNoMarkup(s: string)
    ensures forall k :: 0 <= k < |EscapeEach(s)| ==> !IsMarkup(EscapeEach(s)[k])
  {
    if s != [] {
      EscapeEachHasNoMarkup(s[1..]);
    }
  }

  lemma EscapeTextHasNoMarkup(s: string)
    ensures forall k :: 0 <= k < |EscapeText(s)| ==> !IsMarkup(EscapeText(s)[k])
  {
    EscapeTextIsPerCharacter(s);
    EscapeEachHasNoMarkup(s);
  }

  /** Decoding of the five entities; any other character stands for itself. */
  function Unescape(s: string): (r: string)
  {
    if s == [] then []
    else if StartsWith(s, "&amp;") then "&" + Unescape(s[5..])
    else if StartsWith(s, "&lt;") then "<" + Unescape(s[4..])
    else if StartsWith(s, "&gt;") then ">" + Unescape(s[4..])
    else if StartsWith(s, "&quot;") then "\"" + Unescape(s[6..])
    else if StartsWith(s, "&#39;") then "'" + Unescape(s[5..])
    else [s[0]] + Unescape(s[1..])
  }

  lemma UnescapeEntity(x: string, c: char, rest: string)
    requires x in ["&amp;", "&lt;", "&gt;", "&quot;", "&#39;"] && x == EscapeChar(c)
    ensures Unescape(x + rest) == [c] + Unescape(rest)
  {
    var e := x + rest;
    assert e[..|x|] == x;
    assert e[|x|..] == rest;
    assert e[1] == x[1];
    if x == "&lt;" {
      SecondCharDiffers(e, "&amp;");
    } else if x == "&gt;" {
      SecondCharDiffers(e, "&amp;");
      SecondCharDiffers(e, "&lt;");
    } else if x == "&quot;" {
      SecondCharDiffers(e, "&amp;");
      SecondCharDiffers(e, "&lt;");
      SecondCharDiffers(e, "&gt;");
    } else if x == "&#39;" {
      SecondCharDiffers(e, "&amp;");
      SecondCharDiffers(e, "&lt;");
      SecondCharDiffers(e, "&gt;");
      SecondCharDiffers(e, "&quot;");
    }
  }

  lemma SecondCharDiffers(s: string, prefix: string)
    requires |s| >= 2 && |prefix| >= 2 && s[1] != prefix[1]
    ensures !StartsWith(s, prefix)
  {
    if |prefix| <= |s| {
      assert s[..|prefix|][1] == s[1];
    }
  }

  lemma UnescapePlain(c: char, rest: string)
    requires c != '&'
    ensures Unescape([c] + rest) == [c] + Unescape(rest)
  {
    var e := [c] + rest;
    assert e[0] == c;
    assert e[1..] == rest;
    FirstCharDiffers(e, "&amp;");
    FirstCharDiffers(e, "&lt;");
    FirstCharDiffers(e, "&gt;");
    FirstCharDiffers(e, "&quot;");
    FirstCharDiffers(e, "&#39;");
  }

  lemma FirstCharDiffers(s: string, prefix: string)
    requires s != [] && prefix != [] && s[0] != prefix[0]
    ensures !StartsWith(s, prefix)
  {
    if |prefix| <= |s| {
      assert s[..|prefix|][0] == s[0];
    }
  }

  lemma UnescapeStep(c: char, rest: string)
    ensures Unescape(EscapeChar(c) + rest) == [c] + Unescape(rest)
  {
    if c == '&' || c == '<' || c == '>' || c == '"' || c == '\'' {
      UnescapeEntity(EscapeChar(c), c, rest);
    } else {
      UnescapePlain(c, rest);
    }
  }

  /** Unescaping gives back the original text. */
  lemma {:induction false} EscapeRoundTrip(s: string)
    ensures Unescape(EscapeText(s)) == s
  {
    EscapeTextIsPerCharacter(s);
    EscapeEachRoundTrip(s);
  }

  lemma {:induction false} EscapeEachRoundTrip(s: string)
    ensures Unescape(EscapeEach(s)) == s
  {
    if s != [] {
      UnescapeStep(s[0], EscapeEach(s[1..]));
      EscapeEachRoundTrip(s[1..]);
    }
  }

  // ---------------------------------------------------------------------
  // Layout

  /** `Math.round(x)`: the nearest integer, halves rounded up. */
  function RoundHalfUp(x: real): (n: int)
    ensures n as real - 0.5 <= x < n as real + 0.5
  {
    (x + 0.5).Floor
  }

  /** `Math.round(n * 0.6)` in integers. */
  function RoundSixTenths(n: int): (r: int)
    ensures r == RoundHalfUp(n as real * 0.6)
  {
    (6 * n + 5) / 10
  }

  /** `Math.round(n * 0.5)` in integers. */
  function RoundHalf(n: int): (r: int)
    ensures r == RoundHalfUp(n as real * 0.5)
  {
    (n + 1) / 2
  }

  /** A text element of the overlay: its escaped text, anchor point and style.
      The surrounding SVG markup is not modelled. */
  datatype TextSvg = TextSvg(text: string, x: int, y: int, fontSize: int, color: string, fontFamily: string)

  function CreateTextSvg(text: string, x: int, y: int, fontSize: int, color: string, fontFamily: string)
    : (r: TextSvg)
    ensures Unescape(r.text) == text
    ensures forall k :: 0 <= k < |r.text| ==> !IsMarkup(r.text[k])
  {
    EscapeRoundTrip(text);
    EscapeTextHasNoMarkup(text);
    TextSvg(EscapeText(text), x, y, fontSize, color, fontFamily)
  }

  /** One composite layer: an SVG text or an image at an offset. */
  datatype Overlay = TextLayer(svg: TextSvg) | ImageLayer(image: Bytes, top: int, left: int)

  /** `metadata.width || 1024`: a missing or zero width falls back. */
  function OrDefault(dim: Option<int>, fallback: int): (r: int)
    ensures dim.Some? && dim.value != 0 ==> r == dim.value
    ensures dim.None? || dim.value == 0 ==> r == fallback
  {
    if dim.Some? && dim.value != 0 then dim.value else fallback
  }

  /** The composite list for an image of the given size: event line, name,
      organisation line, the QR code, and the logo when one was loaded. */
  function Layout(participantName: string, eventName: string, organizationName: string,
                  t: Template, width: int, height: int, qr: Bytes, logo: Option<Bytes>)
    : (r: seq<Overlay>)
  {
    [ TextLayer(CreateTextSvg("Certificate of Completion for " + eventName, t.textX,
                              t.textY + EVENT_LINE_OFFSET, RoundSixTenths(t.fontSize),
                              t.fontColor, t.fontFamily)),
      TextLayer(CreateTextSvg(participantName, t.textX, t.textY, t.fontSize, t.fontColor, t.fontFamily)),
      TextLayer(CreateTextSvg("Issued by " + organizationName, t.textX,
                              t.textY + ORGANIZATION_LINE_OFFSET, RoundHalf(t.fontSize),
                              t.fontColor, t.fontFamily)),
      ImageLayer(qr, height - QR_SIZE - QR_MARGIN, width - QR_SIZE - QR_MARGIN) ]
    + (if logo.Some? then [ImageLayer(logo.value, LOGO_TOP, (width - LOGO_BOX_WIDTH + 1) / 2)] else [])
  }

  /** The placement the layout promises. */
  lemma LayoutPlacement(participantName: string, eventName: string, organizationName: string,
                        t: Template, width: int, height: int, qr: Bytes, logo: Option<Bytes>)
    ensures var r := Layout(participantName, eventName, organizationName, t, width, height, qr, logo);
      && |r| == (if logo.Some? then 5 else 4)
      && Unescape(r[1].svg.text) == participantName
      && r[1].svg.x == t.textX && r[1].svg.y == t.textY && r[1].svg.fontSize == t.fontSize
      && Unescape(r[0].svg.text) == "Certificate of Completion for " + eventName
      && r[0].svg.y == t.textY - 80 && r[0].svg.fontSize == RoundHalfUp(t.fontSize as real * 0.6)
      && Unescape(r[2].svg.text) == "Issued by " + organizationName
      && r[2].svg.y == t.textY + 60 && r[2].svg.fontSize == RoundHalfUp(t.fontSize as real * 0.5)
      && r[3] == ImageLayer(qr, height - 150, width - 150)
      && (logo.Some? ==> r[4] == ImageLayer(logo.value, 30, RoundHalfUp((width - 150) as real / 2.0)))
  {
  }

  /** The image services the pipeline calls, each of which may fail: reading
      the dimensions of the base image, resizing the QR code to a square,
      fitting the logo inside 150×100 without enlarging it, and compositing. */
  datatype Imaging = Imaging(
    metadata: string -> Option<Metadata>,
    resizeSquare: (Bytes, int) -> Option<Bytes>,
    fitLogo: string -> Option<Bytes>,
    composite: (string, seq<Overlay>) -> Option<Bytes>)

  datatype Metadata = Metadata(width: Option<int>, height: Option<int>)

  /** `generateCertificateImage`: any failure except the logo's becomes the
      fixed image error; a logo that cannot be loaded is left out. */
  function GenerateCertificateImage(participantName: string, eventName: string, organizationName: string,
                                    certificateId: string, t: TemplateWithDefault, cwd: string,
                                    domain: string, encodePng: string -> Option<Bytes>, img: Imaging)
    : (r: Result<Bytes>)
    ensures r.Failure? ==> r.error == IMAGE_FAILED
    ensures r.Success? ==>
      && GetTemplateImagePath(t, cwd).Success?
      && GenerateQRCode(domain, certificateId, encodePng).Success?
  {
    match GetTemplateImagePath(t, cwd)
    case Failure(_) => Failure(IMAGE_FAILED)
    case Success(path) =>
      match img.metadata(path)
      case None => Failure(IMAGE_FAILED)
      case Some(meta) =>
        var width := OrDefault(meta.width, DEFAULT_WIDTH);
        var height := OrDefault(meta.height, DEFAULT_HEIGHT);
        match GenerateQRCode(domain, certificateId, encodePng)
        case Failure(_) => Failure(IMAGE_FAILED)
        case Success(qr) =>
          match img.resizeSquare(qr, QR_SIZE)
          case None => Failure(IMAGE_FAILED)
          case Some(small) =>
            var logo := if t.template.logoPath.Some? && t.template.logoPath.value != ""
                        then img.fitLogo(t.template.logoPath.value) else None;
            var layers := Layout(participantName, eventName, organizationName, t.template,
                                 width, height, small, logo);
            match img.composite(path, layers)
            case None => Failure(IMAGE_FAILED)
            case Some(png) => Success(png)
  }

  /** The QR code drawn on a certificate encodes that certificate's
      verification URL; the logo is drawn when it loads, and a logo that is
      absent or fails to load is left out without failing the image. */
  lemma CertificateImageFacts(participantName: string, eventName: string, organizationName: string,
                              certificateId: string, t: TemplateWithDefault, cwd: string,
                              domain: string, encodePng: string -> Option<Bytes>, img: Imaging,
                              path: string, meta: Metadata, small: Bytes)
    requires GetTemplateImagePath(t, cwd) == Success(path)
    requires img.metadata(path) == Some(meta)
    requires encodePng(VerificationUrl(domain, certificateId)).Some?
    requires img.resizeSquare(encodePng(VerificationUrl(domain, certificateId)).value, 120) == Some(small)
    ensures var logo := if t.template.logoPath.Some? && t.template.logoPath.value != ""
                        then img.fitLogo(t.template.logoPath.value) else None;
      var layers := Layout(participantName, eventName, organizationName, t.template,
                           OrDefault(meta.width, 1024), OrDefault(meta.height, 768), small, logo);
      GenerateCertificateImage(participantName, eventName, organizationName, certificateId, t, cwd,
                               domain, encodePng, img)
      == (if img.composite(path, layers).Some? then Success(img.composite(path, layers).value)
          else Failure(IMAGE_FAILED))
  {
  }

  // ---------------------------------------------------------------------
  // validateImageDimensions

  datatype DimensionCheck = DimensionCheck(valid: bool, message: Option<string>, metadata: Option<Metadata>)

  function TooSmallMessage(width: int, height: int, minWidth: int, minHeight: int): (m: string)
  {
    "Image dimensions " + IntToString(width) + "x" + IntToString(height)
    + " are too small. Minimum required: " + IntToString(minWidth) + "x" + IntToString(minHeight)
  }

  /** `validateImageDimensions`: `read` is the metadata or the text of the
      error reading it raised; callers that omit the minimum pass
      `MIN_WIDTH` and `MIN_HEIGHT`. */
  function ValidateImageDimensions(read: Result<Metadata>, minWidth: int, minHeight: int)
    : (r: DimensionCheck)
    ensures r.valid <==>
      && read.Success?
      && read.value.width.Some? && read.value.width.value != 0
      && read.value.height.Some? && read.value.height.value != 0
      && read.value.width.value >= minWidth && read.value.height.value >= minHeight
    ensures r.valid ==> r.message.None? && r.metadata == Some(read.value)
    ensures read.Failure? ==> r.message == Some(READ_ERROR_PREFIX + read.error)
    ensures read.Success? && (OrDefault(read.value.width, 0) == 0 || OrDefault(read.value.height, 0) == 0)
            ==> r.message == Some(DIMENSIONS_UNKNOWN) && r.metadata.None?
    ensures && read.Success?
            && read.value.width.Some? && read.value.width.value != 0
            && read.value.height.Some? && read.value.height.value != 0
            && (read.value.width.value < minWidth || read.value.height.value < minHeight)
            ==> && r.message == Some(TooSmallMessage(read.value.width.value, read.value.height.value, minWidth, minHeight))
                && r.metadata == Some(read.value)
  {
    match read
    case Failure(e) => DimensionCheck(false, Some(READ_ERROR_PREFIX + e), None)
    case Success(m) =>
      if m.width.None? || m.width.value == 0 || m.height.None? || m.height.value == 0 then
        DimensionCheck(false, Some(DIMENSIONS_UNKNOWN), None)
      else if m.width.value < minWidth || m.height.value < minHeight then
        DimensionCheck(false, Some(TooSmallMessage(m.width.value, m.height.value, minWidth, minHeight)), Some(m))
      else DimensionCheck(true, None, Some(m))
  }
}
