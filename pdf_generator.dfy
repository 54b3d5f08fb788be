/** The guard, merge and fan-out logic of src/utils/pdfGenerator.ts. The
    headless browser is a pair of parameters: whether it launched, and a
    conversion that returns PDF bytes or fails. */
module PdfGenerator {
  import opened Wrappers
  import opened Bytes
  import opened JsValues

  const PDF_FROM_IMAGE_FAILED: string := "Failed to generate PDF from image"
  const PDF_FROM_HTML_FAILED: string := "Failed to generate PDF from HTML"

  /** Conversions run at the same time, at most this many. */
  const BATCH_SIZE: nat := 5

  /** The file header `%PDF` (section 7.5.2 of ISO 32000-1). */
  const PDF_HEADER: Bytes := [0x25, 0x50, 0x44, 0x46]

  // ---------------------------------------------------------------------
  // validatePDFBuffer and optimizePDF

  /** `buf.subarray(start, end)`: the bytes in range, clipped to the buffer. */
  function Subarray(buf: Bytes, start: nat, end: nat): (r: Bytes)
    ensures |r| <= |buf|
    ensures end <= |buf| && start <= end ==> r == buf[start..end]
  {
    var e := if end <= |buf| then end else |buf|;
    if start <= e then buf[start..e] else []
  }

  /** A buffer is a PDF when its first four bytes are `%PDF`; a shorter
      buffer never is. */
  function ValidatePdfBuffer(buf: Bytes): (b: bool)
    ensures b <==> |buf| >= 4 && buf[0] == 0x25 && buf[1] == 0x50 && buf[2] == 0x44 && buf[3] == 0x46
  {
    Subarray(buf, 0, 4) == PDF_HEADER
  }

  /** `optimizePDF` hands back the buffer it was given. */
  function OptimizePdf(pdf: Bytes): (r: Bytes)
  {
    pdf
  }

  /** Optimising changes neither the bytes nor whether they pass the header check. */
  lemma OptimizeKeepsPdf(pdf: Bytes)
    ensures OptimizePdf(pdf) == pdf
    ensures ValidatePdfBuffer(OptimizePdf(pdf)) == ValidatePdfBuffer(pdf)
  {
  }

  // ---------------------------------------------------------------------
  // Options and one browser session

  /** The defaults of `generatePDFFromHTML`: A4, landscape, backgrounds
      printed, 10mm margins. */
  function DefaultPdfOptions(): (m: map<string, Json>)
    ensures m.Keys == {"format", "landscape", "printBackground", "margin"}
  {
    map["format" := JString("A4"), "landscape" := JBool(true), "printBackground" := JBool(true),
        "margin" := JObject(map["top" := JString("10mm"), "right" := JString("10mm"),
                                "bottom" := JString("10mm"), "left" := JString("10mm")])]
  }

  /** `{ ...defaultOptions, ...options }`: every key the caller gives wins,
      even one given as `undefined`; the others keep their default. */
  function MergePdfOptions(options: Option<map<string, Json>>): (m: map<string, Json>)
    ensures options.None? ==> m == DefaultPdfOptions()
    ensures options.Some? ==> m.Keys == DefaultPdfOptions().Keys + options.value.Keys
    ensures options.Some? ==> forall k :: k in options.value ==> m[k] == options.value[k]
    ensures forall k :: k in DefaultPdfOptions() && (options.None? || k !in options.value) ==>
      m[k] == DefaultPdfOptions()[k]
  {
    match options
    case None => DefaultPdfOptions()
    case Some(o) => DefaultPdfOptions() + o
  }

  /** What one browser session produced, and whether it closed the browser. */
  datatype Session = Session(result: Result<Bytes>, closed: bool)

  /** `generatePDFFromImage` / `generatePDFFromHTML`: the conversion error is
      replaced by the method's fixed message, and the `finally` block closes
      the browser exactly when it was launched. */
  function RunSession(launched: bool, convert: Option<Bytes>, failure: string): (s: Session)
    ensures s.closed <==> launched
    ensures s.result.Success? <==> launched && convert.Some?
    ensures s.result.Success? ==> s.result.value == convert.value
    ensures s.result.Failure? ==> s.result.error == failure
  {
    if !launched then Session(Failure(failure), false)
    else match convert
      case Some(pdf) => Session(Success(pdf), true)
      case None => Session(Failure(failure), true)
  }

  function GeneratePdfFromImage(image: Bytes, participantName: string, launched: bool,
                                render: (Bytes, string) -> Option<Bytes>): (s: Session)
    ensures s == RunSession(launched, render(image, participantName), PDF_FROM_IMAGE_FAILED)
  {
    RunSession(launched, if launched then render(image, participantName) else None, PDF_FROM_IMAGE_FAILED)
  }

  function GeneratePdfFromHtml(html: string, options: Option<map<string, Json>>, launched: bool,
                               render: (string, map<string, Json>) -> Option<Bytes>): (s: Session)
    ensures s == RunSession(launched, render(html, MergePdfOptions(options)), PDF_FROM_HTML_FAILED)
  {
    RunSession(launched, if launched then render(html, MergePdfOptions(options)) else None,
               PDF_FROM_HTML_FAILED)
  }

  // ---------------------------------------------------------------------
  // generateMultiplePDFs

  datatype ImageItem = ImageItem(participantName: string, image: Bytes)
  datatype PdfItem = PdfItem(participantName: string, pdf: Bytes)

  /** Converting every item in order; the whole call fails when one
      conversion does. `convert` is one `generatePDFFromImage` call. */
  function ConvertAll(items: seq<ImageItem>, convert: ImageItem -> Result<Bytes>): (r: Result<seq<PdfItem>>)
    ensures r.Success? ==> |r.value| == |items|
    ensures r.Failure? ==> r.error == PDF_FROM_IMAGE_FAILED
  {
    if items == [] then Success([])
    else
      match ConvertAll(items[..|items| - 1], convert)
      case Failure(e) => Failure(e)
      case Success(done) =>
        match convert(items[|items| - 1])
        case Failure(_) => Failure(PDF_FROM_IMAGE_FAILED)
        case Success(pdf) => Success(done + [PdfItem(items[|items| - 1].participantName, pdf)])
  }

  /** Success means every conversion succeeded, and result `i` pairs item
      `i`'s participant with item `i`'s PDF. */
  lemma {:induction false} ConvertAllFacts(items: seq<ImageItem>, convert: ImageItem -> Result<Bytes>)
    ensures ConvertAll(items, convert).Success? <==>
      forall i :: 0 <= i < |items| ==> convert(items[i]).Success?
    ensures ConvertAll(items, convert).Success? ==> forall i :: 0 <= i < |items| ==>
      ConvertAll(items, convert).value[i] == PdfItem(items[i].participantName, convert(items[i]).value)
  {
    if items != [] {
      var init := items[..|items| - 1];
      ConvertAllFacts(init, convert);
      assert forall i :: 0 <= i < |init| ==> init[i] == items[i];
    }
  }

  /** The index ranges `[start, end)` the loop slices, from `start` on. */
  function ChunkBounds(n: nat, start: nat): (c: seq<(nat, nat)>)
    decreases n - start
  {
    if start >= n then []
    else [(start, if start + BATCH_SIZE <= n then start + BATCH_SIZE else n)]
         + ChunkBounds(n, start + BATCH_SIZE)
  }

  /** The slices begin at `start`, `start + 5`, …, each ends where the next starts, the
      last ends at `n`, and only the last can hold fewer than five items. */
  lemma {:induction false} ChunkBoundsPartition(n: nat, start: nat)
    requires start < n
    ensures var c := ChunkBounds(n, start);
      && |c| > 0 && c[0].0 == start && c[|c| - 1].1 == n
      && (forall k :: 0 <= k < |c| ==> c[k].0 == start + BATCH_SIZE * k && c[k].0 < c[k].1)
      && (forall k :: 0 <= k < |c| - 1 ==> c[k].1 == c[k + 1].0 && c[k].1 - c[k].0 == BATCH_SIZE)
    decreases n - start
  {
    var c := ChunkBounds(n, start);
    if start + BATCH_SIZE < n {
      ChunkBoundsPartition(n, start + BATCH_SIZE);
      var rest := ChunkBounds(n, start + BATCH_SIZE);
      assert c == [(start, start + BATCH_SIZE)] + rest;
      assert forall k :: 1 <= k < |c| ==> c[k] == rest[k - 1];
    } else {
      assert ChunkBounds(n, start + BATCH_SIZE) == [];
    }
  }

  /** `generateMultiplePDFs`: slices of five, each converted element by
      element. `chunks` records the slices the loop took. */
  method GenerateMultiplePdfs(items: seq<ImageItem>, convert: ImageItem -> Result<Bytes>)
    returns (r: Result<seq<PdfItem>>, ghost chunks: seq<(nat, nat)>)
    ensures r == ConvertAll(items, convert)
    ensures r.Success? ==> chunks == ChunkBounds(|items|, 0)
  {
    var results: seq<PdfItem> := [];
    chunks := [];
    var i: nat := 0;
    while i < |items|
      invariant i <= |items| ==> ConvertAll(items[..i], convert) == Success(results)
      invariant i > |items| ==> ConvertAll(items, convert) == Success(results)
      invariant chunks + ChunkBounds(|items|, i) == ChunkBounds(|items|, 0)
      decreases |items| - i
    {
      var end := if i + BATCH_SIZE <= |items| then i + BATCH_SIZE else |items|;
      ghost var rest := ChunkBounds(|items|, i + BATCH_SIZE);
      ChunkStep(|items|, i);
      assert chunks + ([(i, end)] + rest) == (chunks + [(i, end)]) + rest;
      chunks := chunks + [(i, end)];
      var ok;
      ok, results := ConvertChunk(items, i, end, results, convert);
      if !ok {
        r := Failure(PDF_FROM_IMAGE_FAILED);
        return;
      }
      if end == |items| {
        assert items[..end] == items;
      }
      i := i + BATCH_SIZE;
    }
    if i == |items| {
      assert items[..i] == items;
    }
    r := Success(results);
  }

  /** The slice the loop takes at `start`, then the rest. */
  lemma ChunkStep(n: nat, start: nat)
    requires start < n
    ensures ChunkBounds(n, start) ==
      [(start, if start + BATCH_SIZE <= n then start + BATCH_SIZE else n)] + ChunkBounds(n, start + BATCH_SIZE)
  {
  }

  /** The inner loop of `generateMultiplePDFs`: converting the items of one
      slice `[start, end)` after those before it converted to `done`. */
  method ConvertChunk(items: seq<ImageItem>, start: nat, end: nat, done: seq<PdfItem>,
                      convert: ImageItem -> Result<Bytes>)
    returns (ok: bool, results: seq<PdfItem>)
    requires start <= end <= |items|
    requires ConvertAll(items[..start], convert) == Success(done)
    ensures ok ==> ConvertAll(items[..end], convert) == Success(results)
    ensures !ok ==> ConvertAll(items, convert).Failure?
  {
    results := done;
    var j := start;
    while j < end
      invariant start <= j <= end
      invariant ConvertAll(items[..j], convert) == Success(results)
    {
      assert items[..j + 1][..j] == items[..j];
      var pdf := convert(items[j]);
      if pdf.Failure? {
        FailureSpreads(items, j + 1, convert);
        return false, results;
      }
      results := results + [PdfItem(items[j].participantName, pdf.value)];
      j := j + 1;
    }
    ok := true;
  }

  /** A failure among the first `k` items fails the whole call. */
  lemma {:induction false} FailureSpreads(items: seq<ImageItem>, k: nat, convert: ImageItem -> Result<Bytes>)
    requires k <= |items| && ConvertAll(items[..k], convert).Failure?
    ensures ConvertAll(items, convert).Failure?
    decreases |items| - k
  {
    if k < |items| {
      assert items[..k + 1][..k] == items[..k];
      FailureSpreads(items, k + 1, convert);
    } else {
      assert items[..k] == items;
    }
  }
}
