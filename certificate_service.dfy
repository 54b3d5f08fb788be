/** The batch pipeline of src/services/certificateService.ts: the quota
    gate, template resolution, one certificate record and one PDF per name,
    the zip, and the terminal batch state, plus the CSV wrapper, the
    download guard, regeneration and preview. The database is the in-memory
    `Database`; the identifiers it and `uuidv4` mint, the clock, and the
    image, PDF and zip libraries are parameters. */
module CertificateService {
  import opened Wrappers
  import opened Bytes
  import opened Constants
  import opened Strings
  import opened JsValues
  import opened Store
  import opened Auth
  import opened TemplateService
  import opened ImageProcessor
  import opened PdfGenerator
  import opened ZipCreator
  import opened CsvParser

  const LIMIT_EXCEEDED: string :=
    "Certificate limit exceeded. Free tier allows up to " + NatToString(FREE_TIER_LIMIT) + " certificates."
  const USER_NOT_FOUND: string := "User not found"
  const TEMPLATE_NOT_FOUND: string := "Template not found"
  const INVALID_CSV: string := "Invalid CSV format"
  const NO_PARTICIPANTS: string := "No valid participant names found in CSV file"
  const NO_TEMPLATE_FOR_REGENERATION: string := "No template found for regeneration"
  const DEFAULT_PREVIEW_NAME: string := "John Doe"
  const DEFAULT_PREVIEW_EVENT: string := "Sample Event"
  const PREVIEW_ID_PREFIX: string := "preview-"

  /** The font family a default template is drawn with when used directly. */
  const DEFAULT_AS_TEMPLATE_FONT: string := "Arial"

  /** The body of `POST /certificates/generate`. */
  datatype GenerateRequest = GenerateRequest(eventName: string, participantNames: seq<string>, templateId: string)

  /** `CertificateGenerationResult`. */
  datatype GenerationResult = GenerationResult(
    batchId: string, certificates: seq<Certificate>, zipFilePath: string, downloadUrl: string)

  /** The libraries a run calls: the QR encoder and the image services, whether
      the browser launched and what it prints, and the working directory and
      public domain they are configured with. */
  datatype Env = Env(
    cwd: string, domain: string, encodePng: string -> Option<Bytes>, img: Imaging,
    launched: bool, render: (Bytes, string) -> Option<Bytes>)

  // ---------------------------------------------------------------------
  // Template resolution

  /** A default template in the shape of a user template, as the generator
      and the preview build it. */
  function DefaultAsTemplate(d: DefaultTemplate, userId: string, now: int): TemplateWithDefault {
    TemplateWithDefault(
      Template(d.id, userId, DefaultType, Some(d.id), None, None, d.defaultPrimaryColor,
               d.defaultTextX, d.defaultTextY, d.defaultFontSize, d.defaultFontColor,
               DEFAULT_AS_TEMPLATE_FONT, now),
      Some(d))
  }

  /** The user template with that id first (of any owner), else the active
      default template with that id, converted. */
  function ResolveTemplate(db: Database, userId: string, templateId: string, now: int)
    : (r: Option<TemplateWithDefault>)
    reads db
    requires db.Valid()
    ensures HasKey(db.templates, TemplateKey, templateId) ==> r == GetTemplateById(db, templateId)
    ensures !HasKey(db.templates, TemplateKey, templateId) ==>
      (r.Some? <==> db.FindDefaultTemplateById(templateId).Some?)
    ensures !HasKey(db.templates, TemplateKey, templateId) && r.Some? ==>
      var d := db.FindDefaultTemplateById(templateId).value;
      && d.isActive && r.value.defaultTemplate == Some(d)
      && r.value.template.userId == userId && r.value.template.templateType == DefaultType
      && r.value.template.defaultTemplateId == Some(d.id)
      && r.value.template.customImagePath.None? && r.value.template.logoPath.None?
      && r.value.template.textX == d.defaultTextX && r.value.template.textY == d.defaultTextY
      && r.value.template.fontSize == d.defaultFontSize && r.value.template.fontColor == d.defaultFontColor
      && r.value.template.primaryColor == d.defaultPrimaryColor
      && r.value.template.fontFamily == "Arial"
  {
    match GetTemplateById(db, templateId)
    case Some(t) => Some(t)
    case None =>
      match db.FindDefaultTemplateById(templateId)
      case Some(d) => Some(DefaultAsTemplate(d, userId, now))
      case None => None
  }

  // ---------------------------------------------------------------------
  // The per-name loop

  /** What the loop works with: `certId(i)` is the id the store mints for the
      `i`-th certificate, `batchId` the locally minted batch id. */
  datatype Job = Job(
    userId: string, eventName: string, batchId: string, names: seq<string>, certId: nat -> string,
    organizationName: string, template: TemplateWithDefault, now: int)

  /** The record the loop creates for name `i`. */
  function CertificateFor(job: Job, i: nat): Certificate
    requires i < |job.names|
  {
    Certificate(job.certId(i), job.userId, job.names[i], job.eventName, job.batchId, true, job.now)
  }

  /** The image of one certificate, converted to a PDF. */
  function RenderPdf(name: string, eventName: string, organizationName: string, certificateId: string,
                     t: TemplateWithDefault, env: Env): (r: Result<Bytes>)
    ensures r.Failure? ==> r.error == IMAGE_FAILED || r.error == PDF_FROM_IMAGE_FAILED
  {
    match GenerateCertificateImage(name, eventName, organizationName, certificateId, t,
                                   env.cwd, env.domain, env.encodePng, env.img)
    case Failure(e) => Failure(e)
    case Success(png) => GeneratePdfFromImage(png, name, env.launched, env.render).result
  }

  /** Drawing one certificate of a job to a PDF, given its name and its id. */
  type Draw = (string, string) -> Result<Bytes>

  /** The drawing the loop of `job` uses: everything but the name and the id
      comes from the job. */
  function Drawing(job: Job, env: Env): (d: Draw)
    ensures forall name, id :: d(name, id).Failure? ==> DrawError(d(name, id).error)
  {
    (name: string, id: string) => RenderPdf(name, job.eventName, job.organizationName, id, job.template, env)
  }

  /** The errors a drawing throws. */
  predicate DrawError(e: string) {
    e == IMAGE_FAILED || e == PDF_FROM_IMAGE_FAILED
  }

  /** The state of the loop: the certificate table, the records created so
      far, the PDFs produced so far, and the error that ended it. */
  datatype Run = Run(table: seq<Certificate>, created: seq<Certificate>, files: seq<(string, Bytes)>,
                     error: Option<string>)

  /** The loop from name `i` on. An insert that repeats an id throws before
      anything is written; a render that fails throws after its record was
      written. */
  function IssueFrom(job: Job, draw: Draw, i: nat, table: seq<Certificate>, created: seq<Certificate>,
                     files: seq<(string, Bytes)>): (r: Run)
    requires i <= |job.names|
    decreases |job.names| - i
  {
    if i == |job.names| then Run(table, created, files, None)
    else if HasKey(table, CertificateKey, job.certId(i)) then Run(table, created, files, Some(DUPLICATE_KEY))
    else
      var c := CertificateFor(job, i);
      match draw(job.names[i], c.id)
      case Failure(e) => Run(table + [c], created + [c], files, Some(e))
      case Success(pdf) => IssueFrom(job, draw, i + 1, table + [c], created + [c], files + [(job.names[i], pdf)])
  }

  /** The first records are those for the first names, in order. */
  predicate CreatedInOrder(job: Job, created: seq<Certificate>) {
    |created| <= |job.names| && forall j :: 0 <= j < |created| ==> created[j] == CertificateFor(job, j)
  }

  /** The first PDFs are those of the first names, in order. */
  predicate FilesInOrder(job: Job, files: seq<(string, Bytes)>) {
    |files| <= |job.names| && forall j :: 0 <= j < |files| ==> files[j].0 == job.names[j]
  }

  /** The loop creates record `j` for name `j`, in order, and nothing else;
      every record it created stays in the table whether or not the loop
      completes; when it completes there is one record and one PDF per name. */
  lemma IssueFacts(job: Job, draw: Draw, i: nat, table0: seq<Certificate>,
                   table: seq<Certificate>, created: seq<Certificate>, files: seq<(string, Bytes)>)
    requires i <= |job.names|
    requires table == table0 + created
    requires |created| == i && CreatedInOrder(job, created)
    requires |files| == i && FilesInOrder(job, files)
    ensures var r := IssueFrom(job, draw, i, table, created, files);
      && r.table == table0 + r.created
      && i <= |r.created| && CreatedInOrder(job, r.created)
      && (r.error.None? ==> |r.created| == |job.names| && |r.files| == |job.names| && FilesInOrder(job, r.files))
  {
    IssueKeepsTable(job, draw, i, table0, table, created, files);
    IssueCreatesInOrder(job, draw, i, table, created, files);
    IssueCompletesAll(job, draw, i, table, created, files);
  }

  lemma {:induction false} IssueKeepsTable(job: Job, draw: Draw, i: nat, table0: seq<Certificate>,
                                           table: seq<Certificate>, created: seq<Certificate>,
                                           files: seq<(string, Bytes)>)
    requires i <= |job.names|
    requires table == table0 + created
    ensures var r := IssueFrom(job, draw, i, table, created, files); r.table == table0 + r.created
    decreases |job.names| - i
  {
    if i < |job.names| && !HasKey(table, CertificateKey, job.certId(i)) {
      var c := CertificateFor(job, i);
      assert table + [c] == table0 + (created + [c]);
      match draw(job.names[i], c.id)
      case Failure(e) =>
      case Success(pdf) =>
        IssueKeepsTable(job, draw, i + 1, table0, table + [c], created + [c], files + [(job.names[i], pdf)]);
    }
  }

  lemma {:induction false} IssueCreatesInOrder(job: Job, draw: Draw, i: nat, table: seq<Certificate>,
                                               created: seq<Certificate>, files: seq<(string, Bytes)>)
    requires i <= |job.names|
    requires |created| == i && CreatedInOrder(job, created)
    ensures var r := IssueFrom(job, draw, i, table, created, files);
      i <= |r.created| && CreatedInOrder(job, r.created)
    decreases |job.names| - i
  {
    if i < |job.names| && !HasKey(table, CertificateKey, job.certId(i)) {
      var c := CertificateFor(job, i);
      var created' := created + [c];
      assert CreatedInOrder(job, created') by {
        forall j | 0 <= j < |created'| ensures created'[j] == CertificateFor(job, j) {
          if j < i { assert created'[j] == created[j]; }
        }
      }
      match draw(job.names[i], c.id)
      case Failure(e) =>
      case Success(pdf) =>
        IssueCreatesInOrder(job, draw, i + 1, table + [c], created', files + [(job.names[i], pdf)]);
    }
  }

  lemma {:induction false} IssueCompletesAll(job: Job, draw: Draw, i: nat, table: seq<Certificate>,
                                             created: seq<Certificate>, files: seq<(string, Bytes)>)
    requires i <= |job.names|
    requires |created| == i
    requires |files| == i && FilesInOrder(job, files)
    ensures var r := IssueFrom(job, draw, i, table, created, files);
      r.error.None? ==> |r.created| == |job.names| && |r.files| == |job.names| && FilesInOrder(job, r.files)
    decreases |job.names| - i
  {
    if i < |job.names| && !HasKey(table, CertificateKey, job.certId(i)) {
      var c := CertificateFor(job, i);
      match draw(job.names[i], c.id)
      case Failure(e) =>
      case Success(pdf) =>
        var files' := files + [(job.names[i], pdf)];
        assert FilesInOrder(job, files') by {
          forall j | 0 <= j < |files'| ensures files'[j].0 == job.names[j] {
            if j < i { assert files'[j] == files[j]; }
          }
        }
        IssueCompletesAll(job, draw, i + 1, table + [c], created + [c], files');
    }
  }

  /** The loop ends with the store's duplicate-key error, the image error
      or the PDF error, and with no other. */
  lemma {:induction false} IssueErrors(job: Job, draw: Draw, i: nat, table: seq<Certificate>,
                                       created: seq<Certificate>, files: seq<(string, Bytes)>)
    requires i <= |job.names|
    requires forall name, id :: draw(name, id).Failure? ==> DrawError(draw(name, id).error)
    ensures var r := IssueFrom(job, draw, i, table, created, files);
      r.error.Some? ==> r.error.value == DUPLICATE_KEY || DrawError(r.error.value)
    decreases |job.names| - i
  {
    if i < |job.names| && !HasKey(table, CertificateKey, job.certId(i)) {
      var c := CertificateFor(job, i);
      match draw(job.names[i], c.id)
      case Failure(e) =>
      case Success(pdf) =>
        IssueErrors(job, draw, i + 1, table + [c], created + [c], files + [(job.names[i], pdf)]);
    }
  }

  /** The ids minted for names `i` onwards are pairwise distinct and not in
      the table. */
  predicate FreshIds(job: Job, i: nat, table: seq<Certificate>) {
    && (forall j :: i <= j < |job.names| ==> !HasKey(table, CertificateKey, job.certId(j)))
    && (forall j, k :: i <= j < k < |job.names| ==> job.certId(j) != job.certId(k))
  }

  /** Every name from `i` on renders to a PDF. */
  predicate AllRender(job: Job, draw: Draw, i: nat) {
    forall j :: i <= j < |job.names| ==> draw(job.names[j], job.certId(j)).Success?
  }

  /** The loop completes exactly when every minted id is fresh and every
      name renders. */
  lemma {:induction false} IssueCompletes(job: Job, draw: Draw, i: nat, table: seq<Certificate>,
                                          created: seq<Certificate>, files: seq<(string, Bytes)>)
    requires i <= |job.names|
    ensures IssueFrom(job, draw, i, table, created, files).error.None? <==>
      FreshIds(job, i, table) && AllRender(job, draw, i)
    decreases |job.names| - i
  {
    if i < |job.names| {
      var c := CertificateFor(job, i);
      var table' := table + [c];
      if HasKey(table, CertificateKey, job.certId(i)) {
        assert !FreshIds(job, i, table);
      } else {
        match draw(job.names[i], c.id)
        case Failure(e) =>
          assert !AllRender(job, draw, i);
        case Success(pdf) =>
          IssueCompletes(job, draw, i + 1, table', created + [c], files + [(job.names[i], pdf)]);
          assert AllRender(job, draw, i) <==> AllRender(job, draw, i + 1);
          assert FreshIds(job, i, table) <==> FreshIds(job, i + 1, table') by {
            assert forall j :: 0 <= j < |table| ==> table'[j] == table[j];
            assert table'[|table|] == c;
            forall j | i + 1 <= j < |job.names|
              ensures HasKey(table', CertificateKey, job.certId(j)) <==>
                      HasKey(table, CertificateKey, job.certId(j)) || job.certId(j) == job.certId(i)
            {
              if HasKey(table', CertificateKey, job.certId(j)) {
                var m :| 0 <= m < |table'| && CertificateKey(table'[m]) == job.certId(j);
                if m < |table| { assert CertificateKey(table[m]) == job.certId(j); }
              }
              if HasKey(table, CertificateKey, job.certId(j)) {
                var m :| 0 <= m < |table| && CertificateKey(table[m]) == job.certId(j);
                assert CertificateKey(table'[m]) == job.certId(j);
              }
              if job.certId(j) == job.certId(i) {
                assert CertificateKey(table'[|table|]) == job.certId(j);
              }
            }
          }
      }
    }
  }

  /** The `for` loop of `generateCertificates`: create the record, draw the
      image, print the PDF, name by name; the first error ends it. */
  method IssueAll(db: Database, job: Job, env: Env)
    returns (certificates: seq<Certificate>, files: seq<(string, Bytes)>, failure: Option<string>)
    requires db.Valid()
    modifies db`certificates
    ensures db.Valid()
    ensures Run(db.certificates, certificates, files, failure) == IssueFrom(job, Drawing(job, env), 0, old(db.certificates), [], [])
  {
    certificates, files, failure := [], [], None;
    var i := 0;
    while i < |job.names|
      invariant i <= |job.names|
      invariant db.Valid()
      invariant IssueFrom(job, Drawing(job, env), i, db.certificates, certificates, files)
             == IssueFrom(job, Drawing(job, env), 0, old(db.certificates), [], [])
    {
      var c := db.CreateCertificate(job.certId(i), job.userId, job.names[i], job.eventName, job.batchId, job.now);
      if c.Failure? {
        failure := Some(c.error);
        return;
      }
      certificates := certificates + [c.value];
      var pdf := RenderPdf(job.names[i], job.eventName, job.organizationName, c.value.id, job.template, env);
      if pdf.Failure? {
        failure := Some(pdf.error);
        return;
      }
      files := files + [(job.names[i], pdf.value)];
      i := i + 1;
    }
  }

  // ---------------------------------------------------------------------
  // generateCertificates

  /** Everything a call leaves behind: its result, the archive it wrote, and
      the three tables it may write. */
  datatype Outcome = Outcome(result: Result<GenerationResult>, archive: seq<Entry>,
                             batches: seq<Batch>, certificates: seq<Certificate>, users: seq<User>)

  /** What happens once the batch row `batch` is inserted, over the tables
      as they were before that insert: the loop, then either the archive,
      the completed row and the charged counter, or the failed row. */
  function AfterBatch(batches: seq<Batch>, certificates: seq<Certificate>, users: seq<User>, batch: Batch,
                      job: Job, iso: string, zipError: Option<string>, env: Env): Outcome
  {
    var run := IssueFrom(job, Drawing(job, env), 0, certificates, [], []);
    var failure := if run.error.Some? then run.error else zipError;
    if failure.Some? then
      Outcome(Failure(failure.value), [], batches + [WithStatus(batch, Failed, None, job.now)], run.table, users)
    else
      var zipPath := ZipPath(env.cwd, job.batchId, job.eventName, iso);
      Outcome(Success(GenerationResult(job.batchId, run.created, zipPath, GenerateDownloadUrl(zipPath, env.domain, env.cwd))),
              CertificateEntries(run.files),
              batches + [WithStatus(batch, Completed, Some(zipPath), job.now)],
              run.table,
              seq(|users|, i requires 0 <= i < |users| => WithCount(users[i], job.userId, |job.names|)))
  }

  /** `generateCertificates`, over the store before the call. `batchId` is
      the id `uuidv4` mints, `batchRowId` the id the store gives the batch
      row, `zipError` the error writing the archive raised, if any. */
  function Planned(db: Database, userId: string, request: GenerateRequest, batchId: string, batchRowId: string,
                   certId: nat -> string, now: int, iso: string, zipError: Option<string>, env: Env)
    : Outcome
    reads db
    requires db.Valid()
  {
    var n := |request.participantNames|;
    var same := Outcome(Failure(""), [], db.batches, db.certificates, db.users);
    if !CanGenerateCertificates(db, userId, n) then same.(result := Failure(LIMIT_EXCEEDED))
    else match GetUserById(db, userId)
    case None => same.(result := Failure(USER_NOT_FOUND))
    case Some(user) =>
      match ResolveTemplate(db, userId, request.templateId, now)
      case None => same.(result := Failure(TEMPLATE_NOT_FOUND))
      case Some(t) =>
        if HasKey(db.batches, BatchKey, batchRowId) then same.(result := Failure(DUPLICATE_KEY))
        else
          var batch := Batch(batchRowId, userId, request.eventName, n, Processing, None, now, None);
          var job := Job(userId, request.eventName, batchId, request.participantNames, certId,
                         user.organizationName, t, now);
          AfterBatch(db.batches, db.certificates, db.users, batch, job, iso, zipError, env)
  }

  /** Setting the status of a batch row whose id no older row shares
      rewrites that row alone. */
  lemma MarkNewest(before: seq<Batch>, batch: Batch, after: seq<Batch>, status: BatchStatus,
                   filePath: Option<string>, now: int)
    requires forall k :: 0 <= k < |before| ==> before[k].id != batch.id
    requires |after| == |before| + 1
    requires forall k :: 0 <= k < |after| ==>
      after[k] == if (before + [batch])[k].id == batch.id then WithStatus((before + [batch])[k], status, filePath, now)
                  else (before + [batch])[k]
    ensures after == before + [WithStatus(batch, status, filePath, now)]
  {
    assert forall k :: 0 <= k < |before| ==> (before + [batch])[k] == before[k];
    assert (before + [batch])[|before|] == batch;
  }

  /** Marks the newest batch row `batch` with its final status. */
  method MarkBatch(db: Database, batch: Batch, status: BatchStatus, filePath: Option<string>, now: int)
    requires db.Valid()
    requires db.batches != [] && db.batches[|db.batches| - 1] == batch
    requires forall k :: 0 <= k < |db.batches| - 1 ==> db.batches[k].id != batch.id
    modifies db`batches
    ensures db.Valid()
    ensures db.batches == old(db.batches)[..|old(db.batches)| - 1] + [WithStatus(batch, status, filePath, now)]
  {
    ghost var before := db.batches[..|db.batches| - 1];
    assert db.batches == before + [batch];
    var row := db.UpdateBatchStatus(batch.id, status, filePath, now);
    MarkNewest(before, batch, db.batches, status, filePath, now);
  }

  /** Adds the batch's size to the counter of its user. */
  method ChargeUser(db: Database, userId: string, count: nat)
    requires db.Valid()
    modifies db`users
    ensures db.Valid()
    ensures db.users == seq(|old(db.users)|, i requires 0 <= i < |old(db.users)| => WithCount(old(db.users)[i], userId, count))
  {
    ghost var users := db.users;
    IncrementCertificateCount(db, userId, count);
    assert db.users == seq(|users|, i requires 0 <= i < |users| => WithCount(users[i], userId, count));
  }

  /** The inner `try` of `generateCertificates`, entered with `batch` as the
      newest batch row: the loop, the archive, the final status and the
      counter, or on any error the failed status. */
  method RunBatch(db: Database, batch: Batch, job: Job, iso: string, zipError: Option<string>, env: Env)
    returns (r: Result<GenerationResult>, archive: seq<Entry>)
    requires db.Valid()
    requires db.batches != [] && db.batches[|db.batches| - 1] == batch
    requires forall k :: 0 <= k < |db.batches| - 1 ==> db.batches[k].id != batch.id
    modifies db`batches, db`certificates, db`users
    ensures db.Valid()
    ensures Outcome(r, archive, db.batches, db.certificates, db.users)
         == AfterBatch(old(db.batches)[..|old(db.batches)| - 1], old(db.certificates), old(db.users),
                       batch, job, iso, zipError, env)
  {
    archive := [];
    var certificates, files, failure := IssueAll(db, job, env);
    ghost var run := IssueFrom(job, Drawing(job, env), 0, old(db.certificates), [], []);
    assert run == Run(db.certificates, certificates, files, failure);

    var zipPath := "";
    if failure.None? {
      var path, entries := CreateCertificateZip(files, job.batchId, job.eventName, iso, env.cwd);
      if zipError.Some? {
        failure := zipError;
      } else {
        zipPath, archive := path, entries;
        assert archive == CertificateEntries(files);
      }
    }

    if failure.Some? {
      MarkBatch(db, batch, Failed, None, job.now);
      return Failure(failure.value), [];
    }
    MarkBatch(db, batch, Completed, Some(zipPath), job.now);
    ChargeUser(db, job.userId, |job.names|);
    r := Success(GenerationResult(job.batchId, certificates, zipPath, GenerateDownloadUrl(zipPath, env.domain, env.cwd)));
  }

  /** `generateCertificates`: the quota gate, the user, the template, the
      batch row in 'processing', then the inner `try`. */
  method GenerateCertificates(db: Database, userId: string, request: GenerateRequest, batchId: string,
                              batchRowId: string, certId: nat -> string, now: int, iso: string,
                              zipError: Option<string>, env: Env)
    returns (r: Result<GenerationResult>, archive: seq<Entry>)
    requires db.Valid()
    modifies db`batches, db`certificates, db`users
    ensures db.Valid()
    ensures var o := old(Planned(db, userId, request, batchId, batchRowId, certId, now, iso, zipError, env));
      && r == o.result && archive == o.archive
      && db.batches == o.batches && db.certificates == o.certificates && db.users == o.users
  {
    var names := request.participantNames;
    if !CanGenerateCertificates(db, userId, |names|) {
      return Failure(LIMIT_EXCEEDED), [];
    }
    // The quota gate already turned an unknown user away.
    var user := GetUserById(db, userId).value;
    var template := ResolveTemplate(db, userId, request.templateId, now);
    if template.None? {
      return Failure(TEMPLATE_NOT_FOUND), [];
    }
    var created := db.CreateBatch(batchRowId, userId, request.eventName, |names|, Some(Processing), now);
    if created.Failure? {
      return Failure(created.error), [];
    }
    var job := Job(userId, request.eventName, batchId, names, certId, user.organizationName, template.value, now);
    assert old(db.batches) == db.batches[..|db.batches| - 1];
    assert forall k :: 0 <= k < |db.batches| - 1 ==> db.batches[k].id != batchRowId;
    r, archive := RunBatch(db, created.value, job, iso, zipError, env);
  }

  // ---------------------------------------------------------------------
  // What a call promises

  /** A call the quota gate refuses throws the limit message and writes
      nothing. */
  lemma QuotaRefusalWritesNothing(db: Database, userId: string, request: GenerateRequest, batchId: string,
                                  batchRowId: string, certId: nat -> string, now: int, iso: string,
                                  zipError: Option<string>, env: Env)
    requires db.Valid()
    requires !CanGenerateCertificates(db, userId, |request.participantNames|)
    ensures var o := Planned(db, userId, request, batchId, batchRowId, certId, now, iso, zipError, env);
      o == Outcome(Failure(LIMIT_EXCEEDED), [], db.batches, db.certificates, db.users)
  {
  }

  /** An id that names neither a user template nor an active default template
      throws 'Template not found' before any batch or certificate exists. */
  lemma UnknownTemplateWritesNothing(db: Database, userId: string, request: GenerateRequest, batchId: string,
                                     batchRowId: string, certId: nat -> string, now: int, iso: string,
                                     zipError: Option<string>, env: Env)
    requires db.Valid()
    requires CanGenerateCertificates(db, userId, |request.participantNames|)
    requires !HasKey(db.templates, TemplateKey, request.templateId)
    requires db.FindDefaultTemplateById(request.templateId).None?
    ensures var o := Planned(db, userId, request, batchId, batchRowId, certId, now, iso, zipError, env);
      o == Outcome(Failure(TEMPLATE_NOT_FOUND), [], db.batches, db.certificates, db.users)
  {
  }

  /** The stages a call passes once the gate and the template lookup let it
      through and the batch row is inserted. */
  predicate Admitted(db: Database, userId: string, request: GenerateRequest, batchRowId: string, now: int)
    reads db
    requires db.Valid()
  {
    && CanGenerateCertificates(db, userId, |request.participantNames|)
    && ResolveTemplate(db, userId, request.templateId, now).Some?
    && !HasKey(db.batches, BatchKey, batchRowId)
  }

  /** The run of the loop in an admitted call. */
  function LoopOf(db: Database, userId: string, request: GenerateRequest, batchId: string,
                  certId: nat -> string, now: int, env: Env): (run: Run)
    reads db
    requires db.Valid()
    requires CanGenerateCertificates(db, userId, |request.participantNames|)
    requires ResolveTemplate(db, userId, request.templateId, now).Some?
    ensures run.table == db.certificates + run.created
    ensures |run.created| <= |request.participantNames|
  {
    var job := Job(userId, request.eventName, batchId, request.participantNames, certId,
                   db.FindUserById(userId).value.organizationName,
                   ResolveTemplate(db, userId, request.templateId, now).value, now);
    IssueFacts(job, Drawing(job, env), 0, db.certificates, db.certificates, [], []);
    IssueFrom(job, Drawing(job, env), 0, db.certificates, [], [])
  }

  /** A successful call leaves one active record per name, in the order of
      the names, all carrying the event name and the locally minted batch id
      that it also returns; the batch row is completed with the zip path and
      the raw name count, and the counter of that user alone grows by the
      raw name count. */
  lemma SuccessfulGeneration(db: Database, userId: string, request: GenerateRequest, batchId: string,
                             batchRowId: string, certId: nat -> string, now: int, iso: string,
                             zipError: Option<string>, env: Env)
    requires db.Valid()
    requires Admitted(db, userId, request, batchRowId, now)
    requires Planned(db, userId, request, batchId, batchRowId, certId, now, iso, zipError, env).result.Success?
    ensures var o := Planned(db, userId, request, batchId, batchRowId, certId, now, iso, zipError, env);
      var names := request.participantNames;
      var res := o.result.value;
      var zipPath := ZipPath(env.cwd, batchId, request.eventName, iso);
      && res.batchId == batchId && res.zipFilePath == zipPath
      && |res.certificates| == |names|
      && (forall j :: 0 <= j < |names| ==>
            res.certificates[j] == Certificate(certId(j), userId, names[j], request.eventName, batchId, true, now))
      && o.certificates == db.certificates + res.certificates
      && o.batches == db.batches + [Batch(batchRowId, userId, request.eventName, |names|, Completed,
                                          Some(zipPath), now, Some(now))]
      && |o.archive| == |names| && (forall j :: 0 <= j < |names| ==> o.archive[j].name == EntryName(names[j]))
      && |o.users| == |db.users|
      && (forall k :: 0 <= k < |db.users| ==>
            o.users[k] == if db.users[k].id == userId
                          then db.users[k].(certificateCount := db.users[k].certificateCount + |names|)
                          else db.users[k])
  {
    var user := GetUserById(db, userId).value;
    var t := ResolveTemplate(db, userId, request.templateId, now).value;
    var job := Job(userId, request.eventName, batchId, request.participantNames, certId,
                   user.organizationName, t, now);
    IssueFacts(job, Drawing(job, env), 0, db.certificates, db.certificates, [], []);
    var zipPath := ZipPath(env.cwd, batchId, request.eventName, iso);
    assert zipPath != "" by { assert StartsWith(zipPath, env.cwd + "/certificates/"); }
  }

  /** A call that fails after its batch row exists leaves that row failed
      with no path, keeps every record the loop had already created, and
      leaves every counter as it was. */
  lemma FailedGeneration(db: Database, userId: string, request: GenerateRequest, batchId: string,
                         batchRowId: string, certId: nat -> string, now: int, iso: string,
                         zipError: Option<string>, env: Env)
    requires db.Valid()
    requires Admitted(db, userId, request, batchRowId, now)
    requires Planned(db, userId, request, batchId, batchRowId, certId, now, iso, zipError, env).result.Failure?
    ensures var o := Planned(db, userId, request, batchId, batchRowId, certId, now, iso, zipError, env);
      var run := LoopOf(db, userId, request, batchId, certId, now, env);
      && o.batches == db.batches + [Batch(batchRowId, userId, request.eventName, |request.participantNames|,
                                          Failed, None, now, None)]
      && o.certificates == db.certificates + run.created
      && (forall c :: c in run.created ==> c.isActive && c.batchId == batchId)
      && o.users == db.users
      && o.archive == []
      && (o.result.error == DUPLICATE_KEY || o.result.error == IMAGE_FAILED || o.result.error == PDF_FROM_IMAGE_FAILED
          || zipError == Some(o.result.error))
  {
    var user := GetUserById(db, userId).value;
    var t := ResolveTemplate(db, userId, request.templateId, now).value;
    var job := Job(userId, request.eventName, batchId, request.participantNames, certId,
                   user.organizationName, t, now);
    IssueFacts(job, Drawing(job, env), 0, db.certificates, db.certificates, [], []);
    IssueErrors(job, Drawing(job, env), 0, db.certificates, [], []);
  }

  /** A call of an admitted request succeeds exactly when every minted
      certificate id is new and distinct, every name renders, and the archive
      is written. */
  lemma GenerationSucceedsIff(db: Database, userId: string, request: GenerateRequest, batchId: string,
                              batchRowId: string, certId: nat -> string, now: int, iso: string,
                              zipError: Option<string>, env: Env)
    requires db.Valid()
    requires Admitted(db, userId, request, batchRowId, now)
    ensures var user := db.FindUserById(userId).value;
      var job := Job(userId, request.eventName, batchId, request.participantNames, certId,
                     user.organizationName, ResolveTemplate(db, userId, request.templateId, now).value, now);
      Planned(db, userId, request, batchId, batchRowId, certId, now, iso, zipError, env).result.Success?
      <==> FreshIds(job, 0, db.certificates) && AllRender(job, Drawing(job, env), 0) && zipError.None?
  {
    var user := db.FindUserById(userId).value;
    var job := Job(userId, request.eventName, batchId, request.participantNames, certId,
                   user.organizationName, ResolveTemplate(db, userId, request.templateId, now).value, now);
    IssueCompletes(job, Drawing(job, env), 0, db.certificates, [], []);
  }

  // ---------------------------------------------------------------------
  // The returned batch id

  /** As written, a successful call returns the locally minted id, while the
      batch row carries the id the store minted. Unless the two happen to
      coincide, the returned id finds no new batch row, and listing the
      certificates of the batch row finds none of the new records. */
  lemma ReturnedBatchIdMissesRow(db: Database, userId: string, request: GenerateRequest, batchId: string,
                                 batchRowId: string, certId: nat -> string, now: int, iso: string,
                                 zipError: Option<string>, env: Env)
    requires db.Valid()
    requires Admitted(db, userId, request, batchRowId, now)
    requires Planned(db, userId, request, batchId, batchRowId, certId, now, iso, zipError, env).result.Success?
    requires batchId != batchRowId && !HasKey(db.batches, BatchKey, batchId)
    ensures var o := Planned(db, userId, request, batchId, batchRowId, certId, now, iso, zipError, env);
      && FindByKey(o.batches, BatchKey, o.result.value.batchId).None?
      && (forall c :: c in o.result.value.certificates ==> c !in ActiveOfBatch(o.certificates, batchRowId))
  {
    var o := Planned(db, userId, request, batchId, batchRowId, certId, now, iso, zipError, env);
    SuccessfulGeneration(db, userId, request, batchId, batchRowId, certId, now, iso, zipError, env);
    var b := Batch(batchRowId, userId, request.eventName, |request.participantNames|, Completed,
                   Some(ZipPath(env.cwd, batchId, request.eventName, iso)), now, Some(now));
    FindByKeyAppend(db.batches, BatchKey, b, batchId);
    ActiveOfBatchMembers(o.certificates, batchRowId);
  }

  /** The corrected call: the batch row's own id tags the records, names the
      archive directory and is returned. */
  method GenerateCertificatesForRow(db: Database, userId: string, request: GenerateRequest, batchRowId: string,
                                    certId: nat -> string, now: int, iso: string, zipError: Option<string>,
                                    env: Env)
    returns (r: Result<GenerationResult>, archive: seq<Entry>)
    requires db.Valid()
    modifies db`batches, db`certificates, db`users
    ensures db.Valid()
    ensures var o := old(Planned(db, userId, request, batchRowId, batchRowId, certId, now, iso, zipError, env));
      && r == o.result && archive == o.archive
      && db.batches == o.batches && db.certificates == o.certificates && db.users == o.users
  {
    r, archive := GenerateCertificates(db, userId, request, batchRowId, batchRowId, certId, now, iso, zipError, env);
  }

  /** With the row id returned, the returned id finds the completed batch and
      every new record is listed under it. */
  lemma ReturnedRowIdFindsBatch(db: Database, userId: string, request: GenerateRequest, batchRowId: string,
                                certId: nat -> string, now: int, iso: string, zipError: Option<string>, env: Env)
    requires db.Valid()
    requires Admitted(db, userId, request, batchRowId, now)
    requires Planned(db, userId, request, batchRowId, batchRowId, certId, now, iso, zipError, env).result.Success?
    ensures var o := Planned(db, userId, request, batchRowId, batchRowId, certId, now, iso, zipError, env);
      var id := o.result.value.batchId;
      && FindByKey(o.batches, BatchKey, id).Some?
      && FindByKey(o.batches, BatchKey, id).value.status == Completed
      && FindByKey(o.batches, BatchKey, id).value.participantCount == |request.participantNames|
      && FindByKey(o.batches, BatchKey, id).value.userId == userId
      && (forall c :: c in o.result.value.certificates ==> c in ActiveOfBatch(o.certificates, id))
  {
    var o := Planned(db, userId, request, batchRowId, batchRowId, certId, now, iso, zipError, env);
    SuccessfulGeneration(db, userId, request, batchRowId, batchRowId, certId, now, iso, zipError, env);
    var b := Batch(batchRowId, userId, request.eventName, |request.participantNames|, Completed,
                   Some(ZipPath(env.cwd, batchRowId, request.eventName, iso)), now, Some(now));
    AppendedRowFound(db.batches, b, db.certificates, o.result.value.certificates);
  }

  /** A row appended after rows with other ids is the one its id finds, and
      active records tagged with that id, appended to a table, are listed
      under it. */
  lemma AppendedRowFound(before: seq<Batch>, b: Batch, table: seq<Certificate>, created: seq<Certificate>)
    requires !HasKey(before, BatchKey, b.id)
    requires forall j :: 0 <= j < |created| ==> created[j].batchId == b.id && created[j].isActive
    ensures FindByKey(before + [b], BatchKey, b.id) == Some(b)
    ensures forall c :: c in created ==> c in ActiveOfBatch(table + created, b.id)
  {
    FindByKeyAppend(before, BatchKey, b, b.id);
    ActiveOfBatchMembers(table + created, b.id);
  }

  // ---------------------------------------------------------------------
  // generateCertificatesFromCSV

  /** The names the CSV path generates for, or the error it throws first:
      the validator's message, then a parse error, then the empty list. */
  function CsvNames(rows: Result<seq<Row>>): (r: Result<seq<string>>)
    ensures rows.Failure? ==> r == Failure(INVALID_FORMAT_PREFIX + rows.error)
    ensures rows.Success? && rows.value == [] ==> r == Failure(EMPTY_FILE)
    ensures r.Success? <==> rows.Success? && ParsedNames(rows.value) != []
                            && exists k :: 0 <= k < |rows.value| && HasNonBlankCell(rows.value[k])
    ensures r.Success? ==> r.value == ParsedNames(rows.value)
  {
    if rows.Failure? then Failure(INVALID_FORMAT_PREFIX + rows.error)
    else if rows.value == [] then Failure(EMPTY_FILE)
    else if !exists k :: 0 <= k < |rows.value| && HasNonBlankCell(rows.value[k]) then Failure(NO_VALID_NAMES)
    else if ParsedNames(rows.value) == [] then Failure(NO_PARTICIPANTS)
    else Success(ParsedNames(rows.value))
  }

  /** A file that validates yet parses to no names (such as one whose only
      name sits outside the first column) throws for having no participants. */
  lemma ValidatedWithoutNames(rows: seq<Row>, k: nat)
    requires k < |rows| && HasNonBlankCell(rows[k])
    requires ParsedNames(rows) == []
    ensures CsvNames(Success(rows)) == Failure(NO_PARTICIPANTS)
  {
  }

  /** `generateCertificatesFromCSV`: validate, parse, refuse an empty list,
      then delegate with the parsed names unchanged. */
  method GenerateCertificatesFromCsv(db: Database, userId: string, eventName: string, templateId: string,
                                     rows: Result<seq<Row>>, batchId: string, batchRowId: string,
                                     certId: nat -> string, now: int, iso: string, zipError: Option<string>,
                                     env: Env)
    returns (r: Result<GenerationResult>, archive: seq<Entry>)
    requires db.Valid()
    modifies db`batches, db`certificates, db`users
    ensures db.Valid()
    ensures CsvNames(rows).Failure? ==>
      r == Failure(CsvNames(rows).error) && archive == []
      && db.batches == old(db.batches) && db.certificates == old(db.certificates) && db.users == old(db.users)
    ensures CsvNames(rows).Success? ==>
      var o := old(Planned(db, userId, GenerateRequest(eventName, CsvNames(rows).value, templateId), batchId,
                           batchRowId, certId, now, iso, zipError, env));
      && r == o.result && archive == o.archive
      && db.batches == o.batches && db.certificates == o.certificates && db.users == o.users
  {
    var validation := ValidateCsvFormat(rows);
    if !validation.valid {
      return Failure(if Truthy(validation.message) then validation.message.value else INVALID_CSV), [];
    }
    // A file that validated was read, so parsing it cannot fail.
    var names := ParseParticipantNames(rows);
    if |names.value| == 0 {
      return Failure(NO_PARTICIPANTS), [];
    }
    r, archive := GenerateCertificates(db, userId, GenerateRequest(eventName, names.value, templateId),
                                       batchId, batchRowId, certId, now, iso, zipError, env);
  }

  // ---------------------------------------------------------------------
  // downloadBatchZip

  datatype Download = Download(filePath: string, fileName: string)

  /** `downloadBatchZip`: `exists` answers `fs.access` for a path. */
  function DownloadBatchZip(db: Database, batchId: string, userId: string, exists_: string -> bool)
    : (r: Option<Download>)
    reads db
    ensures r.Some? <==>
      && db.FindBatchById(batchId).Some? && db.FindBatchById(batchId).value.userId == userId
      && db.FindBatchById(batchId).value.status == Completed
      && Truthy(db.FindBatchById(batchId).value.filePath)
      && exists_(db.FindBatchById(batchId).value.filePath.value)
    ensures r.Some? ==> r.value.filePath == db.FindBatchById(batchId).value.filePath.value
                        && r.value.fileName == Basename(r.value.filePath)
  {
    match db.FindBatchById(batchId)
    case None => None
    case Some(batch) =>
      if batch.userId != userId then None
      else if batch.status != Completed || !Truthy(batch.filePath) then None
      else if !exists_(batch.filePath.value) then None
      else Some(Download(batch.filePath.value, Basename(batch.filePath.value)))
  }

  /** The archive of a successful call is downloadable by its owner, through
      the batch row's id, and its file name is the archive's own name. */
  lemma CompletedBatchDownloads(db: Database, batchRowId: string, userId: string, eventName: string,
                                count: int, zipPath: string, now: int, exists_: string -> bool)
    requires zipPath != "" && exists_(zipPath)
    requires db.batches != [] && db.batches[|db.batches| - 1] ==
      Batch(batchRowId, userId, eventName, count, Completed, Some(zipPath), now, Some(now))
    requires forall k :: 0 <= k < |db.batches| - 1 ==> db.batches[k].id != batchRowId
    ensures DownloadBatchZip(db, batchRowId, userId, exists_) == Some(Download(zipPath, Basename(zipPath)))
  {
    var rows := db.batches;
    var before := rows[..|rows| - 1];
    assert rows == before + [rows[|rows| - 1]];
    assert !HasKey(before, BatchKey, batchRowId);
    FindByKeyAppend(before, BatchKey, rows[|rows| - 1], batchRowId);
  }

  // ---------------------------------------------------------------------
  // regenerateCertificate and previewCertificate

  datatype Regenerated = Regenerated(pdf: Bytes, certificate: Certificate)

  /** `regenerateCertificate`: `Success(None)` is the `null` answer. It draws
      with the owner's most recent template, not the one the certificate was
      made with. */
  function RegenerateCertificate(db: Database, certificateId: string, userId: string, env: Env)
    : (r: Result<Option<Regenerated>>)
    reads db
    ensures (db.FindCertificateById(certificateId).None?
             || db.FindCertificateById(certificateId).value.certificate.userId != userId) ==> r == Success(None)
    ensures r.Success? && r.value.Some? ==>
      && r.value.value.certificate == db.FindCertificateById(certificateId).value.certificate
      && r.value.value.certificate.userId == userId && r.value.value.certificate.isActive
    ensures r.Failure? ==> r.error in {NO_TEMPLATE_FOR_REGENERATION, IMAGE_FAILED, PDF_FROM_IMAGE_FAILED}
  {
    match db.FindCertificateById(certificateId)
    case None => Success(None)
    case Some(found) =>
      var c := found.certificate;
      if c.userId != userId then Success(None)
      else match GetUserById(db, userId)
      case None => Success(None)
      case Some(user) =>
        var templates := GetUserTemplates(db, userId);
        if templates == [] then Failure(NO_TEMPLATE_FOR_REGENERATION)
        else
          match RenderPdf(c.participantName, c.eventName, user.organizationName, c.id, templates[0], env)
          case Failure(e) => Failure(e)
          case Success(pdf) => Success(Some(Regenerated(pdf, c)))
  }

  /** An owner with no template of their own cannot regenerate, even a
      certificate that was drawn on a default template. */
  lemma RegenerateNeedsOwnTemplate(db: Database, certificateId: string, userId: string, env: Env)
    requires db.FindCertificateById(certificateId).Some?
    requires db.FindCertificateById(certificateId).value.certificate.userId == userId
    requires GetUserTemplates(db, userId) == []
    ensures RegenerateCertificate(db, certificateId, userId, env) == Failure(NO_TEMPLATE_FOR_REGENERATION)
  {
    assert HasKey(db.users, UserKey, userId);
  }

  /** Regeneration draws the stored record with the owner's most recent
      template. */
  lemma RegenerateRedrawsWithLatestTemplate(db: Database, certificateId: string, userId: string, env: Env)
    requires db.FindCertificateById(certificateId).Some?
    requires db.FindCertificateById(certificateId).value.certificate.userId == userId
    requires GetUserTemplates(db, userId) != []
    ensures var c := db.FindCertificateById(certificateId).value.certificate;
      var user := db.FindUserById(userId).value;
      RegenerateCertificate(db, certificateId, userId, env) ==
        match RenderPdf(c.participantName, c.eventName, user.organizationName, c.id,
                        GetUserTemplates(db, userId)[0], env)
        case Failure(e) => Failure(e)
        case Success(pdf) => Success(Some(Regenerated(pdf, c)))
  {
    var found := db.FindCertificateById(certificateId).value;
    assert HasKey(db.users, UserKey, userId);
  }

  /** `previewCertificate`: the default name and event stand in only for
      absent arguments; the image carries a `preview-` id. */
  function PreviewCertificate(db: Database, userId: string, templateId: string, participantName: Option<string>,
                              eventName: Option<string>, previewUuid: string, now: int, env: Env)
    : (r: Result<Bytes>)
    reads db
    requires db.Valid()
    ensures !HasKey(db.users, UserKey, userId) ==> r == Failure(USER_NOT_FOUND)
    ensures HasKey(db.users, UserKey, userId) && ResolveTemplate(db, userId, templateId, now).None? ==>
              r == Failure(TEMPLATE_NOT_FOUND)
    ensures HasKey(db.users, UserKey, userId) && ResolveTemplate(db, userId, templateId, now).Some? ==>
      r == GenerateCertificateImage(participantName.GetOr(DEFAULT_PREVIEW_NAME), eventName.GetOr(DEFAULT_PREVIEW_EVENT),
                                    db.FindUserById(userId).value.organizationName, PREVIEW_ID_PREFIX + previewUuid,
                                    ResolveTemplate(db, userId, templateId, now).value,
                                    env.cwd, env.domain, env.encodePng, env.img)
  {
    match GetUserById(db, userId)
    case None => Failure(USER_NOT_FOUND)
    case Some(user) =>
      match ResolveTemplate(db, userId, templateId, now)
      case None => Failure(TEMPLATE_NOT_FOUND)
      case Some(t) =>
        GenerateCertificateImage(participantName.GetOr(DEFAULT_PREVIEW_NAME), eventName.GetOr(DEFAULT_PREVIEW_EVENT),
                                 user.organizationName, PREVIEW_ID_PREFIX + previewUuid, t,
                                 env.cwd, env.domain, env.encodePng, env.img)
  }
}
