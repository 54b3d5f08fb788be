# Certificate generator: a verified model in Dafny

This project models the core of a certificate-generation web service written in TypeScript. Its users hold a free or premium account. They pick a built-in design or upload their own template, and issue certificates to lists of participants, typed in or read from a CSV file. Each certificate is rendered to an image with a QR code, converted to PDF, and bundled into a ZIP archive per batch. Anyone can verify a certificate by its identifier through an API, a web page or a bulk request.

The model has one Dafny module per source file, plus four shared helper modules that have no source file of their own: `Wrappers` (the `Option` and `Result` types), `Bytes`, `JsValues` (JSON values and JavaScript's conversions) and `Strings`. In outline:

- The in-memory store (`Store`) follows the query classes of `src/database/queries.ts`. Each table is a sequence field of the `Database` class, and the inserts and updates are methods.
- The batch pipeline (`CertificateService`) is an imperative method. It is proved against a tail-recursive specification function, and its properties are lemmas about that function.
- The pure rules are functions with lemmas. They cover quota and account checks (`Auth`), identifier checks and verification (`VerificationService`), template resolution and image signatures (`TemplateService`), CSV name extraction (`CsvParser`), archive naming (`ZipCreator`), SVG escaping and layout (`ImageProcessor`), PDF guards and chunking (`PdfGenerator`), the verification link (`QrCode`), the request rule engine (`Validation`) and the error classifier (`ErrorHandler`).
- The HTTP handlers (`CertificateRoutes`, `TemplateRoutes`, `VerificationRoutes`, `CertificateBuilder`) map service outcomes to replies.
- The seeder (`Seed`) loops over the catalog of built-in designs.

Outside dependencies become parameters:

- The image, PDF, ZIP and QR libraries are functions that return bytes or fail.
- The identifiers that the database and `uuidv4` mint are given values.
- The clock is one given time per call.
- File existence is a given predicate.

## Model

| member | source | states |
|---|---|---|
| JsValues.OrElse | src/routes/certificates.ts:177-178 | `o \|\| fallback` on an optional string gives the string when it is non-empty, the fallback otherwise |
| JsValues.StringToNumber | src/middleware/validation.ts:44 | `Number` of a blank string is 0 |
| JsValues.ParseIntOr | src/routes/templates.ts:147-149 | `parseInt(v) \|\| fallback`: an absent field, NaN and 0 all give the fallback, any other parsed value is kept |
| JsValues.ParseIntOfDecimal | src/routes/certificates.ts:177-178 | `parseInt` reads back the decimal rendering of every natural number |
| JsValues.NumberOfDecimal | src/routes/templates.ts:82-84 | `Number` reads back the decimal rendering of every natural number |
| Constants.StatusName | src/config/constants.ts:62-66 | each batch status is stored as one of 'processing', 'completed', 'failed' |
| ErrorHandler.HandleError | src/middleware/errorHandler.ts:4-49 | the checks apply in order (validation 400, auth 401, size 413, conflict 409, else 500), each status exactly when its check holds and every earlier one fails; the 500 message is the error's own only in development |
| ErrorHandler.DuplicateKeyIsConflict | src/middleware/errorHandler.ts:17-41 | the store's duplicate-key error becomes 409 'Conflict', unless its text also mentions a token, which the earlier auth check catches as 401 |
| QrCode.VerificationUrl | src/utils/qrCodeGenerator.ts:50-52 | the link starts with the domain and '/verify/', and what follows is exactly the id |
| QrCode.VerificationUrlInjective | src/utils/qrCodeGenerator.ts:50-52 | different ids get different links |
| QrCode.GenerateQRCode | src/utils/qrCodeGenerator.ts:6-26 | the PNG the encoder gives for the verification link of the id, or 'Failed to generate QR code' exactly when it fails |
| QrCode.GenerateQRCodeDataURL | src/utils/qrCodeGenerator.ts:28-48 | the data URL of the same link, or 'Failed to generate QR code data URL' exactly when the encoder fails |
| Auth.SanitizeUser | src/services/authService.ts:76-84 | the client view copies exactly id, email, organisation name, counter and premium flag |
| Auth.SanitizeHidesSecrets | src/services/authService.ts:76-84 | two users that differ only in password hash or timestamps look identical to clients |
| Auth.CanGenerateCertificates | src/services/authService.ts:57-70 | an unknown user is refused, a premium user always passes, a free user passes iff counter + count <= 10 |
| Auth.QuotaMonotone | src/services/authService.ts:68-69 | asking for fewer certificates never turns an allowed request down |
| Auth.ChargeAfterGateStaysWithinLimit | src/services/authService.ts:68-74 | a free user who passed the gate and is charged the same count stays within the free tier |
| Auth.IncrementCertificateCount | src/services/authService.ts:72-74 | the matching user's counter grows by exactly `count`; every other user is untouched |
| Auth.ValidateEmail | src/services/authService.ts:86-89 | true iff the address matches the pattern: one '@' with text before it, a '.' with text on both sides after it, no whitespace |
| Auth.ValidatePassword | src/services/authService.ts:91-105 | valid iff length >= 8 and a lowercase letter, an uppercase letter and a digit are present; otherwise the message of the first failing check, in that order |
| Auth.GetUserById | src/services/authService.ts:49-55 | null exactly for an unknown id; otherwise the sanitised view of a stored user row with that id |
| Auth.Register | src/services/authService.ts:10-28 | succeeds exactly when the e-mail is not on file and the new id is free; an e-mail already on file is refused and nothing is written; on success one user row with a zero counter is appended and returned sanitised |
| Auth.Login | src/services/authService.ts:30-47 | succeeds iff the e-mail exists and the password matches; both failures give the same message and write nothing; on success the user table is the old one with that user's last login set to the clock |
| CertificateBuilder.FirstUnits | src/routes/certificateBuilder.ts:595 | `slice(0, n)` on whole characters: the longest prefix of whole characters that fits in n UTF-16 units; a slice ending inside a surrogate pair stops before that character |
| CertificateBuilder.UnderscoreChar | src/routes/certificateBuilder.ts:176 | the replacement of one character keeps its UTF-16 length |
| CertificateBuilder.UnderscoreFacts | src/routes/certificateBuilder.ts:176 | the replacement keeps the UTF-16 length and leaves only ASCII letters, digits and underscores |
| CertificateBuilder.UnderscoreIdempotent | src/routes/certificateBuilder.ts:176 | replacing twice gives the same as replacing once |
| CertificateBuilder.DownloadFilename | src/routes/certificateBuilder.ts:176 | the download name has the length of recipient + '_' + title + '.pdf' and holds only letters, digits and underscores |
| CertificateBuilder.DownloadFilenameShape | src/routes/certificateBuilder.ts:176 | the name is the replaced recipient (or 'Certificate'), '_', the replaced title (or 'Certificate'), then '_pdf' |
| CertificateBuilder.DownloadNamesCollide | src/routes/certificateBuilder.ts:176 | recipients differing only in a space versus a hyphen download under the same name |
| CertificateBuilder.GetBorderDesign | src/routes/certificateBuilder.ts:522-564 | 'ornate' gives the frame; 'modern' gives a border iff the template is one of the four known ones; any other style gives none |
| CertificateBuilder.ClassOf | src/routes/certificateBuilder.ts:569-579 | a record lookup gives the record's class for a key inside it and `undefined` for an absent key or one outside it |
| CertificateBuilder.KnownLogoClasses | src/routes/certificateBuilder.ts:569-579 | exactly the three known positions and the three known sizes have a class |
| CertificateBuilder.GetLogo | src/routes/certificateBuilder.ts:566-600 | no logo iff switched off; the image iff one is given; otherwise initials from the first two units of the text, and a TypeError when there is no text |
| CertificateBuilder.InitialsArePrefix | src/routes/certificateBuilder.ts:595 | the initials are at most two characters, a prefix of the logo text |
| CertificateBuilder.GetBadge | src/routes/certificateBuilder.ts:602-634 | no badge iff switched off; a known icon name is kept, any other falls back to 'award' |
| CertificateBuilder.PreviewFonts | src/routes/certificateBuilder.ts:211-239 | 'serif' selects Georgia, the Brush Script face and a normal weight for the name; anything else Arial for both, in bold |
| CertificateBuilder.PreviewCertificate | src/routes/certificateBuilder.ts:81-99 | without a body, 500 'Preview generation failed' with the destructuring TypeError of `getBorderDesign`; otherwise the preview combines border, logo, badge and fonts, and fails with status 500 exactly when the logo cannot be drawn |
| CertificateBuilder.IdLabel | src/routes/certificateBuilder.ts:515 | a label exactly when the id is truthy: 'ID: ' and its first eight units |
| CertificateBuilder.PageOf | src/routes/certificateBuilder.ts:252-515 | every `||` of the printable page: a truthy colour, title, recipient, description, date, signature, logo or QR image is placed as given, a falsy one becomes its default; plus the font and the id label |
| CertificateBuilder.IdLabelOfUuid | src/routes/certificateBuilder.ts:515 | for a minted id the label is 'ID: ' and its first eight characters |
| CertificateBuilder.DownloadPdfOptions | src/routes/certificateBuilder.ts:159-171 | the download passes exactly the six listed conversion options |
| CertificateBuilder.DownloadOptionsWin | src/routes/certificateBuilder.ts:159-171 | merged with the conversion defaults, the download's options are kept unchanged |
| CertificateBuilder.DownloadCertificate | src/routes/certificateBuilder.ts:133-196 | the PDF is served iff there is a body and the QR code and the conversion succeed, under the sanitised name; otherwise status 500 with the thrown message, which without a body is the TypeError of reading `recipientName` after the page was rendered from defaults |
| CertificateBuilder.SpreadConfig | src/routes/certificateBuilder.ts:148-152 | the spread configuration is the body's, or one with no truthy field when there is no body |
| CertificateBuilder.DownloadShowsMintedId | src/routes/certificateBuilder.ts:140-153 | the page shows the QR code of the minted id and a label naming the same id |
| CertificateBuilder.UploadLogo | src/routes/certificateBuilder.ts:44-78 | 400 iff no file; otherwise a data URL of the file's MIME type followed by its Base64 text |
| Store.FindByKey | src/database/queries.ts:105-114 | a found row is in the table and carries the key; nothing is found exactly when no row has the key |
| Store.FindByKeyUnique | src/database/queries.ts:105-114 | with unique primary keys, looking up a row's own key finds that row |
| Store.Page | src/database/queries.ts:144-153 | `LIMIT limit OFFSET offset`: the page has the size the clause allows and its rows are the rows from the offset on, in order |
| Store.SortByName | src/database/queries.ts:38-42 | `ORDER BY name`: the result is sorted by name and a permutation of its input |
| Store.JoinDefault | src/database/queries.ts:105-114 | the LEFT JOIN keeps the template and fills the default's name and base image exactly when the template names a default that exists |
| Store.WithStatus | src/database/queries.ts:178-189 | only status, file path and completion time change; a falsy path is stored as null and `completed_at` is stamped only for 'completed' |
| Store.Database.constructor | src/database/queries.ts:1-205 | the store starts with every table empty and valid |
| Store.Database.CreateUser | src/database/queries.ts:4-12 | on a fresh id the account is appended with a zero counter and not premium; a repeated key fails with the duplicate-key error and writes nothing |
| Store.Database.FindUserByEmail | src/database/queries.ts:14-18 | a found user has that e-mail; none is found only when no user has it |
| Store.Database.FindUserById | src/database/queries.ts:20-24 | a found user has that id; none is found exactly when no user has it |
| Store.Database.UpdateCertificateCount | src/database/queries.ts:26-29 | adds `count` to that user's counter, keeping every other row and field |
| Store.Database.UpdateLastLogin | src/database/queries.ts:31-34 | stamps that user's last login with the clock, keeping every other row and field |
| Store.Database.AllDefaultTemplates | src/database/queries.ts:38-42 | exactly the active default templates, sorted by name |
| Store.Database.FindDefaultTemplateById | src/database/queries.ts:44-48 | only an active row is found; nothing is found when the row with that id is inactive or missing |
| Store.Database.HasDefaultTemplateNamed | src/database/seed.ts:93-96 | true exactly when some row, active or not, carries the name |
| Store.Database.CreateDefaultTemplate | src/database/queries.ts:50-68 | on a fresh id appends the row the query builds with its `||` defaults; a repeated key fails and writes nothing |
| Store.DefaultTemplateRecord | src/database/queries.ts:50-68 | a falsy font size, font colour or primary colour becomes 48, '#000000' or '#2563eb'; the name, both image paths and the text position are copied, and the row is active |
| Store.Database.CreateTemplate | src/database/queries.ts:71-91 | on a fresh id appends a row storing exactly the given fields, stamped with the clock; a repeated key fails and writes nothing |
| Store.Database.FindTemplateById | src/database/queries.ts:105-114 | a found row is that template with its join; nothing is found exactly when no template has that id |
| Store.Database.TemplatesByUserId | src/database/queries.ts:93-103 | one row per template of the user, every one of them listed, newest first, each joined with its default template |
| Store.Database.CreateCertificate | src/database/queries.ts:118-131 | on a fresh id appends an active certificate with user, participant, event and batch as given; a repeated key fails and writes nothing |
| Store.Database.FindCertificateById | src/database/queries.ts:133-142 | a found certificate is active, has that id, and carries its owner's organisation name; an unknown id finds nothing; with distinct keys, an active certificate whose owner exists is always found |
| Store.Database.CertificatesByUserId | src/database/queries.ts:144-153 | at most `limit` certificates, each an active certificate of the user |
| Store.Database.CertificatesByBatchId | src/database/queries.ts:155-159 | exactly the active certificates carrying that batch id |
| Store.Database.CreateBatch | src/database/queries.ts:163-176 | on a fresh id appends a batch whose status defaults to 'processing'; a repeated key fails and writes nothing |
| Store.Database.UpdateBatchStatus | src/database/queries.ts:178-189 | every row with that id is rewritten by the status update, the others are kept, and the updated row is returned |
| Store.Database.FindBatchById | src/database/queries.ts:201-205 | a found batch has that id; nothing is found exactly when no batch has it |
| Store.Database.BatchesByUserId | src/database/queries.ts:191-199 | exactly the user's batches |
| Store.ActiveOfBatchMembers | src/database/queries.ts:155-159 | a certificate is listed for a batch exactly when it is in the table, carries that batch id and is active |
| Store.ActiveOfBatchAppend | src/database/queries.ts:155-159 | the active certificates of a batch in two tables joined are those of each table, joined |
| Seed.Entry | src/database/seed.ts:4-85 | a catalog entry's preview and base image are the same file under the default-templates image directory |
| Seed.Row | src/database/seed.ts:101-116 | the inserted row carries the minted id, is active, and copies every one of the eight catalog columns |
| Seed.InsertMatchesQuery | src/database/seed.ts:101-116 | for an entry with no falsy value, the seeder's own INSERT and the template query's create store the same row |
| Seed.CatalogFacts | src/database/seed.ts:4-85 | the catalog has eight entries, none with a falsy value, no two with the same name |
| Seed.SeedFrom | src/database/seed.ts:91-123 | a run only appends rows: the table it leaves starts with the table it found |
| Seed.SeedDefaultTemplates | src/database/seed.ts:87-130 | the store ends as the seeding loop leaves it; the run fails exactly when an insert throws, with the duplicate-key error, and on success returns exactly the rows it appended |
| Seed.SeedAddsEveryName | src/database/seed.ts:91-123 | a run that does not throw leaves every catalog name present in the table |
| Seed.SeedInsertsOnlyAbsent | src/database/seed.ts:93-99 | every added row is a catalog entry's row with that entry's id, and its name was absent before the run |
| Seed.SeedIdempotent | src/database/seed.ts:93-99 | when every catalog name is already present, a run changes nothing and does not throw |
| Seed.SecondRunInsertsNothing | src/database/seed.ts:87-130 | seeding a second time after a successful run inserts nothing and cannot throw |
| Seed.CatalogRows | src/database/seed.ts:4-85 | the rows of the remaining catalog entries, entry by entry with their ids |
| Seed.SeedEmptyTable | src/database/seed.ts:87-130 | seeding an empty table with distinct ids inserts the whole catalog in order and does not throw |
| Seed.SeedInsertsAllAbsent | src/database/seed.ts:91-123 | when no remaining name or id is in the table and the ids are distinct, every remaining entry is inserted, in order, and the run does not throw |
| Strings.Trim | src/utils/csvParser.ts:22 | `trim()` leaves nothing or a string that neither starts nor ends with whitespace, no longer than the input |
| Strings.TrimDropsOnlyWhitespace | src/utils/csvParser.ts:38-39 | what `trim()` keeps is a contiguous part of the input, and everything before and after it is whitespace |
| Strings.TrimmedAtStart | src/utils/csvParser.ts:38-39 | a part of the input reached by dropping leading whitespace and then trailing whitespace has only whitespace around it |
| Strings.TrimEmptyIffBlank | src/utils/csvParser.ts:38 | trimming leaves nothing exactly when the name holds only whitespace |
| Strings.TrimIdempotent | src/utils/csvParser.ts:38-39 | trimming a trimmed name changes nothing |
| Strings.IndexOf | src/services/authService.ts:86-89 | the first position of the character, or none when it does not occur |
| Strings.Join | src/middleware/validation.ts:106 | joining no parts gives the empty string and one part gives that part |
| Strings.JoinAppend | src/middleware/validation.ts:106 | appending a part to a non-empty list extends the joined string by the separator and that part, so every error message is followed by `, ` and the next |
| CsvParser.TrimmedName | src/utils/csvParser.ts:21-25 | a cell yields a name iff its trimmed text is non-empty, and the name is that trimmed text |
| CsvParser.FirstCellName | src/utils/csvParser.ts:19-25 | a headerless row yields its first cell trimmed, unless the row is empty or that cell is blank |
| CsvParser.CollectFirstCellNames | src/utils/csvParser.ts:16-30 | the per-row callback, run over every row, collects exactly the first-cell names in row order |
| CsvParser.DedupIsSet | src/utils/csvParser.ts:37 | `[...new Set(s)]` has no repeats and holds exactly the values of `s` |
| CsvParser.DedupKeepsFirstOccurrenceOrder | src/utils/csvParser.ts:37 | values keep the order of their first appearance |
| CsvParser.FirstIndex | src/utils/csvParser.ts:37 | the first position of a value in a sequence |
| CsvParser.CleanNames | src/utils/csvParser.ts:38-39 | the final filter and trim leaves only non-empty trimmed names |
| CsvParser.CleanNamesKeepsTrimmed | src/utils/csvParser.ts:38-39 | on names already trimmed and non-empty the final clean-up changes nothing |
| CsvParser.FirstCellNamesAreTrimmed | src/utils/csvParser.ts:21-25 | every collected name is non-empty and trimmed |
| CsvParser.ParsedNames | src/utils/csvParser.ts:6-47 | the resolved names have no repeats, are non-empty and trimmed, are exactly the collected first-cell names, and keep the order of their first appearance |
| CsvParser.ParsedNamesComeFromFirstCells | src/utils/csvParser.ts:19-24 | every parsed name is the trimmed first cell of some row |
| CsvParser.ParseParticipantNames | src/utils/csvParser.ts:6-47 | a tokeniser error rejects with 'CSV parsing failed: ' and its message; otherwise the parsed names |
| CsvParser.Lookup | src/utils/csvParser.ts:61 | `data[key]` is the value of the column with that header, undefined when there is none |
| CsvParser.FirstTruthy | src/utils/csvParser.ts:61 | `a \|\| b` on optional strings gives the first truthy operand |
| CsvParser.HeaderRowName | src/utils/csvParser.ts:61-77 | a name from a row with headers is non-empty and trimmed |
| CsvParser.BlankNameDoesNotFallBack | src/utils/csvParser.ts:61-77 | a whitespace-only name column drops the row even when the first column holds a name |
| CsvParser.HeaderRowNamesAreTrimmed | src/utils/csvParser.ts:63-76 | every name collected from rows with headers is non-empty and trimmed |
| CsvParser.ParsedHeaderNames | src/utils/csvParser.ts:87-92 | the names the header variant resolves with have no repeats, are non-empty and trimmed, are exactly the collected names, and keep the order of their first appearance |
| CsvParser.ParseParticipantNamesWithHeaders | src/utils/csvParser.ts:49-98 | a tokeniser error rejects with its message; otherwise exactly the header names, each once, in first-occurrence order |
| CsvParser.ValidateCsvFormat | src/utils/csvParser.ts:100-131 | the error message, 'CSV file is empty' and 'no valid participant names' in that order; valid iff some cell of some row is non-blank, with the row count |
| CsvParser.ValidButParsesEmpty | src/utils/csvParser.ts:19-114 | validation looks at every column and parsing only at the first, so a file whose only name is in column two validates yet parses to no names |
| CsvParser.SampleFacts | src/utils/csvParser.ts:133-143 | the sample joins with line breaks five distinct names, each non-blank, without a line break and without whitespace at either end |
| CsvParser.CreateSampleCsvWithHeaders | src/utils/csvParser.ts:145-156 | the sample with headers is the 'name' header line followed by the headerless sample |
| ZipCreator.DropDisallowed | src/utils/zipCreator.ts:105 | the first replacement leaves only letters, digits, whitespace and hyphens, and never lengthens the name |
| ZipCreator.CollapseFacts | src/utils/zipCreator.ts:105 | after the first replacement, collapsing whitespace leaves only letters, digits, '_' and '-', never two '_' in a row, and empties only an empty string |
| ZipCreator.Sanitize | src/utils/zipCreator.ts:100-105 | a sanitised name holds only letters, digits, '_' and '-', with no two '_' in a row |
| ZipCreator.SanitizeKeepsVisible | src/utils/zipCreator.ts:105 | the letters, digits and hyphens of a name all survive, in their order |
| ZipCreator.SanitizeFixesVisible | src/utils/zipCreator.ts:105 | a name made of letters, digits and hyphens only is left unchanged |
| ZipCreator.SanitizeSpace | src/utils/zipCreator.ts:105 | example: 'a b' becomes 'a_b' |
| ZipCreator.SanitizeUnderscore | src/utils/zipCreator.ts:105 | example: an underscore typed in a name is deleted: 'a_b' becomes 'ab' |
| ZipCreator.SanitizeNotIdempotent | src/utils/zipCreator.ts:105 | sanitising twice differs from once: the '_' written for a space is deleted by a second pass |
| ZipCreator.SanitizeDoubleSpaceBang | src/utils/zipCreator.ts:105 | example: 'a  b!' loses the '!' and its run of spaces becomes one '_' |
| ZipCreator.EqualNamesCollide | src/utils/zipCreator.ts:104-110 | two different participant names can give the same entry name, and nothing keeps their entries apart |
| ZipCreator.EntryName | src/utils/zipCreator.ts:105-107 | an entry name is the sanitised participant name followed by '_certificate.pdf' |
| ZipCreator.TimestampPart | src/utils/zipCreator.ts:99 | the ISO time with every ':' and '.' replaced, same length, other characters kept |
| ZipCreator.ZipFileName | src/utils/zipCreator.ts:101 | the file name starts with 'certificates_' and ends with '.zip' |
| ZipCreator.ZipPath | src/utils/zipCreator.ts:102 | the archive lies under the working directory's 'certificates' directory |
| ZipCreator.CertificateEntries | src/utils/zipCreator.ts:104-110 | one entry per certificate, in order, named by its participant and holding its PDF |
| ZipCreator.CreateZipFromBuffers | src/utils/zipCreator.ts:52-92 | the archive holds exactly the given entries, in order |
| ZipCreator.CreateCertificateZip | src/utils/zipCreator.ts:94-114 | returns the archive path, and the archive holds one entry per certificate, named by its participant and holding its PDF |
| ZipCreator.AfterLastSlash | src/utils/zipCreator.ts:36 | the longest suffix without '/', preceded by a '/' when shorter than the path |
| ZipCreator.Basename | src/utils/zipCreator.ts:36 | a base name holds no '/' |
| ZipCreator.BasenameOfJoin | src/utils/zipCreator.ts:36 | the base name of 'dir/name' is 'name' |
| ZipCreator.FileEntries | src/utils/zipCreator.ts:33-41 | at most one entry per listed file |
| ZipCreator.FileEntryFacts | src/utils/zipCreator.ts:33-41 | every entry comes from a listed file that exists and is named by its base name |
| ZipCreator.AllFilesPresent | src/utils/zipCreator.ts:33-41 | when every file exists, every file gets an entry |
| ZipCreator.CreateZipFromFiles | src/utils/zipCreator.ts:7-50 | the archive holds the entries of the existing files, in order, missing files skipped |
| ZipCreator.Utf8RoundTrip | src/utils/zipCreator.ts:135 | decoding the UTF-8 bytes of a character gives the character back |
| ZipCreator.PercentBytes | src/utils/zipCreator.ts:135 | three characters per byte, all '%' or upper-case hex digits |
| ZipCreator.PercentBytesRoundTrip | src/utils/zipCreator.ts:135 | reading the escapes back gives the bytes |
| ZipCreator.EncodeUriComponent | src/utils/zipCreator.ts:135 | the encoding holds only unreserved characters and '%' |
| ZipCreator.EncodeCharRoundTrip | src/utils/zipCreator.ts:135 | each escaped character's escapes decode to its own code point |
| ZipCreator.EncodeFixesUnreserved | src/utils/zipCreator.ts:135 | a string of unreserved characters is not changed |
| ZipCreator.RelativePath | src/utils/zipCreator.ts:134 | for a path under the working directory, the directory, '/' and the result give the path back |
| ZipCreator.GenerateDownloadUrl | src/utils/zipCreator.ts:133-136 | the link is the domain, '/download/', and one segment with no '/' |
| ZipCreator.DownloadUrlOfZip | src/utils/zipCreator.ts:99-136 | the download link of a certificate archive encodes 'certificates/<batch>/<file name>' |
| ImageProcessor.EscapeTextIsPerCharacter | src/utils/imageProcessor.ts:145-150 | because '&' is replaced first, the chain of five replacements equals one per-character escaping pass |
| ImageProcessor.EscapeTextHasNoMarkup | src/utils/imageProcessor.ts:145-150 | escaped text holds no raw '<', '>', '"' or apostrophe |
| ImageProcessor.EscapeRoundTrip | src/utils/imageProcessor.ts:145-150 | decoding the five entities gives back the original text |
| ImageProcessor.RoundHalfUp | src/utils/imageProcessor.ts:50 | `Math.round` is the nearest integer with halves rounded up |
| ImageProcessor.RoundSixTenths | src/utils/imageProcessor.ts:50 | the integer formula equals `Math.round(fontSize * 0.6)` |
| ImageProcessor.RoundHalf | src/utils/imageProcessor.ts:60 | the integer formula equals `Math.round(fontSize * 0.5)` |
| ImageProcessor.CreateTextSvg | src/utils/imageProcessor.ts:136-165 | the text element carries text that decodes to the input and holds no markup character |
| ImageProcessor.OrDefault | src/utils/imageProcessor.ts:29-30 | a missing or zero dimension falls back to the default |
| ImageProcessor.LayoutPlacement | src/utils/imageProcessor.ts:36-116 | event line 80 above at 0.6 size, the name at the template position and size, organisation line 60 below at half size, the QR code 150 from the bottom-right corner, and the logo at top 30, centred |
| ImageProcessor.GenerateCertificateImage | src/utils/imageProcessor.ts:17-134 | every failure is the fixed 'Failed to generate certificate image'; success needs a resolvable image path and a QR code |
| ImageProcessor.CertificateImageFacts | src/utils/imageProcessor.ts:101-128 | once the image path, dimensions and QR code are resolved, the image is the composite of the layout: the QR code of the certificate's verification URL, and the fitted logo when the template names one that loads; an absent logo or one that fails to load is left out without failing the image |
| ImageProcessor.ValidateImageDimensions | src/utils/imageProcessor.ts:197-221 | valid iff the metadata was read, both dimensions are non-zero and at least the minimum; a read error and missing dimensions give their messages |
| ImageProcessor.EscapeAmpersand | src/utils/imageProcessor.ts:146 | '&' becomes '&amp;' |
| ImageProcessor.EscapeLess | src/utils/imageProcessor.ts:147 | '<' becomes '&lt;' |
| ImageProcessor.EscapeGreater | src/utils/imageProcessor.ts:148 | '>' becomes '&gt;' |
| ImageProcessor.EscapeQuote | src/utils/imageProcessor.ts:149 | '"' becomes '&quot;' |
| ImageProcessor.EscapeApostrophe | src/utils/imageProcessor.ts:150 | an apostrophe becomes '&#39;' |
| ImageProcessor.EscapePlain | src/utils/imageProcessor.ts:145-150 | any other character is kept as it is |
| PdfGenerator.Subarray | src/utils/pdfGenerator.ts:164 | `subarray` is the range of the buffer, clipped to its length |
| PdfGenerator.ValidatePdfBuffer | src/utils/pdfGenerator.ts:161-165 | true iff the buffer has at least four bytes and they are `%PDF` |
| PdfGenerator.OptimizeKeepsPdf | src/utils/pdfGenerator.ts:155-159 | optimising changes neither the bytes nor the header check's verdict |
| PdfGenerator.DefaultPdfOptions | src/utils/pdfGenerator.ts:103-113 | the defaults set exactly format, landscape, backgrounds and margins |
| PdfGenerator.MergePdfOptions | src/utils/pdfGenerator.ts:115 | every key the caller gives wins; every other default key keeps its default |
| PdfGenerator.RunSession | src/utils/pdfGenerator.ts:6-126 | success iff the browser launched and the conversion produced bytes, which are returned; any failure is the method's fixed message; the browser is closed iff it was launched |
| PdfGenerator.GeneratePdfFromImage | src/utils/pdfGenerator.ts:6-89 | one session with the image conversion and the message 'Failed to generate PDF from image' |
| PdfGenerator.GeneratePdfFromHtml | src/utils/pdfGenerator.ts:91-126 | one session converting with the merged options and the message 'Failed to generate PDF from HTML' |
| PdfGenerator.ConvertAll | src/utils/pdfGenerator.ts:128-153 | a successful fan-out has one result per item; a failed one rethrows the conversion error |
| PdfGenerator.ConvertAllFacts | src/utils/pdfGenerator.ts:138-149 | the fan-out succeeds iff every conversion does, and result i pairs item i's participant with item i's PDF |
| PdfGenerator.ChunkBoundsPartition | src/utils/pdfGenerator.ts:134-136 | from any start before the item count, slices begin every five items, each ends where the next starts, the last ends at the item count, and only the last can be short |
| PdfGenerator.GenerateMultiplePdfs | src/utils/pdfGenerator.ts:128-153 | the slice-by-slice loop returns exactly the in-order fan-out |
| PdfGenerator.ConvertChunk | src/utils/pdfGenerator.ts:136-148 | converting one slice after the earlier items extends the in-order fan-out up to the slice's end; a failed conversion fails the whole call |
| PdfGenerator.FailureSpreads | src/utils/pdfGenerator.ts:148 | a failed conversion in any slice fails the whole call |
| TemplateService.WithDefault | src/services/templateService.ts:20-33 | the template is kept; a default template is attached exactly when the joined name is truthy, carrying the joined id, name and base image and the template's own text, font and colour fields |
| TemplateService.GetTemplateById | src/services/templateService.ts:37-56 | nothing exactly when no template has the id; otherwise that stored template, mapped |
| TemplateService.GetUserTemplates | src/services/templateService.ts:17-35 | one entry per template of the user, every one of them listed, newest first, each the joined row mapped to its default template |
| TemplateService.ChooseImagePath | src/services/templateService.ts:149-158 | a custom template's own image when it has one, else the default's base image, else 'Template image path not found' |
| TemplateService.ToFileSystemPath | src/services/templateService.ts:161-165 | a path under '/public/' becomes the working directory, '/', and the path without its leading slash; any other path is kept |
| TemplateService.ToFileSystemPathStable | src/services/templateService.ts:161-165 | converting a converted path again changes nothing when the working directory is not itself under '/public/' |
| TemplateService.GetTemplateImagePath | src/services/templateService.ts:149-166 | fails exactly when no image can be chosen; otherwise the chosen image converted to a file path |
| TemplateService.EveryByteMatches | src/services/templateService.ts:139 | true exactly when the buffer starts with the signature; a short buffer matches nothing longer |
| TemplateService.SomeSignatureMatches | src/services/templateService.ts:138-140 | true exactly when some signature matches |
| TemplateService.ValidateImageFile | src/services/templateService.ts:124-147 | too large fails first with the size message; otherwise succeeds exactly when the buffer starts with the JPEG, PNG, GIF or BMP signature, else the format message |
| TemplateService.ImageSignatureExamples | src/services/templateService.ts:130-146 | examples: a buffer under two bytes is refused as not an image; a PNG header passes |
| TemplateService.CreateTemplateFromDefault | src/services/templateService.ts:58-84 | an unknown or inactive default is refused with 'Default template not found' and nothing written; otherwise a 'default' template on it is appended with the customisation, no custom image, and the logo when truthy |
| TemplateService.CreateCustomTemplate | src/services/templateService.ts:86-106 | appends a 'custom' template on the uploaded image with the customisation, no default template, and the logo when truthy |
| TemplateService.GetDefaultSettings | src/services/templateService.ts:168-177 | the default template's colour, position and size fields, with the default font family |
| TemplateRoutes.TemplateById | src/routes/templates.ts:47-70 | 404 'Template not found' exactly when no template has the id; otherwise the mapped template |
| TemplateRoutes.DefaultTemplateSettings | src/routes/templates.ts:221-245 | 404 'Default template not found' exactly for an unknown or inactive default template; otherwise its settings |
| TemplateRoutes.PassedRequiredRule | src/routes/templates.ts:74 | a required rule that passed saw a value |
| TemplateRoutes.PassedStringRule | src/routes/templates.ts:74 | a required string rule that passed saw a string |
| TemplateRoutes.NoErrorsAt | src/routes/templates.ts:74 | when a rule set passes, each of its rules passes |
| TemplateRoutes.AcceptedBodyIsValidated | src/routes/templates.ts:74-85 | a body the customisation rules accept has string colours and family and present numeric fields, as the handler reads them |
| TemplateRoutes.AsInteger | src/routes/templates.ts:82-84 | the integer a `Number(...)` result stands for, exactly when it is a finite whole number |
| TemplateRoutes.NumericFields | src/routes/templates.ts:82-84 | the size and positions as integers, exactly when all three conversions give integers |
| TemplateRoutes.CustomizeFromDefault | src/routes/templates.ts:73-117 | a falsy base id gives 400 'Base template ID is required'; an unknown default gives 400 'Template customization failed' with 'Default template not found'; 201 exactly when the default exists, the numbers are integers and the id is fresh, and the template stored carries the body's colours, family, size and position; every refusal leaves the store unchanged |
| TemplateRoutes.FormField | src/routes/templates.ts:144-151 | a form field's value exactly when the field was sent |
| TemplateRoutes.UploadCustomization | src/routes/templates.ts:145-152 | a missing or empty text field takes its default; a missing, unparsable or zero position or size takes 512, 400 or the default size, so none is 0 |
| TemplateRoutes.ZeroPositionFallsBack | src/routes/templates.ts:147 | a position typed as '0' is replaced by 512 |
| TemplateRoutes.TypedPositionKept | src/routes/templates.ts:147 | a typed positive position is kept |
| TemplateRoutes.UploadCustomTemplate | src/routes/templates.ts:120-176 | no file gives 400 'No file uploaded'; a file the image check refuses gives 400 with the check's message; 201 exactly when the image passes, the save succeeds and the id is fresh, storing a custom template on the saved path with the form's customisation; every refusal leaves the store unchanged |
| TemplateRoutes.UploadLogo | src/routes/templates.ts:179-218 | no file gives 400 'No file uploaded'; saved exactly when the image passes the 5 MiB check and the save succeeds, answering the saved path; a refused image gives 400 'Logo upload failed' with the check's message |
| TemplateRoutes.LogoCapIsStricter | src/routes/templates.ts:196 | an image between 5 and 10 MiB is refused as a logo for its size, though it passes as a template image |
| Validation.ValidateBody | src/middleware/validation.ts:16-110 | on a present body, lets the request through exactly when no rule adds a message, otherwise 400 'Validation failed' with all messages, rule by rule, joined by ', '; on an absent body, throws the TypeError of reading the first rule's field (passes when there are no rules) |
| Validation.AbsentBodyIsServerError | src/middleware/validation.ts:18-22 | the TypeError thrown by reading a field of an absent body reaches the error handler as 500 'Internal server error' whenever the field name has none of the handler's keyword letters |
| Validation.GenerateWithoutBodyIs500 | src/middleware/validation.ts:18-22 | a generate request without a body gets status 500 from the error handler |
| Validation.RejectedIffSomeRuleFails | src/middleware/validation.ts:21-102 | the request is rejected exactly when some rule adds a message |
| Validation.NoErrorsIffAllPass | src/middleware/validation.ts:21-102 | no message at all exactly when every rule passes its field |
| Validation.RequiredMissingOnly | src/middleware/validation.ts:25-28 | a required field that is undefined, null or '' adds only '<field> is required' |
| Validation.OptionalAbsentSkipped | src/middleware/validation.ts:31-33 | an optional field that is undefined or null is not checked |
| Validation.OptionalEmptyStringChecked | src/middleware/validation.ts:25-70 | an optional field sent as '' is still checked and fails a positive minimum length |
| Validation.MinLengthZeroIgnored | src/middleware/validation.ts:68-73 | a minimum length of 0 is falsy and never enforced |
| Validation.NumericStringSkipsRange | src/middleware/validation.ts:43-84 | a decimal string passes a number rule and is never compared with min or max |
| Validation.CustomResults | src/middleware/validation.ts:92-99 | a custom check's string is added as it is, a falsy result adds '<field> is invalid', a truthy one nothing |
| Validation.LengthRulePasses | src/middleware/validation.ts:66-74 | a required string with both limits passes exactly when its UTF-16 length lies within them |
| Validation.StringRulePasses | src/middleware/validation.ts:25-42 | a required string passes exactly when it is not empty |
| Validation.ArrayRulePasses | src/middleware/validation.ts:58-62 | a required array passes, whatever it holds |
| Validation.ColorRulePasses | src/middleware/validation.ts:86-89 | a required colour passes exactly when it is '#' and six hex digits |
| Validation.RangeRulePasses | src/middleware/validation.ts:76-84 | a required number passes exactly when it lies within its bounds |
| Validation.EmailRulePasses | src/middleware/validation.ts:53-57 | a required e-mail passes exactly when the e-mail pattern matches |
| Validation.MinLengthRulePasses | src/middleware/validation.ts:66-70 | a required string with only a minimum passes exactly when it is that long |
| Validation.RegisterRulesAccept | src/middleware/validation.ts:112-116 | a registration passes exactly when the e-mail matches, the password has at least 8 units and the organisation 2 to 255 |
| Validation.LoginRulesAccept | src/middleware/validation.ts:118-121 | a login passes exactly when the e-mail matches and the password is not empty |
| Validation.GenerateRulesAccept | src/middleware/validation.ts:123-127 | a generate request passes exactly when the event name has 3 to 255 units and the template id is not empty |
| Validation.CustomizationRulesAccept | src/middleware/validation.ts:129-136 | a customisation passes exactly when both colours are '#RRGGBB', the family has 1 to 50 units, the size lies in [12, 200] and both positions are at least 0 |
| VerificationService.IsValidUUID | src/services/verificationService.ts:75-78 | true exactly when the string is the 8-4-4-4-12 hyphenation of 32 hex digits (either case) with version digit 1-5 and variant digit 8, 9, a or b |
| VerificationService.HyphenatedIsWellFormed | src/services/verificationService.ts:76 | every hyphenation of well-formed digits passes the pattern, position by position |
| VerificationService.HyphenateDigits | src/services/verificationService.ts:76 | every string passing the pattern is the hyphenation of its own digits, which are well formed |
| VerificationService.StripHyphenate | src/services/verificationService.ts:76 | removing the hyphens of a hyphenation gives the digits back |
| VerificationService.VerifyCertificate | src/services/verificationService.ts:6-46 | valid exactly when the id is well formed and the lookup found an active certificate; each refusal carries its own message (format, not found, revoked, lookup error) and no certificate |
| VerificationService.MalformedNeedsNoLookup | src/services/verificationService.ts:9-14 | a malformed id gets the same answer whatever the lookup would have returned |
| VerificationService.VerifyInStore | src/services/verificationService.ts:6-46 | against the store, valid exactly when the id is well formed and the store finds the certificate |
| VerificationService.RevokedIsUnreachable | src/services/verificationService.ts:26-31 | the revoked message is never produced against the store, because its lookup only sees active rows; a refused well-formed id reads as not found |
| VerificationService.IssuedCertificateVerifies | src/services/verificationService.ts:17-37 | an active certificate with a well-formed id whose owner exists verifies, and the answer carries that row and the owner's organisation |
| VerificationService.GetCertificateDetails | src/services/verificationService.ts:48-61 | nothing for a malformed id or a lookup that threw; otherwise what the lookup found |
| VerificationService.VerificationQRCodeText | src/services/verificationService.ts:100-102 | the same link the QR generator encodes, ending in the id |
| VerificationService.CheckRateLimit | src/services/verificationService.ts:122-126 | every address passes |
| VerificationService.FormatCertificateForDisplay | src/services/verificationService.ts:80-98 | the display record carries the participant, event, organisation and id of the certificate, and the rendering of its generation date |
| VerificationRoutes.ApiVerify | src/routes/verification.ts:9-70 | 429 exactly when the rate-limit check refuses, with nothing logged; otherwise one log line with the address and agent (or 'unknown'), and 200 with the formatted certificate exactly when the service verified it, else 404 with the service's message |
| VerificationRoutes.ApiVerifyWithServiceLimit | src/routes/verification.ts:15-59 | with the service's own limiter nothing is refused: 200 exactly for a well-formed id of an active certificate, 404 for everything else, and one log line |
| VerificationRoutes.VerifyPage | src/routes/verification.ts:73-114 | the page shows the service's verdict and message, and the formatted certificate exactly when it verified |
| VerificationRoutes.VerifyOne | src/routes/verification.ts:152-160 | one bulk item: the id, the service's verdict and message, and a certificate exactly when it verified |
| VerificationRoutes.BulkVerify | src/routes/verification.ts:132-179 | 500 'Bulk verification failed' / 'Please try again later' exactly for a request without a body; 400 'certificate_ids array is required' exactly for a missing or empty array, 400 for more than 100 ids, otherwise one result per id and the 'Verified n certificates' message |
| VerificationRoutes.BulkPreservesOrder | src/routes/verification.ts:151-162 | result i is the single-id answer for id i, carrying a certificate exactly when that id verified |
| CertificateService.ResolveTemplate | src/services/certificateService.ts:41-72 | the user template with that id wins; otherwise an active default template with that id, converted with its `default_*` text, font and colour fields and font family 'Arial'; otherwise none |
| CertificateService.RenderPdf | src/services/certificateService.ts:99-109 | drawing one certificate fails only with the image error or the PDF error |
| CertificateService.IssueFacts | src/services/certificateService.ts:85-115 | the loop creates record j for name j, in order, each record stays in the table even when the loop stops, and a completed loop has one record and one PDF per name |
| CertificateService.IssueErrors | src/services/certificateService.ts:88-115 | the loop stops only with the duplicate-key, image or PDF error |
| CertificateService.IssueCompletes | src/services/certificateService.ts:88-115 | the loop completes iff every minted certificate id is new and distinct and every name renders |
| CertificateService.IssueAll | src/services/certificateService.ts:85-115 | the imperative loop leaves exactly the table, records, PDFs and error of the loop's specification |
| CertificateService.MarkNewest | src/services/certificateService.ts:125-129 | setting the status of a newly inserted batch row rewrites that row alone |
| CertificateService.RunBatch | src/services/certificateService.ts:83-152 | the inner `try`: the loop, the archive, the completed row and the counter, or the failed row with no path, as one specification function |
| CertificateService.MarkBatch | src/services/certificateService.ts:125-130 | setting the final status of the newest batch row rewrites that row alone |
| CertificateService.ChargeUser | src/services/certificateService.ts:132 | the batch size is added to the caller's counter and to no other |
| CertificateService.GenerateCertificates | src/services/certificateService.ts:22-158 | result, archive and the three tables the call writes are those of its specification over the store before the call |
| CertificateService.QuotaRefusalWritesNothing | src/services/certificateService.ts:29-33 | a call the quota refuses throws the limit message and writes nothing |
| CertificateService.UnknownTemplateWritesNothing | src/services/certificateService.ts:41-72 | a template id found nowhere throws 'Template not found' before any batch or certificate row exists |
| CertificateService.LoopOf | src/services/certificateService.ts:88-115 | the loop of an admitted call appends its records to the table and creates at most one per name |
| CertificateService.SuccessfulGeneration | src/services/certificateService.ts:75-142 | on success: one active record per name in input order, all with the event name and the returned local batch id; the batch row is completed with the zip path and the raw name count; only this user's counter grows, by that count |
| CertificateService.FailedGeneration | src/services/certificateService.ts:144-152 | on failure after the batch row exists: the row is failed with no path, records already created remain active, no counter changes, and the error is one the loop or the archive raised |
| CertificateService.GenerationSucceedsIff | src/services/certificateService.ts:83-142 | an admitted call succeeds iff every minted id is fresh and distinct, every name renders, and the archive is written |
| CertificateService.ReturnedBatchIdMissesRow | src/services/certificateService.ts:75-142 | as written: the returned batch id finds no batch row, and none of the new records is listed under the batch row's id |
| CertificateService.GenerateCertificatesForRow | src/services/certificateService.ts:75-142 | the corrected call, which tags the records and names the archive with the batch row's own id |
| CertificateService.ReturnedRowIdFindsBatch | src/services/certificateService.ts:75-142 | corrected: the returned id finds the user's completed batch with the name count, and every new record is listed under it |
| CertificateService.CsvNames | src/services/certificateService.ts:166-178 | a file that fails validation throws the validator's message; the CSV path proceeds iff the file parses to at least one name, and then with exactly the parsed names |
| CertificateService.ValidatedWithoutNames | src/services/certificateService.ts:174-178 | a file that validates but parses to no names throws 'No valid participant names found in CSV file' |
| CertificateService.GenerateCertificatesFromCsv | src/services/certificateService.ts:160-191 | a refused file writes nothing; otherwise the call is exactly `generateCertificates` on the parsed names |
| CertificateService.DownloadBatchZip | src/services/certificateService.ts:209-231 | a download iff the batch exists, is the caller's, is completed, has a path and the file exists; its name is the path's basename |
| CertificateService.CompletedBatchDownloads | src/services/certificateService.ts:209-231 | the archive of a completed batch row is downloadable by its owner under its own file name |
| CertificateService.RegenerateCertificate | src/services/certificateService.ts:233-283 | null for an unknown, inactive or foreign certificate; a regenerated PDF comes with the looked-up record; the only errors are the missing template, image and PDF errors |
| CertificateService.RegenerateNeedsOwnTemplate | src/services/certificateService.ts:252-255 | an owner with no template of their own cannot regenerate |
| CertificateService.RegenerateRedrawsWithLatestTemplate | src/services/certificateService.ts:252-272 | regeneration draws the certificate with the owner's most recent template |
| CertificateService.PreviewCertificate | src/services/certificateService.ts:285-346 | an unknown user and an unknown template throw in that order; otherwise the image of the given or default name and event with a 'preview-' id |
| CertificateRoutes.GenerateRoute | src/routes/certificates.ts:10-38 | 201 with the service's result when generation succeeds, otherwise 400 'Certificate generation failed' with the thrown message; the store ends as the generation run leaves it, the service being called as written, with the `uuidv4` batch id and the store's row id kept apart |
| CertificateRoutes.GenerateFromCsvRoute | src/routes/certificates.ts:41-93 | no file gives 400 'No CSV file uploaded' and a missing event name or template id gives 400, both before anything is written; a CSV without names gives 400 with the parser's message; 201 only when every guard passed and names were read; for a file with names the reply and the tables are those of the as-written generation run on the parsed names (201 with its result, or 400 'CSV certificate generation failed' with its message) |
| CertificateRoutes.OwnedBatch | src/routes/certificates.ts:100-107 | the batch exactly when it exists and belongs to the caller |
| CertificateRoutes.BatchStatusRoute | src/routes/certificates.ts:96-120 | the caller's own batch with that id, or 404 'Batch not found' alike for an unknown id and another user's batch |
| CertificateRoutes.UserBatchesRoute | src/routes/certificates.ts:123-139 | exactly the caller's batches |
| CertificateRoutes.BatchCertificatesRoute | src/routes/certificates.ts:142-169 | answered exactly when the batch check passes, with exactly the active certificates carrying that batch id; otherwise 404 |
| CertificateRoutes.QueryNumber | src/routes/certificates.ts:177-178 | a missing or empty query field reads the default; otherwise the field is parsed |
| CertificateRoutes.ListCertificatesRoute | src/routes/certificates.ts:172-196 | listed exactly when limit and offset read as non-negative integers; at most `limit` certificates, each an active certificate of the caller, and exactly the store's page for the parsed limit and offset |
| CertificateRoutes.ListOfDecimals | src/routes/certificates.ts:176-183 | a limit and an offset given as decimal numbers reach the store query as exactly those numbers |
| CertificateRoutes.ListDefaults | src/routes/certificates.ts:177-178 | without a query the listing is the store's first 50 of the caller's certificates |
| CertificateRoutes.DownloadRoute | src/routes/certificates.ts:199-233 | a zip attachment named by the archive's base name exactly when the download is available; otherwise 404 'Download not available' |
| CertificateRoutes.RegeneratedFileName | src/routes/certificates.ts:254-260 | the attachment name is the same name the archive gives that participant's PDF |
| CertificateRoutes.RegenerateRoute | src/routes/certificates.ts:236-274 | 404 'Certificate not found' when the service finds nothing, 500 'Certificate regeneration failed' with the thrown message, otherwise the PDF under the participant's archive entry name |
| CertificateRoutes.PreviewRoute | src/routes/certificates.ts:277-316 | 500 'Certificate preview failed' with the destructuring TypeError for a request without a body; 400 'Template ID is required' for a falsy template id; otherwise the preview image, or 500 'Certificate preview failed' with the thrown message |

## Left out

- Image compositing and metadata (sharp), HTML-to-PDF rendering (puppeteer), ZIP streaming (archiver) and QR matrix encoding (qrcode) are function parameters that yield bytes or fail. Only the names, placements and guards around them are modelled.
- The CSV tokeniser (csv-parser) is not modelled: its output is given as rows of cells, or as the message of the error it raised.
- Password hashing and comparison (bcrypt) are a given hash and a matching predicate. JWT signing and verification, token extraction from headers and cookies, `src/middleware/auth.ts`, `src/routes/auth.ts` and the bootstrap in `src/app.ts` are not part of this model: they are session plumbing over libraries.
- SQL execution and the connection pool are not modelled. The store follows the query text in memory. The store errors it raises are the duplicate-key error of a repeated primary key, the integer-syntax error of the customisation route, and the failed listing query of `CertificateRoutes.ListCertificatesRoute` (`ListFailed`), which the source's query throws when `limit` or `offset` parses to NaN or a negative number.
- `ORDER BY created_at DESC` / `generated_at DESC` is reverse insertion order, because every row is stamped with the clock at insertion; ties between equal timestamps are not modelled. `ORDER BY name` uses code-point order instead of the database's collation.
- The clock, `uuidv4`, `Math.random` (in saved upload names), ISO timestamps and `toLocaleDateString` are parameters. One call reads one `now` for all its timestamps.
- Writing and deleting files is left out: `saveUploadedFile` is given as the path it returned or the error it threw, and `getZipFileSize`, `deleteZipFile` and the migrations runner are not modelled. File existence in `downloadBatchZip` and `createZipFromFiles` is a predicate parameter.
- The concurrent map of `Promise.all` (PDF chunks, bulk verification) is modelled as a sequential, order-preserving map.
- Floating point is not modelled. Template positions and sizes are integers, and `Math.round` of `0.6·n`, `0.5·n` and `(W-150)/2` is integer arithmetic. JSON numbers in request bodies are exact reals, with no IEEE-754 rounding or overflow.
- Strings are sequences of Unicode code points. `length` counts UTF-16 units through `Strings.Utf16Length`, but the regular expressions in the source are modelled for the characters they name; no case folding or normalisation is modelled.
- `path.join` and `path.relative` are modelled as joining with '/' and stripping the working directory; '..' segments, repeated slashes and paths outside the working directory are not normalised.
- The HTML, CSS and SVG markup of the builder, the QR overlay and the text overlay is not modelled: each helper yields the branch it takes and the values it places.
- Multipart parsing is not modelled: an upload is its file name, its bytes and the values of its other form fields.
- The error catch paths of the routes that cannot be reached are not modelled. The verification API's 500 reply and the verification page's error view are unreachable, because `verifyCertificate` and `logVerificationAttempt` catch everything themselves. The 500 'Download failed' reply of the download route could only come from a store failure, which the store model does not raise.
- The 'User not found' branch of `generateCertificates` is carried by the specification function `CertificateService.Planned` as a dead arm; the method `CertificateService.GenerateCertificates` omits it, because it cannot be reached: the quota check has already refused an unknown user.
- The statistics endpoint (`GET /api/certificates/:certificateId/stats`) and `getCertificateVerificationHistory` return a fixed placeholder and are not modelled. The landing page `GET /verify` renders a fixed view and is not modelled.
- `logVerificationAttempt` writes only to the console; the model records each call as a log entry instead.
- `src/routes/enhancedTemplates.ts` is not part of this model: it calls service methods that do not exist and is not registered by the application.
- CertificateRoutes.GenerateRoute: an element of `participant_names` that is not a string is not modelled; the names are a sequence of strings. The request validation checks only that the field is an array, so the source would accept such an element and later fail while rendering its image, answering 400.
- CertificateRoutes.PreviewRoute: a `participant_name`, `event_name` or `template_id` that is JSON `null` or not a string is not modelled; each field is an optional string. A `null` name or event skips the service's default parameter, and the source answers 500 'Certificate preview failed'.
- A request body that is JSON `null` or a non-object value is not modelled; only a present object body and an absent body are. For an absent body, `validateBody`, bulk verification, the certificate preview route and the builder's preview and download routes throw, and the model follows each to its reply.
- Validation rules with a `custom` function or a `pattern` other than the hex colour are opaque predicates.
- VerificationRoutes.IdOf: an element of `certificate_ids` that is not a string is checked as the empty, malformed id. JavaScript would first convert it to a string, and the reply would echo the original value.
- CertificateBuilder: every field of the request body is taken to be a string or absent. Other JSON values, which the source would print through template strings, are not modelled.
- CsvParser.HeaderRowName: a row with headers is given as the parsed object's properties, with distinct headers, in the order `Object.values` lists them; that order puts integer-like headers such as '2024' first, ascending, and is taken from the tokeniser's output rather than modelled. A name column called after an inherited `Object.prototype` member ('toString', 'constructor', …) that the row lacks is read as undefined, while the source would find the inherited function and fall back to the first column.
- CertificateBuilder.ClassOf: a `logoPosition` or `logoSize` naming an inherited `Object.prototype` member ('toString', 'constructor', '__proto__', …) is read as undefined; the source finds the inherited value and prints it into the class attribute.
- CertificateBuilder.GetBadge: a `badgeIcon` naming an inherited `Object.prototype` member falls back to 'award' in the model; in the source the inherited value is truthy, so it is printed in place of the icon.
- CertificateBuilder.FirstUnits: `slice(0, 2)` on the logo text and `substring(0, 8)` on the certificate id count UTF-16 units, so in the source a cut that falls inside a surrogate pair keeps a lone high surrogate (the initials of 'a😀' are 'a' followed by half of the emoji). The model stops before that character ('a'). The same gap reaches `CertificateBuilder.GetLogo`, `CertificateBuilder.InitialsArePrefix` and `CertificateBuilder.IdLabel`.
- TemplateRoutes.CustomizeFromDefault: the integer columns' 32-bit range is not modelled. A whole number outside [-2^31, 2^31-1], such as `text_x_position: 3000000000`, passes the customisation rules, and the source's insert then fails with PostgreSQL's out-of-range error, answering 400 'Template customization failed'; the model stores the template and answers 201. A JSON number the driver sends in exponent form (1e21 as '1e+21') is rejected by the source with a syntax error, which the model does not produce either. The model's integer-syntax message also omits PostgreSQL's `: "<value>"` suffix.
- TemplateRoutes.UploadCustomTemplate: the same 32-bit range is not modelled for the positions and font size that `parseInt` reads from the form: a long digit string is stored by the model, while the source's insert fails with the out-of-range error and the route answers 400.
- Store.Database.CertificatesByUserId: the contract states the page bound and that every row is an active certificate of the user. The newest-first order and the offset are in its definition through `Store.Page` and `Store.Reverse`, but are not restated in its own ensures.
- Store.Database.BatchesByUserId: the contract states membership, not the newest-first order, which is in its definition.
- Store.Database.FindUserByEmail: the contract states that a found user has the e-mail and that no user has it when none is found; which of several users with the same e-mail is found is not stated, because the model does not enforce the unique e-mail constraint.

## Findings

| source | as written | input that shows it | evidently intended | confidence | as-written member | corrected member |
|---|---|---|---|---|---|---|
| src/services/certificateService.ts:75-142 | the certificates are tagged with a locally minted `uuidv4` batch id, which is also returned and names the archive directory, while the batch row gets the id the database mints | any successful generation, where the minted id differs from the row's id: `GET /certificates/batch/<returned id>` answers 404, and listing the row's certificates finds none of the new ones | one id for the batch row, its certificates, its archive and the reply | not executed | CertificateService.ReturnedBatchIdMissesRow | CertificateService.ReturnedRowIdFindsBatch |
