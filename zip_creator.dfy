/** Naming and entry logic of src/utils/zipCreator.ts. The archiver stream,
    the file system and the clock are not modelled: an archive is the sequence
    of entries appended to it, file existence is a predicate parameter and the
    ISO timestamp is a string parameter. */
module ZipCreator {
  import opened Strings
  import opened Bytes

  /** An archive entry: its name inside the zip and its content. */
  datatype Entry = Entry(name: string, data: Bytes)

  /** An entry added from disk: its name and the path it is read from. */
  datatype FileEntry = FileEntry(name: string, source: string)

  const CERTIFICATE_SUFFIX: string := "_certificate.pdf"
  const ZIP_PREFIX: string := "certificates_"
  const DOWNLOAD_PATH: string := "/download/"

  // ---------------------------------------------------------------------
  // The sanitiser: `.replace(/[^a-zA-Z0-9\s-]/g, '').replace(/\s+/g, '_')`

  /** The characters the first replacement keeps. */
  predicate IsKept(c: char) { IsAsciiAlnum(c) || IsWhitespace(c) || c == '-' }

  /** The characters a sanitised name may hold. */
  predicate IsSafe(c: char) { IsAsciiAlnum(c) || c == '_' || c == '-' }

  /** Letters, digits and hyphens: what both replacements leave alone. */
  predicate IsVisible(c: char) { IsAsciiAlnum(c) || c == '-' }

  predicate NoDoubleUnderscore(s: string) {
    forall k :: 0 <= k < |s| - 1 ==> !(s[k] == '_' && s[k + 1] == '_')
  }

  /** First replacement: every character outside `[a-zA-Z0-9\s-]` is deleted. */
  function DropDisallowed(s: string): (r: string)
    ensures |r| <= |s|
    ensures forall k :: 0 <= k < |r| ==> IsKept(r[k])
  {
    if s == [] then []
    else (if IsKept(s[0]) then [s[0]] else []) + DropDisallowed(s[1..])
  }

  /** Second replacement: every maximal run of whitespace becomes one '_',
      written where the run ends. */
  function CollapseWhitespace(s: string): (r: string)
  {
    if s == [] then []
    else if IsWhitespace(s[0]) then
      (if |s| > 1 && IsWhitespace(s[1]) then [] else "_") + CollapseWhitespace(s[1..])
    else [s[0]] + CollapseWhitespace(s[1..])
  }

  /** What collapsing does to a string the first replacement produced. */
  lemma {:induction false} CollapseFacts(s: string)
    requires forall k :: 0 <= k < |s| ==> IsKept(s[k])
    ensures var r := CollapseWhitespace(s);
      && (forall k :: 0 <= k < |r| ==> IsSafe(r[k]))
      && NoDoubleUnderscore(r)
      && (r == [] <==> s == [])
      && (r != [] ==> (r[0] == '_' <==> IsWhitespace(s[0])))
  {
    if s != [] {
      CollapseFacts(s[1..]);
    }
  }

  /** The sanitiser applied to participant and event names. Its output uses
      only `[A-Za-z0-9_-]` and never holds two underscores in a row. */
  function Sanitize(s: string): (r: string)
    ensures forall k :: 0 <= k < |r| ==> IsSafe(r[k])
    ensures NoDoubleUnderscore(r)
  {
    var t := DropDisallowed(s);
    CollapseFacts(t);
    CollapseWhitespace(t)
  }

  /** The letters, digits and hyphens of a string, in order. */
  function Visible(s: string): (r: string)
  {
    if s == [] then [] else (if IsVisible(s[0]) then [s[0]] else []) + Visible(s[1..])
  }

  lemma {:induction false} VisibleAppend(a: string, b: string)
    ensures Visible(a + b) == Visible(a) + Visible(b)
  {
    if a == [] {
      assert a + b == b;
    } else {
      var ab := a + b;
      var head: string := if IsVisible(a[0]) then [a[0]] else [];
      assert ab[0] == a[0];
      assert ab[1..] == a[1..] + b;
      assert Visible(ab) == head + Visible(a[1..] + b);
      assert Visible(a) == head + Visible(a[1..]);
      VisibleAppend(a[1..], b);
    }
  }

  lemma {:induction false} VisibleOfDropDisallowed(s: string)
    ensures Visible(DropDisallowed(s)) == Visible(s)
  {
    if s != [] {
      var head := if IsKept(s[0]) then [s[0]] else [];
      VisibleAppend(head, DropDisallowed(s[1..]));
      VisibleOfDropDisallowed(s[1..]);
    }
  }

  lemma {:induction false} VisibleOfCollapse(s: string)
    ensures Visible(CollapseWhitespace(s)) == Visible(s)
  {
    if s != [] {
      if IsWhitespace(s[0]) {
        var head: string := if |s| > 1 && IsWhitespace(s[1]) then [] else "_";
        assert CollapseWhitespace(s) == head + CollapseWhitespace(s[1..]);
        assert Visible(head) == [];
        VisibleAppend(head, CollapseWhitespace(s[1..]));
        VisibleOfCollapse(s[1..]);
      } else {
        VisibleAppend([s[0]], CollapseWhitespace(s[1..]));
        VisibleOfCollapse(s[1..]);
      }
    }
  }

  /** Letters, digits and hyphens survive sanitising, in their order: the
      sanitiser only deletes other characters and turns whitespace into '_'. */
  lemma SanitizeKeepsVisible(s: string)
    ensures Visible(Sanitize(s)) == Visible(s)
  {
    VisibleOfDropDisallowed(s);
    VisibleOfCollapse(DropDisallowed(s));
  }

  lemma {:induction false} DropDisallowedKeepsKept(s: string)
    requires forall k :: 0 <= k < |s| ==> IsVisible(s[k])
    ensures DropDisallowed(s) == s
  {
    if s != [] {
      DropDisallowedKeepsKept(s[1..]);
    }
  }

  lemma {:induction false} CollapseKeepsVisible(s: string)
    requires forall k :: 0 <= k < |s| ==> IsVisible(s[k])
    ensures CollapseWhitespace(s) == s
  {
    if s != [] {
      CollapseKeepsVisible(s[1..]);
    }
  }

  /** A name made of letters, digits and hyphens only is left unchanged. */
  lemma SanitizeFixesVisible(s: string)
    requires forall k :: 0 <= k < |s| ==> IsVisible(s[k])
    ensures Sanitize(s) == s
  {
    DropDisallowedKeepsKept(s);
    CollapseKeepsVisible(s);
  }

  lemma SanitizeSpace()
    ensures Sanitize("a b") == "a_b"
  {
    assert DropDisallowed("a b") == "a b";
    assert CollapseWhitespace("a b") == "a_b";
  }

  lemma SanitizeUnderscore()
    ensures Sanitize("a_b") == "ab"
  {
    assert DropDisallowed("a_b") == "ab";
    assert CollapseWhitespace("ab") == "ab";
  }

  /** The sanitiser is not idempotent: the '_' it writes for a space is
      deleted by a second pass. */
  lemma SanitizeNotIdempotent()
    ensures Sanitize(Sanitize("a b")) != Sanitize("a b")
  {
    SanitizeSpace();
    SanitizeUnderscore();
  }

  // ---------------------------------------------------------------------
  // Entry and archive names (createCertificateZip)

  /** The entry name of one participant's PDF. */
  function EntryName(participantName: string): (r: string)
    ensures |r| >= |CERTIFICATE_SUFFIX| && r[|r| - |CERTIFICATE_SUFFIX|..] == CERTIFICATE_SUFFIX
    ensures r[..|r| - |CERTIFICATE_SUFFIX|] == Sanitize(participantName)
  {
    Sanitize(participantName) + CERTIFICATE_SUFFIX
  }

  /** `toISOString().replace(/[:.]/g, '-')`: the same length, no ':' or '.',
      every other character in place. */
  function TimestampPart(iso: string): (r: string)
    ensures |r| == |iso|
    ensures forall k :: 0 <= k < |r| ==> r[k] != ':' && r[k] != '.'
    ensures forall k :: 0 <= k < |r| && iso[k] != ':' && iso[k] != '.' ==> r[k] == iso[k]
  {
    if iso == [] then []
    else [if iso[0] == ':' || iso[0] == '.' then '-' else iso[0]] + TimestampPart(iso[1..])
  }

  function ZipFileName(eventName: string, iso: string): (r: string)
    ensures StartsWith(r, ZIP_PREFIX)
    ensures |r| >= 4 && r[|r| - 4..] == ".zip"
  {
    ZIP_PREFIX + Sanitize(eventName) + "_" + TimestampPart(iso) + ".zip"
  }

  /** `path.join(cwd, 'certificates', batchId, zipFileName)`, without the
      normalisation of `.` and `..` segments. */
  function ZipPath(cwd: string, batchId: string, eventName: string, iso: string): (r: string)
    ensures StartsWith(r, cwd + "/certificates/")
  {
    cwd + "/certificates/" + batchId + "/" + ZipFileName(eventName, iso)
  }

  /** The entries `createCertificateZip` hands to `createZipFromBuffers`:
      one per certificate, in order, named after its participant. */
  function CertificateEntries(files: seq<(string, Bytes)>): (r: seq<Entry>)
    ensures |r| == |files|
    ensures forall i :: 0 <= i < |r| ==> r[i] == Entry(EntryName(files[i].0), files[i].1)
  {
    if files == [] then []
    else [Entry(EntryName(files[0].0), files[0].1)] + CertificateEntries(files[1..])
  }

  lemma DropBang()
    ensures DropDisallowed("a  b!") == "a  b"
  {
    assert DropDisallowed("!") == "";
    assert DropDisallowed("b!") == "b";
    assert DropDisallowed(" b!") == " b";
    assert DropDisallowed("  b!") == "  b";
  }

  lemma SanitizeDoubleSpaceBang()
    ensures Sanitize("a  b!") == "a_b"
  {
    DropBang();
    assert CollapseWhitespace("b") == "b";
    assert CollapseWhitespace(" b") == "_b";
    assert CollapseWhitespace("  b") == "_b";
  }

  /** Names that sanitise alike produce entries with the same name: nothing
      disambiguates them. */
  lemma EqualNamesCollide()
    ensures EntryName("a b") == EntryName("a  b!")
  {
    SanitizeSpace();
    SanitizeDoubleSpaceBang();
  }

  /** The append loop of `createZipFromBuffers`: every buffer becomes an entry
      under its given name, in order. */
  method CreateZipFromBuffers(files: seq<Entry>) returns (archive: seq<Entry>)
    ensures archive == files
  {
    archive := [];
    for i := 0 to |files|
      invariant archive == files[..i]
    {
      archive := archive + [files[i]];
    }
  }

  /** `createCertificateZip`: the archive written and the path returned. */
  method CreateCertificateZip(files: seq<(string, Bytes)>, batchId: string, eventName: string,
                              iso: string, cwd: string)
    returns (outputPath: string, archive: seq<Entry>)
    ensures outputPath == ZipPath(cwd, batchId, eventName, iso)
    ensures |archive| == |files|
    ensures forall i :: 0 <= i < |files| ==>
      archive[i].name == EntryName(files[i].0) && archive[i].data == files[i].1
  {
    outputPath := ZipPath(cwd, batchId, eventName, iso);
    archive := CreateZipFromBuffers(CertificateEntries(files));
  }

  // ---------------------------------------------------------------------
  // createZipFromFiles

  function StripTrailingSlashes(p: string): (r: string)
    ensures |r| <= |p| && r == p[..|r|]
    ensures r == [] || r[|r| - 1] != '/'
  {
    if p != [] && p[|p| - 1] == '/' then StripTrailingSlashes(p[..|p| - 1]) else p
  }

  /** The part after the last '/'. */
  function AfterLastSlash(p: string): (r: string)
    ensures |r| <= |p| && r == p[|p| - |r|..]
    ensures forall k :: 0 <= k < |r| ==> r[k] != '/'
    ensures |r| < |p| ==> p[|p| - |r| - 1] == '/'
  {
    if p == [] || p[|p| - 1] == '/' then [] else AfterLastSlash(p[..|p| - 1]) + [p[|p| - 1]]
  }

  /** POSIX `path.basename`: trailing slashes are ignored, then the last
      segment is taken. */
  function Basename(p: string): (r: string)
    ensures forall k :: 0 <= k < |r| ==> r[k] != '/'
  {
    AfterLastSlash(StripTrailingSlashes(p))
  }

  lemma {:induction false} AfterLastSlashOfJoin(dir: string, name: string)
    requires forall k :: 0 <= k < |name| ==> name[k] != '/'
    ensures AfterLastSlash(dir + "/" + name) == name
  {
    if name != [] {
      var p := dir + "/" + name;
      assert p[..|p| - 1] == dir + "/" + name[..|name| - 1];
      AfterLastSlashOfJoin(dir, name[..|name| - 1]);
    }
  }

  /** The base name of `dir/name` is `name`. */
  lemma BasenameOfJoin(dir: string, name: string)
    requires name != [] && forall k :: 0 <= k < |name| ==> name[k] != '/'
    ensures Basename(dir + "/" + name) == name
  {
    AfterLastSlashOfJoin(dir, name);
  }

  /** The entries `createZipFromFiles` adds: each existing file under its base
      name, in order; missing files are skipped. */
  function FileEntries(files: seq<string>, exists_: string -> bool): (r: seq<FileEntry>)
    ensures |r| <= |files|
  {
    if files == [] then []
    else
      (if exists_(files[0]) then [FileEntry(Basename(files[0]), files[0])] else [])
      + FileEntries(files[1..], exists_)
  }

  /** Every entry comes from an existing file and is named by its base name. */
  lemma {:induction false} FileEntryFacts(files: seq<string>, exists_: string -> bool, j: nat)
    requires j < |FileEntries(files, exists_)|
    ensures var e := FileEntries(files, exists_)[j];
      exists_(e.source) && e.source in files && e.name == Basename(e.source)
  {
    var tail := FileEntries(files[1..], exists_);
    if exists_(files[0]) {
      var head := [FileEntry(Basename(files[0]), files[0])];
      assert FileEntries(files, exists_) == head + tail;
      if j > 0 {
        FileEntryFacts(files[1..], exists_, j - 1);
        assert tail[j - 1].source in files;
      }
    } else {
      assert FileEntries(files, exists_) == tail;
      FileEntryFacts(files[1..], exists_, j);
      assert tail[j].source in files;
    }
  }

  /** When every file exists, every file gets an entry. */
  lemma {:induction false} AllFilesPresent(files: seq<string>, exists_: string -> bool)
    requires forall i :: 0 <= i < |files| ==> exists_(files[i])
    ensures |FileEntries(files, exists_)| == |files|
  {
    if files != [] {
      AllFilesPresent(files[1..], exists_);
    }
  }

  method CreateZipFromFiles(files: seq<string>, exists_: string -> bool)
    returns (archive: seq<FileEntry>)
    ensures archive == FileEntries(files, exists_)
  {
    archive := [];
    var i := |files|;
    while i > 0
      invariant 0 <= i <= |files|
      invariant archive == FileEntries(files[i..], exists_)
    {
      i := i - 1;
      assert files[i..][1..] == files[i + 1..];
      if exists_(files[i]) {
        archive := [FileEntry(Basename(files[i]), files[i])] + archive;
      }
    }
  }

  // ---------------------------------------------------------------------
  // generateDownloadUrl

  /** Characters `encodeURIComponent` leaves as they are (section 2.3 of
      RFC 3986, plus `!~*'()`). */
  predicate IsUriUnreserved(c: char) {
    || IsAsciiAlnum(c) || c == '-' || c == '_' || c == '.' || c == '!' || c == '~'
    || c == '*' || c == '\'' || c == '(' || c == ')'
  }

  function HexUpper(d: nat): (c: char)
    requires d < 16
    ensures IsAsciiDigit(c) || 'A' <= c <= 'F'
  {
    if d < 10 then ('0' as int + d) as char else ('A' as int + d - 10) as char
  }

  function HexValue(c: char): (d: nat)
    ensures d < 16
  {
    if IsAsciiDigit(c) then c as int - '0' as int
    else if 'A' <= c <= 'F' then c as int - 'A' as int + 10
    else if 'a' <= c <= 'f' then c as int - 'a' as int + 10
    else 0
  }

  /** The UTF-8 encoding of one Unicode scalar value: six payload bits per
      continuation byte, the rest in the lead byte. */
  function Utf8(c: char): (r: Bytes)
    ensures 1 <= |r| <= 4
  {
    var n := c as int;
    var q1, q2, q3 := n / 64, n / 64 / 64, n / 64 / 64 / 64;
    if n < 0x80 then [n as byte]
    else if n < 0x800 then [(0xC0 + q1) as byte, (0x80 + n % 64) as byte]
    else if n < 0x10000 then
      [(0xE0 + q2) as byte, (0x80 + q1 % 64) as byte, (0x80 + n % 64) as byte]
    else
      [(0xF0 + q3) as byte, (0x80 + q2 % 64) as byte, (0x80 + q1 % 64) as byte,
       (0x80 + n % 64) as byte]
  }

  /** The code point a well-formed UTF-8 sequence of one to four bytes
      encodes, read back by its lead byte's length. */
  function Utf8Value(b: Bytes): (n: int)
    requires 1 <= |b| <= 4
  {
    if |b| == 1 then b[0] as int
    else if |b| == 2 then (b[0] as int - 0xC0) * 64 + (b[1] as int - 0x80)
    else if |b| == 3 then
      ((b[0] as int - 0xE0) * 64 + (b[1] as int - 0x80)) * 64 + (b[2] as int - 0x80)
    else
      (((b[0] as int - 0xF0) * 64 + (b[1] as int - 0x80)) * 64 + (b[2] as int - 0x80)) * 64
      + (b[3] as int - 0x80)
  }

  /** UTF-8 decoding inverts the encoding of every character. */
  lemma Utf8RoundTrip(c: char)
    ensures Utf8Value(Utf8(c)) == c as int
  {
    var n := c as int;
    var q1, q2, q3 := n / 64, n / 64 / 64, n / 64 / 64 / 64;
    assert n == q1 * 64 + n % 64;
    assert q1 == q2 * 64 + q1 % 64;
    assert q2 == q3 * 64 + q2 % 64;
  }

  /** `%XX` for every byte, in upper-case hexadecimal. */
  function PercentBytes(b: Bytes): (r: string)
    ensures |r| == 3 * |b|
    ensures forall k :: 0 <= k < |r| ==> r[k] == '%' || IsAsciiDigit(r[k]) || 'A' <= r[k] <= 'F'
  {
    if b == [] then []
    else ['%', HexUpper(b[0] as int / 16), HexUpper(b[0] as int % 16)] + PercentBytes(b[1..])
  }

  /** Reads back the bytes of a `%XX%XX…` string. */
  function UnpercentBytes(s: string): (r: Bytes)
  {
    if |s| < 3 then [] else [(HexValue(s[1]) * 16 + HexValue(s[2])) as byte] + UnpercentBytes(s[3..])
  }

  lemma {:induction false} PercentBytesRoundTrip(b: Bytes)
    ensures UnpercentBytes(PercentBytes(b)) == b
  {
    if b != [] {
      var s := PercentBytes(b);
      assert s[3..] == PercentBytes(b[1..]);
      PercentBytesRoundTrip(b[1..]);
    }
  }

  function EncodeChar(c: char): (r: string)
  {
    if IsUriUnreserved(c) then [c] else PercentBytes(Utf8(c))
  }

  /** `encodeURIComponent(s)`: the result holds only unreserved characters and
      percent escapes, so it has no '/' and forms a single path segment. */
  function EncodeUriComponent(s: string): (r: string)
    ensures forall k :: 0 <= k < |r| ==> IsUriUnreserved(r[k]) || r[k] == '%'
  {
    if s == [] then [] else EncodeChar(s[0]) + EncodeUriComponent(s[1..])
  }

  /** Each escaped character decodes back to itself: its escapes spell the
      bytes of its UTF-8 encoding. */
  lemma EncodeCharRoundTrip(c: char)
    requires !IsUriUnreserved(c)
    ensures var b := UnpercentBytes(EncodeChar(c));
      1 <= |b| <= 4 && Utf8Value(b) == c as int
  {
    PercentBytesRoundTrip(Utf8(c));
    Utf8RoundTrip(c);
  }

  /** A string of unreserved characters is not changed by the encoding. */
  lemma {:induction false} EncodeFixesUnreserved(s: string)
    requires forall k :: 0 <= k < |s| ==> IsUriUnreserved(s[k])
    ensures EncodeUriComponent(s) == s
  {
    if s != [] {
      EncodeFixesUnreserved(s[1..]);
    }
  }

  /** `path.relative(cwd, zipPath)` for a path under `cwd`; any other path is
      passed through. */
  function RelativePath(cwd: string, zipPath: string): (r: string)
    ensures StartsWith(zipPath, cwd + "/") ==> zipPath == cwd + "/" + r
  {
    if StartsWith(zipPath, cwd + "/") then zipPath[|cwd| + 1..] else zipPath
  }

  function GenerateDownloadUrl(zipPath: string, domain: string, cwd: string): (r: string)
    ensures StartsWith(r, domain + DOWNLOAD_PATH)
    ensures forall k :: |domain + DOWNLOAD_PATH| <= k < |r| ==> r[k] != '/'
  {
    domain + DOWNLOAD_PATH + EncodeUriComponent(RelativePath(cwd, zipPath))
  }

  /** The download URL of a certificate zip names its path relative to the
      working directory, encoded into one segment. */
  lemma DownloadUrlOfZip(cwd: string, batchId: string, eventName: string, iso: string, domain: string)
    ensures GenerateDownloadUrl(ZipPath(cwd, batchId, eventName, iso), domain, cwd)
         == domain + DOWNLOAD_PATH
            + EncodeUriComponent("certificates/" + batchId + "/" + ZipFileName(eventName, iso))
  {
    var p := ZipPath(cwd, batchId, eventName, iso);
    assert p == (cwd + "/") + ("certificates/" + batchId + "/" + ZipFileName(eventName, iso));
  }
}
