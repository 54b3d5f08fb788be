/** Participant-name extraction of src/utils/csvParser.ts. The csv-parser
    tokeniser is not modelled: its output is given as rows of cells
    (`Success`), or as the message of the error it raised (`Failure`). */
module CsvParser {
  import opened Wrappers
  import opened Strings

  type Row = seq<string>

  /** A row read with headers: the (header, value) properties of the parsed
      row object, with distinct headers, in the order `Object.values` lists
      them (integer-like headers first in ascending order, then the others in
      column order). */
  type HeaderRow = seq<(string, string)>

  const EMPTY_FILE: string := "CSV file is empty"
  const NO_VALID_NAMES: string := "CSV file contains no valid participant names"
  const INVALID_FORMAT_PREFIX: string := "Invalid CSV format: "
  const PARSE_FAILED_PREFIX: string := "CSV parsing failed: "

  /** A cell's name: the trimmed text, when the cell is a non-blank string. */
  function TrimmedName(cell: string): (r: Option<string>)
    ensures r.Some? <==> Trim(cell) != ""
    ensures r.Some? ==> r.value == Trim(cell) && r.value != "" && Trim(r.value) == r.value
  {
    if cell != "" && Trim(cell) != "" then
      TrimIdempotent(cell);
      Some(Trim(cell))
    else None
  }

  /** The name one headerless row contributes: its first cell, trimmed, when
      that is not blank. */
  function FirstCellName(row: Row): (r: Option<string>)
    ensures r.Some? ==> row != [] && r.value == Trim(row[0]) && r.value != ""
    ensures r.None? ==> row == [] || Trim(row[0]) == ""
  {
    if row == [] then None else TrimmedName(row[0])
  }

  /** Every name the rows contribute, in row order, duplicates included. */
  function FirstCellNames(rows: seq<Row>): (r: seq<string>)
  {
    if rows == [] then []
    else
      var name := FirstCellName(rows[|rows| - 1]);
      FirstCellNames(rows[..|rows| - 1]) + (if name.Some? then [name.value] else [])
  }

  /** The per-row callback of `parseParticipantNames`, as a loop over the rows. */
  method CollectFirstCellNames(rows: seq<Row>) returns (results: seq<string>)
    ensures results == FirstCellNames(rows)
  {
    results := [];
    for i := 0 to |rows|
      invariant results == FirstCellNames(rows[..i])
    {
      assert rows[..i + 1][..i] == rows[..i];
      var name := FirstCellName(rows[i]);
      if name.Some? {
        results := results + [name.value];
      }
    }
    assert rows[..|rows|] == rows;
  }

  predicate NoDuplicates<T(==)>(s: seq<T>) {
    forall i, j :: 0 <= i < j < |s| ==> s[i] != s[j]
  }

  /** `[...new Set(s)]`: each value once, at the place it first appears. */
  function Dedup<T(==)>(s: seq<T>): (r: seq<T>)
  {
    DedupFrom(s, {})
  }

  function DedupFrom<T(==)>(s: seq<T>, seen: set<T>): (r: seq<T>)
  {
    if s == [] then []
    else if s[0] in seen then DedupFrom(s[1..], seen)
    else [s[0]] + DedupFrom(s[1..], seen + {s[0]})
  }

  lemma {:induction false} DedupFromMember<T>(s: seq<T>, seen: set<T>, x: T)
    ensures x in DedupFrom(s, seen) <==> x in s && x !in seen
  {
    if s != [] {
      DedupFromMember(s[1..], seen, x);
      DedupFromMember(s[1..], seen + {s[0]}, x);
      assert s == [s[0]] + s[1..];
    }
  }

  lemma {:induction false} DedupFromFacts<T>(s: seq<T>, seen: set<T>)
    ensures forall x :: x in DedupFrom(s, seen) <==> x in s && x !in seen
    ensures NoDuplicates(DedupFrom(s, seen))
  {
    forall x ensures x in DedupFrom(s, seen) <==> x in s && x !in seen {
      DedupFromMember(s, seen, x);
    }
    if s != [] {
      DedupFromFacts(s[1..], seen);
      DedupFromFacts(s[1..], seen + {s[0]});
      DedupFromMember(s[1..], seen + {s[0]}, s[0]);
    }
  }

  /** The deduplicated sequence has no repeats and holds exactly the values of the input. */
  lemma DedupIsSet<T>(s: seq<T>)
    ensures NoDuplicates(Dedup(s))
    ensures forall x :: x in Dedup(s) <==> x in s
  {
    DedupFromFacts(s, {});
  }

  /** The position where `x` first appears in `s`. */
  function FirstIndex<T(==)>(s: seq<T>, x: T): (i: nat)
    requires x in s
    ensures i < |s| && s[i] == x && x !in s[..i]
  {
    if s[0] == x then 0
    else
      var i := FirstIndex(s[1..], x);
      assert s[..i + 1] == [s[0]] + s[1..][..i];
      i + 1
  }

  /** Values of `r` come from `s`, in the order of their first appearance there. */
  predicate KeepsFirstOrder<T(==)>(r: seq<T>, s: seq<T>) {
    forall i, j :: 0 <= i < j < |r| ==> FirstBefore(s, r[i], r[j])
  }

  /** `x` and `y` both occur in `s`, and `x` first occurs earlier. */
  predicate FirstBefore<T(==)>(s: seq<T>, x: T, y: T) {
    x in s && y in s && FirstIndex(s, x) < FirstIndex(s, y)
  }

  lemma {:induction false} DedupFromOrder<T>(s: seq<T>, seen: set<T>)
    ensures KeepsFirstOrder(DedupFrom(s, seen), s)
  {
    if s != [] {
      var seen' := seen + {s[0]};
      var tail := DedupFrom(s[1..], seen');
      DedupFromOrder(s[1..], seen');
      forall x | x in tail ensures x in s[1..] && x != s[0] {
        DedupFromMember(s[1..], seen', x);
      }
      if s[0] in seen {
        assert seen' == seen;
        OrderShifts(s, tail);
      } else {
        OrderShifts(s, tail);
        OrderAfterFirst(s, tail);
      }
    }
  }

  /** Order by first appearance in `s[1..]` is order in `s`, for values other than `s[0]`. */
  lemma OrderShifts<T>(s: seq<T>, tail: seq<T>)
    requires s != [] && KeepsFirstOrder(tail, s[1..])
    requires forall x :: x in tail ==> x in s[1..] && x != s[0]
    ensures KeepsFirstOrder(tail, s)
  {
    forall x | x in tail ensures x in s && FirstIndex(s, x) == FirstIndex(s[1..], x) + 1 {
      FirstIndexTail(s, x);
    }
    forall i, j | 0 <= i < j < |tail|
      ensures FirstBefore(s, tail[i], tail[j])
    {
      assert tail[i] in tail && tail[j] in tail;
      assert FirstBefore(s[1..], tail[i], tail[j]);
    }
  }

  /** `s[0]` comes first in `s`, before everything of a tail kept in order. */
  lemma OrderAfterFirst<T>(s: seq<T>, tail: seq<T>)
    requires s != [] && KeepsFirstOrder(tail, s)
    requires forall x :: x in tail ==> x in s[1..] && x != s[0]
    ensures KeepsFirstOrder([s[0]] + tail, s)
  {
    var r := [s[0]] + tail;
    forall i, j | 0 <= i < j < |r|
      ensures FirstBefore(s, r[i], r[j])
    {
      assert r[j] == tail[j - 1];
      if i > 0 {
        assert r[i] == tail[i - 1];
        assert FirstBefore(s, tail[i - 1], tail[j - 1]);
      } else {
        assert r[j] in tail;
        FirstIndexTail(s, r[j]);
      }
    }
    assert KeepsFirstOrder(r, s);
  }

  lemma FirstIndexTail<T>(s: seq<T>, x: T)
    requires s != [] && x in s[1..] && x != s[0]
    ensures x in s && FirstIndex(s, x) == FirstIndex(s[1..], x) + 1
  {
  }

  /** Values keep the order in which they first appear in the input. */
  lemma DedupKeepsFirstOccurrenceOrder<T>(s: seq<T>)
    ensures KeepsFirstOrder(Dedup(s), s)
  {
    DedupFromOrder(s, {});
  }

  /** A name as the clean-up leaves it: non-empty and already trimmed. */
  predicate IsCleanName(n: string) { n != "" && Trim(n) == n }

  predicate AllClean(names: seq<string>) { forall n :: n in names ==> IsCleanName(n) }

  /** `.filter(name => name && name.trim().length > 0).map(name => name.trim())`. */
  function CleanNames(names: seq<string>): (r: seq<string>)
    ensures AllClean(r)
  {
    if names == [] then []
    else
      var rest := CleanNames(names[1..]);
      if names[0] != "" && Trim(names[0]) != "" then
        TrimIdempotent(names[0]);
        [Trim(names[0])] + rest
      else rest
  }

  /** On names that are already trimmed and non-empty, the final clean-up
      changes nothing. */
  lemma {:induction false} CleanNamesKeepsTrimmed(names: seq<string>)
    requires AllClean(names)
    ensures CleanNames(names) == names
  {
    if names != [] {
      var rest := names[1..];
      assert forall n :: n in rest ==> n in names;
      CleanNamesKeepsTrimmed(rest);
      assert names[0] in names;
      assert CleanNames(names) == [names[0]] + rest;
    }
  }

  lemma {:induction false} FirstCellNamesAreTrimmed(rows: seq<Row>)
    ensures AllClean(FirstCellNames(rows))
  {
    if rows != [] {
      FirstCellNamesAreTrimmed(rows[..|rows| - 1]);
    }
  }

  lemma {:induction false} FirstCellNamesFromRows(rows: seq<Row>)
    ensures forall n :: n in FirstCellNames(rows) ==> exists r :: r in rows && r != [] && n == Trim(r[0])
  {
    if rows != [] {
      var init := rows[..|rows| - 1];
      var last := rows[|rows| - 1];
      FirstCellNamesFromRows(init);
      forall n | n in FirstCellNames(rows) ensures exists r :: r in rows && r != [] && n == Trim(r[0]) {
        if n in FirstCellNames(init) {
          var r :| r in init && r != [] && n == Trim(r[0]);
          assert r in rows;
        } else {
          assert last in rows;
        }
      }
    }
  }

  /** The names `parseParticipantNames` resolves with. */
  function ParsedNames(rows: seq<Row>): (r: seq<string>)
    ensures NoDuplicates(r)
    ensures AllClean(r)
    ensures forall n :: n in r <==> n in FirstCellNames(rows)
    ensures KeepsFirstOrder(r, FirstCellNames(rows))
  {
    var collected := FirstCellNames(rows);
    FirstCellNamesAreTrimmed(rows);
    DedupIsSet(collected);
    DedupKeepsFirstOccurrenceOrder(collected);
    var unique := Dedup(collected);
    CleanNamesKeepsTrimmed(unique);
    CleanNames(unique)
  }

  /** Every parsed name is the trimmed first cell of some row. */
  lemma ParsedNamesComeFromFirstCells(rows: seq<Row>, n: string)
    requires n in ParsedNames(rows)
    ensures exists r :: r in rows && r != [] && n == Trim(r[0])
  {
    FirstCellNamesFromRows(rows);
  }

  /** `parseParticipantNames`: the callback loop, then de-duplication and the
      final clean-up; a tokeniser error rejects with its message. */
  method ParseParticipantNames(rows: Result<seq<Row>>) returns (r: Result<seq<string>>)
    ensures rows.Failure? ==> r == Failure(PARSE_FAILED_PREFIX + rows.error)
    ensures rows.Success? ==> r == Success(ParsedNames(rows.value))
  {
    if rows.Failure? {
      return Failure(PARSE_FAILED_PREFIX + rows.error);
    }
    var results := CollectFirstCellNames(rows.value);
    var unique := Dedup(results);
    r := Success(CleanNames(unique));
  }

  /** `data[key]` on a row read with headers; a missing column is undefined. */
  function Lookup(row: HeaderRow, key: string): (v: Option<string>)
    ensures v.Some? ==> exists k :: 0 <= k < |row| && row[k] == (key, v.value)
    ensures v.None? ==> forall k :: 0 <= k < |row| ==> row[k].0 != key
  {
    if row == [] then None
    else if row[0].0 == key then Some(row[0].1)
    else Lookup(row[1..], key)
  }

  /** `a || b` on optional strings: the first truthy one. */
  function FirstTruthy(a: Option<string>, b: Option<string>): (r: Option<string>)
    ensures a.Some? && a.value != "" ==> r == a
    ensures !(a.Some? && a.value != "") ==> r == b
  {
    if a.Some? && a.value != "" then a else b
  }

  /** The name one row with headers contributes: the first truthy of the
      chosen column, 'name', 'Name' and 'NAME'; only when none is truthy does
      the first column stand in. A blank name is dropped without falling back. */
  function HeaderRowName(row: HeaderRow, nameColumn: string): (r: Option<string>)
    ensures r.Some? ==> r.value != "" && Trim(r.value) == r.value
  {
    var name := FirstTruthy(Lookup(row, nameColumn), FirstTruthy(Lookup(row, "name"),
                  FirstTruthy(Lookup(row, "Name"), Lookup(row, "NAME"))));
    if name.Some? && name.value != "" then TrimmedName(name.value)
    else if row != [] then TrimmedName(row[0].1)
    else None
  }

  /** A whitespace-only name column is dropped even when the first column holds a name. */
  lemma BlankNameDoesNotFallBack(nameColumn: string, first: string)
    requires nameColumn != "" && first != "" && Trim(first) != ""
    ensures HeaderRowName([(nameColumn, " "), ("other", first)], nameColumn).None?
  {
    var row := [(nameColumn, " "), ("other", first)];
    assert Lookup(row, nameColumn) == Some(" ");
    assert IsWhitespace(' ');
    TrimEmptyIffBlank(" ");
  }

  /** Every name the rows contribute, in row order, duplicates included. */
  function HeaderRowNames(rows: seq<HeaderRow>, nameColumn: string): (r: seq<string>)
  {
    if rows == [] then []
    else
      var name := HeaderRowName(rows[|rows| - 1], nameColumn);
      HeaderRowNames(rows[..|rows| - 1], nameColumn) + (if name.Some? then [name.value] else [])
  }

  lemma {:induction false} HeaderRowNamesAreTrimmed(rows: seq<HeaderRow>, nameColumn: string)
    ensures AllClean(HeaderRowNames(rows, nameColumn))
  {
    if rows != [] {
      HeaderRowNamesAreTrimmed(rows[..|rows| - 1], nameColumn);
    }
  }

  /** What `parseParticipantNamesWithHeaders` resolves with: the collected
      names in the order of their first appearance, each once. */
  function ParsedHeaderNames(rows: seq<HeaderRow>, nameColumn: string): (r: seq<string>)
    ensures NoDuplicates(r)
    ensures AllClean(r)
    ensures forall n :: n in r <==> n in HeaderRowNames(rows, nameColumn)
    ensures KeepsFirstOrder(r, HeaderRowNames(rows, nameColumn))
  {
    var collected := HeaderRowNames(rows, nameColumn);
    HeaderRowNamesAreTrimmed(rows, nameColumn);
    DedupIsSet(collected);
    DedupKeepsFirstOccurrenceOrder(collected);
    var unique := Dedup(collected);
    CleanNamesKeepsTrimmed(unique);
    CleanNames(unique)
  }

  /** `parseParticipantNamesWithHeaders`, whose default name column is 'name'. */
  method ParseParticipantNamesWithHeaders(rows: Result<seq<HeaderRow>>, nameColumn: string)
    returns (r: Result<seq<string>>)
    ensures rows.Failure? ==> r == Failure(PARSE_FAILED_PREFIX + rows.error)
    ensures rows.Success? ==> r == Success(ParsedHeaderNames(rows.value, nameColumn))
  {
    if rows.Failure? {
      return Failure(PARSE_FAILED_PREFIX + rows.error);
    }
    var results: seq<string> := [];
    var i := 0;
    while i < |rows.value|
      invariant 0 <= i <= |rows.value|
      invariant results == HeaderRowNames(rows.value[..i], nameColumn)
    {
      assert rows.value[..i + 1][..i] == rows.value[..i];
      var name := HeaderRowName(rows.value[i], nameColumn);
      if name.Some? {
        results := results + [name.value];
      }
      i := i + 1;
    }
    assert rows.value[..|rows.value|] == rows.value;
    var unique := Dedup(results);
    r := Success(CleanNames(unique));
  }

  datatype CsvValidation = CsvValidation(valid: bool, message: Option<string>, rowCount: Option<nat>)

  /** Some cell of the row is a non-blank string. */
  predicate HasNonBlankCell(row: Row) {
    exists k | 0 <= k < |row| :: row[k] != "" && Trim(row[k]) != ""
  }

  /** Some row before `i` has a non-blank cell. */
  predicate AnyNonBlankBefore(rows: seq<Row>, i: nat)
    requires i <= |rows|
  {
    exists k :: 0 <= k < i && HasNonBlankCell(rows[k])
  }

  lemma AnyNonBlankStep(rows: seq<Row>, i: nat)
    requires i < |rows|
    ensures AnyNonBlankBefore(rows, i + 1) <==> AnyNonBlankBefore(rows, i) || HasNonBlankCell(rows[i])
  {
    if AnyNonBlankBefore(rows, i + 1) && !HasNonBlankCell(rows[i]) {
      var k :| 0 <= k < i + 1 && HasNonBlankCell(rows[k]);
      assert k < i;
    }
  }

  /** `validateCSVFormat`: counts rows and notes whether any cell, in any
      column, is non-blank. */
  method ValidateCsvFormat(rows: Result<seq<Row>>) returns (r: CsvValidation)
    ensures rows.Failure? ==> r == CsvValidation(false, Some(INVALID_FORMAT_PREFIX + rows.error), None)
    ensures rows.Success? && rows.value == [] ==> r == CsvValidation(false, Some(EMPTY_FILE), None)
    ensures rows.Success? && rows.value != [] && (forall k :: 0 <= k < |rows.value| ==> !HasNonBlankCell(rows.value[k])) ==>
              r == CsvValidation(false, Some(NO_VALID_NAMES), None)
    ensures r.valid <==> rows.Success? && exists k :: 0 <= k < |rows.value| && HasNonBlankCell(rows.value[k])
    ensures r.valid ==> r == CsvValidation(true, None, Some(|rows.value|))
  {
    if rows.Failure? {
      return CsvValidation(false, Some(INVALID_FORMAT_PREFIX + rows.error), None);
    }
    var data := rows.value;
    var rowCount := 0;
    var hasValidData := false;
    for i := 0 to |data|
      invariant rowCount == i
      invariant hasValidData <==> AnyNonBlankBefore(data, i)
    {
      rowCount := rowCount + 1;
      if HasNonBlankCell(data[i]) {
        hasValidData := true;
      }
      AnyNonBlankStep(data, i);
    }
    assert hasValidData <==> exists k :: 0 <= k < |data| && HasNonBlankCell(data[k]);
    if rowCount == 0 {
      r := CsvValidation(false, Some(EMPTY_FILE), None);
    } else if !hasValidData {
      r := CsvValidation(false, Some(NO_VALID_NAMES), None);
    } else {
      r := CsvValidation(true, None, Some(rowCount));
    }
  }

  /** Validation looks at every column, parsing only at the first: a file
      whose only name sits in the second column validates, yet parses to no
      names. */
  lemma ValidButParsesEmpty(name: string)
    requires Trim(name) != ""
    ensures HasNonBlankCell(["", name])
    ensures ParsedNames([["", name]]) == []
  {
    SecondCellNonBlank(["", name]);
    BlankFirstCellParsesEmpty(["", name]);
  }

  lemma SecondCellNonBlank(row: Row)
    requires |row| == 2 && Trim(row[1]) != ""
    ensures HasNonBlankCell(row)
  {
    assert row[1] != "";
  }

  lemma BlankFirstCellParsesEmpty(row: Row)
    requires row != [] && row[0] == ""
    ensures ParsedNames([row]) == []
  {
    assert FirstCellName(row) == None;
    var rows: seq<Row> := [row];
    assert rows[..0] == [];
    assert FirstCellNames(rows) == [];
    assert Dedup<string>([]) == [];
    assert CleanNames([]) == [];
  }

  const SAMPLE_NAMES: seq<string> := ["John Doe", "Jane Smith", "Mike Johnson", "Sarah Wilson", "David Brown"]

  /** `createSampleCSV`: the five sample names, one per line. */
  function CreateSampleCsv(): (csv: string)
  {
    Join(SAMPLE_NAMES, "\n")
  }

  /** The sample's five lines are five distinct names, none blank, none
      holding a line break and none with whitespace at either end. */
  lemma SampleFacts()
    ensures CreateSampleCsv() == Join(SAMPLE_NAMES, "\n")
    ensures |SAMPLE_NAMES| == 5
    ensures forall i, j :: 0 <= i < j < |SAMPLE_NAMES| ==> SAMPLE_NAMES[i] != SAMPLE_NAMES[j]
    ensures forall i :: 0 <= i < |SAMPLE_NAMES| ==>
      '\n' !in SAMPLE_NAMES[i] && SAMPLE_NAMES[i] != "" &&
      !IsWhitespace(SAMPLE_NAMES[i][0]) && !IsWhitespace(SAMPLE_NAMES[i][|SAMPLE_NAMES[i]| - 1])
  {
    var ns := SAMPLE_NAMES;
    assert ns[0][1] == 'o' && ns[1][1] == 'a';
    assert ns[0][0] == 'J' && ns[1][0] == 'J' && ns[2][0] == 'M' && ns[3][0] == 'S' && ns[4][0] == 'D';
    assert ns[0][|ns[0]| - 1] == 'e' && ns[1][|ns[1]| - 1] == 'h' && ns[2][|ns[2]| - 1] == 'n';
    assert ns[3][|ns[3]| - 1] == 'n' && ns[4][|ns[4]| - 1] == 'n';
    forall i | 0 <= i < |ns| ensures '\n' !in ns[i] {
      forall k | 0 <= k < |ns[i]| ensures ns[i][k] != '\n' {
        assert ns[i][k] == ' ' || 'a' <= ns[i][k] <= 'z' || 'A' <= ns[i][k] <= 'Z';
      }
    }
  }

  /** `createSampleCSVWithHeaders`: the same lines under a 'name' header. */
  function CreateSampleCsvWithHeaders(): (csv: string)
    ensures csv == "name\n" + CreateSampleCsv()
  {
    "name" + "\n" + Join(SAMPLE_NAMES, "\n")
  }
}
