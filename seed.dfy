/** The seeder of src/database/seed.ts: the catalog of built-in designs and
    the loop that inserts every design whose name the table does not hold
    yet. The identifiers the database mints for the inserted rows are a
    parameter, one per catalog entry. */
module Seed {
  import opened Wrappers
  import opened JsValues
  import opened Store

  /** One catalog entry: the eight columns the seeder writes. */
  datatype SeedEntry = SeedEntry(
    name: string, previewImagePath: string, baseImagePath: string,
    textX: int, textY: int, fontSize: int, fontColor: string, primaryColor: string)

  const IMAGE_DIR: string := "/public/images/default-templates/"

  /** An entry whose preview and base image are the same file. */
  function Entry(name: string, file: string, x: int, y: int, size: int,
                 fontColor: string, primaryColor: string): (e: SeedEntry)
    ensures e.previewImagePath == e.baseImagePath == IMAGE_DIR + file
  {
    SeedEntry(name, IMAGE_DIR + file, IMAGE_DIR + file, x, y, size, fontColor, primaryColor)
  }

  /** The built-in designs, in the order they are inserted. */
  const CATALOG: seq<SeedEntry> := [
    Entry("Classic Professional", "classic.png", 400, 300, 48, "#1a365d", "#2b6cb0"),
    Entry("Modern Elegant", "modern.png", 350, 280, 52, "#2d3748", "#805ad5"),
    Entry("Minimalist Clean", "minimalist.png", 512, 384, 44, "#2f855a", "#38a169"),
    Entry("Golden Winner", "golden.png", 400, 300, 56, "#744210", "#d69e2e"),
    Entry("Silver Achievement", "silver.png", 400, 300, 50, "#4a5568", "#a0aec0"),
    Entry("Bronze Participation", "bronze.png", 400, 300, 46, "#7b341e", "#c05621"),
    Entry("Corporate Blue", "corporate.png", 400, 320, 48, "#1e3a8a", "#3b82f6"),
    Entry("Academic Excellence", "academic.png", 400, 300, 50, "#7c2d12", "#dc2626")
  ]

  /** The row the seeder's INSERT stores: the id is minted, `is_active`
      takes its column default, and every other column is the entry's. */
  function Row(id: string, e: SeedEntry): (d: DefaultTemplate)
    ensures d.id == id && d.isActive
    ensures d.name == e.name && d.previewImagePath == e.previewImagePath
    ensures d.baseImagePath == e.baseImagePath
    ensures d.defaultTextX == e.textX && d.defaultTextY == e.textY
    ensures d.defaultFontSize == e.fontSize
    ensures d.defaultFontColor == e.fontColor && d.defaultPrimaryColor == e.primaryColor
  {
    DefaultTemplate(id, e.name, e.previewImagePath, e.baseImagePath, e.textX, e.textY,
                    e.fontSize, e.fontColor, e.primaryColor, true)
  }

  /** The entry as the argument of `DefaultTemplateQueries.create`. */
  function AsInput(e: SeedEntry): DefaultTemplateInput {
    DefaultTemplateInput(e.name, e.previewImagePath, e.baseImagePath, e.textX, e.textY,
                         Some(e.fontSize), Some(e.fontColor), Some(e.primaryColor))
  }

  /** An entry none of whose values is falsy: the query's `||` defaults
      leave it alone. */
  predicate NoFalsyValue(e: SeedEntry) {
    e.fontSize != 0 && e.fontColor != "" && e.primaryColor != ""
  }

  /** For such an entry, inserting through the query stores the same row as
      the seeder's own INSERT. */
  lemma InsertMatchesQuery(id: string, e: SeedEntry)
    requires NoFalsyValue(e)
    ensures DefaultTemplateRecord(id, AsInput(e)) == Row(id, e)
  {
  }

  /** Eight entries, none with a falsy value, no two with the same name. */
  lemma CatalogFacts()
    ensures |CATALOG| == 8
    ensures forall j :: 0 <= j < |CATALOG| ==> NoFalsyValue(CATALOG[j])
    ensures forall i, j :: 0 <= i < j < |CATALOG| ==> CATALOG[i].name != CATALOG[j].name
  {
  }

  /** Where a run stops: the table it leaves, and whether an insert threw. */
  datatype SeedOutcome = SeedOutcome(table: seq<DefaultTemplate>, failed: bool)

  /** The seeding loop from entry `k` on, over the table `rows`: an entry
      whose name is present (active or not) is skipped; otherwise it is
      inserted, and an insert that repeats a primary key throws and ends the
      run, keeping the rows inserted before it. */
  function SeedFrom(rows: seq<DefaultTemplate>, ids: seq<string>, k: nat): (o: SeedOutcome)
    requires |ids| == |CATALOG| && k <= |CATALOG|
    ensures |rows| <= |o.table| && o.table[..|rows|] == rows
    decreases |CATALOG| - k
  {
    if k == |CATALOG| then SeedOutcome(rows, false)
    else if HasKey(rows, DefaultTemplateName, CATALOG[k].name) then SeedFrom(rows, ids, k + 1)
    else if HasKey(rows, DefaultTemplateKey, ids[k]) then SeedOutcome(rows, true)
    else
      var o := SeedFrom(rows + [Row(ids[k], CATALOG[k])], ids, k + 1);
      assert o.table[..|rows|] == o.table[..|rows| + 1][..|rows|];
      o
  }

  /** `seedDefaultTemplates`: the rows it inserted, or the error it rethrew. */
  method SeedDefaultTemplates(db: Database, ids: seq<string>) returns (r: Result<seq<DefaultTemplate>>)
    requires db.Valid() && |ids| == |CATALOG|
    modifies db`defaultTemplates
    ensures db.Valid()
    ensures db.defaultTemplates == SeedFrom(old(db.defaultTemplates), ids, 0).table
    ensures r.Failure? <==> SeedFrom(old(db.defaultTemplates), ids, 0).failed
    ensures r.Failure? ==> r.error == DUPLICATE_KEY
    ensures r.Success? ==> db.defaultTemplates == old(db.defaultTemplates) + r.value
  {
    CatalogFacts();
    var added: seq<DefaultTemplate> := [];
    for i := 0 to |CATALOG|
      invariant db.Valid()
      invariant db.defaultTemplates == old(db.defaultTemplates) + added
      invariant SeedFrom(db.defaultTemplates, ids, i) == SeedFrom(old(db.defaultTemplates), ids, 0)
    {
      var entry := CATALOG[i];
      if db.HasDefaultTemplateNamed(entry.name) {
        continue;
      }
      var created := db.CreateDefaultTemplate(ids[i], AsInput(entry));
      if created.Failure? {
        return Failure(created.error);
      }
      InsertMatchesQuery(ids[i], entry);
      added := added + [created.value];
    }
    r := Success(added);
  }

  /** A run that does not throw leaves every catalog name in the table. */
  lemma {:induction false} SeedAddsEveryName(rows: seq<DefaultTemplate>, ids: seq<string>, k: nat)
    requires |ids| == |CATALOG| && k <= |CATALOG|
    ensures !SeedFrom(rows, ids, k).failed ==>
      forall j :: k <= j < |CATALOG| ==> HasKey(SeedFrom(rows, ids, k).table, DefaultTemplateName, CATALOG[j].name)
    decreases |CATALOG| - k
  {
    if k < |CATALOG| {
      var o := SeedFrom(rows, ids, k);
      var name := CATALOG[k].name;
      if HasKey(rows, DefaultTemplateName, name) {
        SeedAddsEveryName(rows, ids, k + 1);
        var i :| 0 <= i < |rows| && rows[i].name == name;
        assert o.table[i] == o.table[..|rows|][i];
      } else if !HasKey(rows, DefaultTemplateKey, ids[k]) {
        var next := rows + [Row(ids[k], CATALOG[k])];
        SeedAddsEveryName(next, ids, k + 1);
        assert o.table[|rows|] == o.table[..|next|][|rows|];
      }
    }
  }

  /** Every row a run adds is the row of a catalog entry, with that entry's
      id, and carries a name the table did not hold before the run. */
  lemma {:induction false} SeedInsertsOnlyAbsent(rows: seq<DefaultTemplate>, ids: seq<string>, k: nat)
    requires |ids| == |CATALOG| && k <= |CATALOG|
    ensures var t := SeedFrom(rows, ids, k).table;
      forall i :: |rows| <= i < |t| ==>
        && !HasKey(rows, DefaultTemplateName, t[i].name)
        && exists j :: k <= j < |CATALOG| && t[i] == Row(ids[j], CATALOG[j])
    decreases |CATALOG| - k
  {
    if k < |CATALOG| {
      var name := CATALOG[k].name;
      if HasKey(rows, DefaultTemplateName, name) {
        SeedInsertsOnlyAbsent(rows, ids, k + 1);
      } else if !HasKey(rows, DefaultTemplateKey, ids[k]) {
        var row := Row(ids[k], CATALOG[k]);
        var next := rows + [row];
        SeedInsertsOnlyAbsent(next, ids, k + 1);
        var t := SeedFrom(rows, ids, k).table;
        assert t[|rows|] == t[..|next|][|rows|] == row;
        forall i | |rows| <= i < |t|
          ensures !HasKey(rows, DefaultTemplateName, t[i].name)
          ensures exists j :: k <= j < |CATALOG| && t[i] == Row(ids[j], CATALOG[j])
        {
          if i == |rows| {
            assert t[i] == Row(ids[k], CATALOG[k]);
          } else {
            assert !HasKey(next, DefaultTemplateName, t[i].name);
            assert forall m :: 0 <= m < |rows| ==> rows[m] == next[m];
          }
        }
      }
    }
  }

  /** When every catalog name is already present, a run changes nothing. */
  lemma {:induction false} SeedIdempotent(rows: seq<DefaultTemplate>, ids: seq<string>, k: nat)
    requires |ids| == |CATALOG| && k <= |CATALOG|
    requires forall j :: k <= j < |CATALOG| ==> HasKey(rows, DefaultTemplateName, CATALOG[j].name)
    ensures SeedFrom(rows, ids, k) == SeedOutcome(rows, false)
    decreases |CATALOG| - k
  {
    if k < |CATALOG| {
      SeedIdempotent(rows, ids, k + 1);
    }
  }

  /** Seeding twice: the second run inserts nothing and cannot throw,
      whatever ids it would have used. */
  lemma SecondRunInsertsNothing(rows: seq<DefaultTemplate>, ids: seq<string>, ids2: seq<string>)
    requires |ids| == |CATALOG| && |ids2| == |CATALOG|
    requires !SeedFrom(rows, ids, 0).failed
    ensures var t := SeedFrom(rows, ids, 0).table;
      SeedFrom(t, ids2, 0) == SeedOutcome(t, false)
  {
    SeedAddsEveryName(rows, ids, 0);
    SeedIdempotent(SeedFrom(rows, ids, 0).table, ids2, 0);
  }

  /** The rows of the catalog entries from `k` on, with their ids. */
  function CatalogRows(ids: seq<string>, k: nat): (s: seq<DefaultTemplate>)
    requires |ids| == |CATALOG| && k <= |CATALOG|
    ensures |s| == |CATALOG| - k
    ensures forall i :: 0 <= i < |s| ==> s[i] == Row(ids[k + i], CATALOG[k + i])
    decreases |CATALOG| - k
  {
    if k == |CATALOG| then [] else [Row(ids[k], CATALOG[k])] + CatalogRows(ids, k + 1)
  }

  /** A table that holds none of the names and none of the ids to come, with
      pairwise distinct ids: every remaining entry is inserted, in order. */
  lemma {:induction false} SeedInsertsAllAbsent(rows: seq<DefaultTemplate>, ids: seq<string>, k: nat)
    requires |ids| == |CATALOG| && k <= |CATALOG|
    requires forall j :: k <= j < |CATALOG| ==> !HasKey(rows, DefaultTemplateName, CATALOG[j].name)
    requires forall j :: k <= j < |CATALOG| ==> !HasKey(rows, DefaultTemplateKey, ids[j])
    requires forall i, j :: k <= i < j < |CATALOG| ==> ids[i] != ids[j]
    ensures SeedFrom(rows, ids, k) == SeedOutcome(rows + CatalogRows(ids, k), false)
    decreases |CATALOG| - k
  {
    if k < |CATALOG| {
      CatalogFacts();
      var row := Row(ids[k], CATALOG[k]);
      var next := rows + [row];
      forall j | k + 1 <= j < |CATALOG|
        ensures !HasKey(next, DefaultTemplateName, CATALOG[j].name)
        ensures !HasKey(next, DefaultTemplateKey, ids[j])
      {
        assert forall m :: 0 <= m < |rows| ==> next[m] == rows[m];
        assert next[|rows|] == row;
      }
      SeedInsertsAllAbsent(next, ids, k + 1);
      assert next + CatalogRows(ids, k + 1) == rows + CatalogRows(ids, k);
    }
  }

  /** Seeding an empty table with distinct ids inserts the whole catalog in
      order and does not throw. */
  lemma SeedEmptyTable(ids: seq<string>)
    requires |ids| == |CATALOG|
    requires forall i, j :: 0 <= i < j < |CATALOG| ==> ids[i] != ids[j]
    ensures SeedFrom([], ids, 0) == SeedOutcome(CatalogRows(ids, 0), false)
  {
    SeedInsertsAllAbsent([], ids, 0);
  }
}
