/** The migration that gives every older model of a project a version: a loop with a per-project counter. */
module Backfill {
  import opened Outcomes
  import opened AssetVersions

  /** A model row joined with the project of its scan (the query returns only rows that have one), and the
      id drawn for its version. */
  datatype LegacyModel = LegacyModel(
    id: Id, project: Id, createdAt: int, status: Option<string>, source: Option<string>, versionId: Id)

  function BackfillSlot(project: Id): Slot {
    Slot(project, "model", "primary")
  }

  function BackfilledRow(row: LegacyModel, number: int): Version {
    var status := if row.status == None || row.status == Some("") then "ready" else row.status.value;
    var source := if row.source == None || row.source == Some("") then "scan" else row.source.value;
    var legacy := Some(("model_asset", row.id));
    Version(row.versionId, BackfillSlot(row.project), number, status, None, [], legacy, source, true)
  }

  /** Inserting the rows one publish at a time, each taking the table's maximum plus one. */
  function InsertedOneByOne(rows: seq<LegacyModel>): Log {
    if rows == [] then []
    else
      var row := rows[|rows| - 1];
      var table := InsertedOneByOne(rows[..|rows| - 1]);
      table + [BackfilledRow(row, NextVersionNumber(table, BackfillSlot(row.project)))]
  }

  lemma EmptyMaximum()
    ensures forall slot :: MaxNumber([], slot) == 0
  {
  }

  /** One more row raises the maximum of its own project and of no other. */
  lemma CounterFollows(table: Log, row: LegacyModel, number: int, p: Id)
    requires number == MaxNumber(table, BackfillSlot(row.project)) + 1
    ensures MaxNumber(table + [BackfilledRow(row, number)], BackfillSlot(p)) ==
            if p == row.project then number else MaxNumber(table, BackfillSlot(p))
  {
    var after := table + [BackfilledRow(row, number)];
    assert after[..|after| - 1] == table;
  }

  /** The dictionary counter always equals the table's maximum, so the loop numbers rows as publishing would. */
  method BackfillModelVersions(rows: seq<LegacyModel>) returns (table: Log)
    ensures table == InsertedOneByOne(rows)
  {
    hide MaxNumber, BackfilledRow, BackfillSlot;
    EmptyMaximum();
    table := [];
    var nextVersionByProject: map<Id, int> := map[];
    for i := 0 to |rows|
      invariant table == InsertedOneByOne(rows[..i])
      invariant forall p: Id :: MaxNumber(table, BackfillSlot(p)) ==
                                if p in nextVersionByProject then nextVersionByProject[p] else 0
    {
      assert rows[..i + 1][..i] == rows[..i];
      var project := rows[i].project;
      var versionNumber := (if project in nextVersionByProject then nextVersionByProject[project] else 0) + 1;
      nextVersionByProject := nextVersionByProject[project := versionNumber];
      ghost var before := table;
      table := table + [BackfilledRow(rows[i], versionNumber)];
      assert rows[..i + 1][i] == rows[i];
      forall p: Id
        ensures MaxNumber(table, BackfillSlot(p)) == if p in nextVersionByProject then nextVersionByProject[p] else 0
      {
        CounterFollows(before, rows[i], versionNumber, p);
      }
    }
    assert rows[..|rows|] == rows;
  }

  ghost predicate FreshIds(rows: seq<LegacyModel>) {
    forall i, j :: 0 <= i < j < |rows| ==> rows[i].versionId != rows[j].versionId
  }

  lemma {:induction false} BackfilledRowAt(rows: seq<LegacyModel>, i: nat)
    requires i < |rows|
    ensures |InsertedOneByOne(rows)| == |rows|
    ensures InsertedOneByOne(rows)[i] == BackfilledRow(rows[i], InsertedOneByOne(rows)[i].number)
  {
    if i < |rows| - 1 {
      BackfilledRowAt(rows[..|rows| - 1], i);
    } else if i > 0 {
      BackfilledRowAt(rows[..|rows| - 1], 0);
    }
  }

  lemma BackfilledIds(rows: seq<LegacyModel>, id: Id)
    requires id in Ids(InsertedOneByOne(rows))
    ensures exists row <- rows :: row.versionId == id
  {
    var table := InsertedOneByOne(rows);
    var i :| 0 <= i < |table| && table[i].id == id;
    if rows != [] {
      BackfilledRowAt(rows, 0);
      BackfilledRowAt(rows, i);
      assert rows[i] in rows;
    }
  }

  lemma {:induction false} BackfillIsSound(rows: seq<LegacyModel>)
    requires FreshIds(rows)
    ensures Sound(InsertedOneByOne(rows))
  {
    if rows != [] {
      var row := rows[|rows| - 1];
      BackfillIsSound(rows[..|rows| - 1]);
      var table := InsertedOneByOne(rows[..|rows| - 1]);
      if row.versionId in Ids(table) {
        BackfilledIds(rows[..|rows| - 1], row.versionId);
      }
      SoundIsDense(table);
      MaxIsCount(table, BackfillSlot(row.project));
      hide Sound, Ids, MaxNumber, Count;
      SoundAppend(table, BackfilledRow(row, NextVersionNumber(table, BackfillSlot(row.project))));
    }
  }

  lemma DenseIncreases(log: Log, i: nat, j: nat)
    requires Dense(log) && i < j < |log| && log[i].slot == log[j].slot
    ensures log[i].number < log[j].number
  {
    assert log[i] in log[..j];
    DensePrefix(log, j);
    NumbersAreAtMostCount(log[..j], log[i]);
  }

  /** The query's order: by project, then creation time, then id. */
  ghost predicate InQueryOrder(rows: seq<LegacyModel>) {
    forall i, j :: 0 <= i < j < |rows| && rows[i].project == rows[j].project ==> rows[i].createdAt <= rows[j].createdAt
  }

  /** How many of the rows belong to a project. */
  function RowsOf(rows: seq<LegacyModel>, project: Id): nat {
    if rows == [] then 0
    else RowsOf(rows[..|rows| - 1], project) + if rows[|rows| - 1].project == project then 1 else 0
  }

  lemma {:induction false} RowsOfIsCount(rows: seq<LegacyModel>, project: Id)
    ensures Count(InsertedOneByOne(rows), Slot(project, "model", "primary")) == RowsOf(rows, project)
  {
    if rows != [] {
      RowsOfIsCount(rows[..|rows| - 1], project);
    }
  }

  /** The row of each model: numbered by its place among the models of its project, under "model" and "primary", with
      the status and source it had or "ready" and "scan", no parent, and a link to the model it stands for. */
  lemma BackfilledRowIs(rows: seq<LegacyModel>, i: nat)
    requires FreshIds(rows) && i < |rows|
    ensures |InsertedOneByOne(rows)| == |rows|
    ensures var row, v := rows[i], InsertedOneByOne(rows)[i];
            && v.id == row.versionId && v.slot == Slot(row.project, "model", "primary")
            && v.number == RowsOf(rows[..i + 1], row.project)
            && v.status == (if row.status == None || row.status == Some("") then "ready" else row.status.value)
            && v.source == (if row.source == None || row.source == Some("") then "scan" else row.source.value)
            && v.parent == None && v.legacy == Some(("model_asset", row.id))
  {
    BackfilledRowAt(rows, i);
    BackfilledNumber(rows, i);
    hide InsertedOneByOne, RowsOf;
  }

  lemma LastRowInserted(rows: seq<LegacyModel>)
    requires rows != []
    ensures var row, table := rows[|rows| - 1], InsertedOneByOne(rows[..|rows| - 1]);
            InsertedOneByOne(rows) == table + [BackfilledRow(row, NextVersionNumber(table, BackfillSlot(row.project)))]
  {
  }

  lemma LastNumber(rows: seq<LegacyModel>)
    requires FreshIds(rows) && rows != [] && |InsertedOneByOne(rows[..|rows| - 1])| == |rows| - 1
    ensures |InsertedOneByOne(rows)| == |rows|
    ensures InsertedOneByOne(rows)[|rows| - 1].number == RowsOf(rows, rows[|rows| - 1].project)
  {
    var row, earlier := rows[|rows| - 1], rows[..|rows| - 1];
    var table := InsertedOneByOne(earlier);
    LastRowInserted(rows);
    BackfillIsSound(earlier);
    SoundIsDense(table);
    hide InsertedOneByOne, MaxNumber, Count, Sound, Dense, FreshIds;
    MaxIsCount(table, BackfillSlot(row.project));
    RowsOfIsCount(earlier, row.project);
  }

  lemma {:induction false} BackfilledNumber(rows: seq<LegacyModel>, i: nat)
    requires FreshIds(rows) && i < |rows| && |InsertedOneByOne(rows)| == |rows|
    ensures InsertedOneByOne(rows)[i].number == RowsOf(rows[..i + 1], rows[i].project)
    decreases |rows|
  {
    hide InsertedOneByOne, RowsOf, FreshIds, BackfilledRow, NextVersionNumber;
    var n := |rows| - 1;
    var earlier := rows[..n];
    BackfilledLength(earlier);
    FreshPrefix(rows, n);
    if i < n {
      LastRowInserted(rows);
      BackfilledNumber(earlier, i);
      assert earlier[..i + 1] == rows[..i + 1] && earlier[i] == rows[i];
    } else {
      LastNumber(rows);
      assert rows[..i + 1] == rows;
    }
  }

  lemma FreshPrefix(rows: seq<LegacyModel>, n: nat)
    requires FreshIds(rows) && n <= |rows|
    ensures FreshIds(rows[..n])
  {
  }

  lemma {:induction false} BackfilledLength(rows: seq<LegacyModel>)
    ensures |InsertedOneByOne(rows)| == |rows|
  {
    if rows != [] {
      BackfilledLength(rows[..|rows| - 1]);
    }
  }

  /** A project's older model never gets the higher number. */
  lemma NumbersFollowAge(rows: seq<LegacyModel>, i: nat, j: nat)
    requires FreshIds(rows) && InQueryOrder(rows)
    requires i < |rows| && j < |rows| && rows[i].project == rows[j].project
    ensures |InsertedOneByOne(rows)| == |rows|
    ensures var table := InsertedOneByOne(rows);
            rows[i].createdAt < rows[j].createdAt ==> table[i].number < table[j].number
  {
    BackfillIsSound(rows);
    BackfilledRowAt(rows, i);
    BackfilledRowAt(rows, j);
    if rows[i].createdAt < rows[j].createdAt {
      DenseIncreases(InsertedOneByOne(rows), i, j);
    }
  }

  /** Publishing continues where the migration stopped: whatever transactions run on the migrated table, the
      numbers of every slot stay 1, 2, .. n and every lineage ends. */
  lemma PublishingContinuesAfterBackfill(
      rows: seq<LegacyModel>, projects: set<Id>, strict: bool, steps: seq<Step>, slot: Slot)
    requires FreshIds(rows)
    ensures var log := Run(Db(projects, InsertedOneByOne(rows), map[], strict), steps).committed;
            && Numbers(log, slot) == seq(Count(log, slot), i => i + 1)
            && forall path :: ParentPath(log, path) ==> |path| <= |log|
  {
    var migrated := Db(projects, InsertedOneByOne(rows), map[], strict);
    BackfillIsSound(rows);
    assert Inv(migrated);
    CommittedNumbersAreGapFree(migrated, steps, slot);
    forall path | ParentPath(Run(migrated, steps).committed, path)
      ensures |path| <= |Run(migrated, steps).committed|
    {
      CommittedLineagesEnd(migrated, steps, path);
    }
  }
}
