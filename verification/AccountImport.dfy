/**
 The CSV import against its row-by-row meaning (`importCsv` of
 `backend/src/accounts/accounts.service.ts`): the import reads the consolidation accounts the file
 refers to once, does not propagate per row, and resyncs once at its end.  Here is what it must
 amount to, and why one row of the import keeps it so.
 */
module AccountImport {
  import opened Wrappers
  import opened Ledger
  import opened AccountWrites

  /** A validated line of the file: every column has a value, an empty cell being null. */
  datatype ImportRow = ImportRow(
    number: int,
    name: string,
    description: Option<string>,
    consNumber: Option<int>,
    consName: Option<string>,
    consDescription: Option<string>)

  function RowBody(row: ImportRow, target: ChartId): AccountBody {
    AccountBody(Given(Some(target)), Given(Some(row.number)), Given(Some(row.name)), Given(row.description),
                Given(row.consNumber), Given(row.consName), Given(row.consDescription))
  }

  predicate HasNumber(rows: seq<ImportRow>, n: int) {
    exists i :: 0 <= i < |rows| && rows[i].number == n
  }

  ghost predicate DistinctNumbers(rows: seq<ImportRow>) {
    forall i, j | 0 <= i < j < |rows| :: rows[i].number != rows[j].number
  }

  /** The rows kept: the first one of each account number, in file order. */
  ghost function FirstOccurrences(rows: seq<ImportRow>): seq<ImportRow> {
    if rows == [] then []
    else
      var kept := FirstOccurrences(rows[..|rows| - 1]);
      var last := rows[|rows| - 1];
      if HasNumber(rows[..|rows| - 1], last.number) then kept else kept + [last]
  }

  lemma HasNumberUpTo(rows: seq<ImportRow>, k: nat, n: int)
    requires k < |rows|
    ensures HasNumber(rows[..k + 1], n) <==> HasNumber(rows[..k], n) || rows[k].number == n
  {
    if HasNumber(rows[..k + 1], n) && rows[k].number != n {
      var i :| 0 <= i < k + 1 && rows[..k + 1][i].number == n;
      assert rows[..k][i].number == n;
    }
    if HasNumber(rows[..k], n) {
      var i :| 0 <= i < k && rows[..k][i].number == n;
      assert rows[..k + 1][i].number == n;
    }
    assert rows[..k + 1][k] == rows[k];
  }

  lemma {:induction false} FirstOccurrencesHaveNumbers(rows: seq<ImportRow>, n: int)
    ensures HasNumber(FirstOccurrences(rows), n) <==> HasNumber(rows, n)
  {
    if rows != [] {
      var init := rows[..|rows| - 1];
      var kept := FirstOccurrences(init);
      FirstOccurrencesHaveNumbers(init, n);
      assert rows[..|rows|] == rows;
      HasNumberUpTo(rows, |rows| - 1, n);
      if FirstOccurrences(rows) != kept {
        assert FirstOccurrences(rows)[..|kept|] == kept
               && FirstOccurrences(rows)[..|kept| + 1] == FirstOccurrences(rows);
        HasNumberUpTo(FirstOccurrences(rows), |kept|, n);
      }
    }
  }

  /** The row is the first of its number. */
  ghost predicate IsFirst(rows: seq<ImportRow>, row: ImportRow) {
    exists i :: 0 <= i < |rows| && rows[i] == row && !HasNumber(rows[..i], row.number)
  }

  ghost predicate AreFirst(kept: seq<ImportRow>, rows: seq<ImportRow>) {
    forall k | 0 <= k < |kept| :: IsFirst(rows, kept[k])
  }

  lemma {:induction false} FirstOccurrencesAreFirst(rows: seq<ImportRow>)
    ensures AreFirst(FirstOccurrences(rows), rows)
  {
    if rows != [] {
      var init, last := rows[..|rows| - 1], rows[|rows| - 1];
      var kept, all := FirstOccurrences(init), FirstOccurrences(rows);
      FirstOccurrencesAreFirst(init);
      assert all == if HasNumber(init, last.number) then kept else kept + [last];
      forall k | 0 <= k < |all|
        ensures IsFirst(rows, all[k])
      {
        if k < |kept| {
          assert IsFirst(init, kept[k]);
          var i :| 0 <= i < |init| && init[i] == kept[k] && !HasNumber(init[..i], kept[k].number);
          assert init[..i] == rows[..i];
          assert rows[i] == all[k];
        } else {
          assert rows[|rows| - 1] == all[k];
        }
      }
    }
  }

  /** Deduplication keeps every number once, and of each number the first row. */
  lemma {:induction false} FirstOccurrencesAreDistinct(rows: seq<ImportRow>)
    ensures DistinctNumbers(FirstOccurrences(rows))
    ensures forall n :: HasNumber(FirstOccurrences(rows), n) <==> HasNumber(rows, n)
    ensures AreFirst(FirstOccurrences(rows), rows)
  {
    forall n
      ensures HasNumber(FirstOccurrences(rows), n) <==> HasNumber(rows, n)
    {
      FirstOccurrencesHaveNumbers(rows, n);
    }
    FirstOccurrencesAreFirst(rows);
    if rows != [] {
      var init, last := rows[..|rows| - 1], rows[|rows| - 1];
      var kept := FirstOccurrences(init);
      FirstOccurrencesAreDistinct(init);
      assert FirstOccurrences(rows) == if HasNumber(init, last.number) then kept else kept + [last];
      if !HasNumber(init, last.number) {
        forall i | 0 <= i < |kept|
          ensures kept[i].number != last.number
        {
          assert HasNumber(kept, kept[i].number);
        }
      }
    }
  }

  predicate AtNumber(a: Account, target: ChartId, n: int) {
    a.coaId == target && a.number == n
  }

  /** The chart has an account of this number. */
  ghost predicate HasAccountAt(accounts: Accounts, target: ChartId, n: int) {
    exists i :: i in accounts && AtNumber(accounts[i], target, n)
  }

  /** The account of chart `target` with number `n`. */
  function FindByNumber(accounts: Accounts, target: ChartId, n: int): (r: Option<AccountId>)
    requires UniqueNumbers(accounts)
    ensures r.Some? ==> r.value in accounts && AtNumber(accounts[r.value], target, n)
    ensures r.None? ==> forall i | i in accounts :: !AtNumber(accounts[i], target, n)
  {
    if exists i :: i in accounts && AtNumber(accounts[i], target, n) then
      assert forall i, j | i in accounts && j in accounts && AtNumber(accounts[i], target, n)
                           && AtNumber(accounts[j], target, n) ::
          SameKey(accounts[i], accounts[j]);
      var i :| i in accounts && AtNumber(accounts[i], target, n);
      Some(i)
    else None
  }

  /** A row of the file written on its own to account `id`, existing or new. */
  function WriteRow(charts: set<ChartId>, accounts: Accounts, chartId: Option<ChartId>, target: ChartId,
                    row: ImportRow, id: AccountId): Result<Accounts, WriteError>
    requires UniqueNumbers(accounts)
  {
    if id in accounts then Update(charts, accounts, chartId, id, RowBody(row, target))
    else Create(charts, accounts, chartId, id, RowBody(row, target))
  }

  /** One deduplicated row on its own, with propagation: an update, or a create when absent. */
  function ApplyRow(charts: set<ChartId>, accounts: Accounts, chartId: Option<ChartId>, target: ChartId,
                    row: ImportRow, newId: AccountId, updateExisting: bool): Result<Accounts, WriteError>
    requires UniqueNumbers(accounts) && newId !in accounts
  {
    match FindByNumber(accounts, target, row.number)
    case Some(i) => if updateExisting then WriteRow(charts, accounts, chartId, target, row, i) else Ok(accounts)
    case None => WriteRow(charts, accounts, chartId, target, row, newId)
  }

  /** New rows take their ids from `ids`, one per row. */
  ghost predicate FreshIds(ids: seq<AccountId>, accounts: Accounts) {
    && (forall k | 0 <= k < |ids| :: ids[k] !in accounts)
    && (forall j, k | 0 <= j < k < |ids| :: ids[j] != ids[k])
  }

  /**
   The meaning of an import: its rows one by one, each with propagation, the first error ending it.
   */
  ghost function ApplyRows(charts: set<ChartId>, accounts: Accounts, chartId: Option<ChartId>, target: ChartId,
                           rows: seq<ImportRow>, ids: seq<AccountId>, updateExisting: bool)
    : (r: Result<Accounts, WriteError>)
    requires Consistent(charts, accounts, chartId) && |ids| >= |rows| && FreshIds(ids, accounts)
    ensures r.Ok? ==> Consistent(charts, r.value, chartId)
    ensures r.Ok? ==> forall k | |rows| <= k < |ids| :: ids[k] !in r.value
  {
    if rows == [] then Ok(accounts)
    else
      var n := |rows| - 1;
      var r := ApplyRows(charts, accounts, chartId, target, rows[..n], ids, updateExisting);
      if r.Err? then r
      else
        ApplyRowKeepsConsistent(charts, r.value, chartId, target, rows[n], ids[n], updateExisting);
        ApplyRow(charts, r.value, chartId, target, rows[n], ids[n], updateExisting)
  }

  lemma ApplyRowKeepsConsistent(charts: set<ChartId>, accounts: Accounts, chartId: Option<ChartId>, target: ChartId,
                                row: ImportRow, newId: AccountId, updateExisting: bool)
    requires Consistent(charts, accounts, chartId) && newId !in accounts
    ensures var r := ApplyRow(charts, accounts, chartId, target, row, newId, updateExisting);
            r.Ok? ==> Consistent(charts, r.value, chartId) && accounts.Keys <= r.value.Keys <= accounts.Keys + {newId}
  {
    var r := ApplyRow(charts, accounts, chartId, target, row, newId, updateExisting);
    if r.Ok? {
      match FindByNumber(accounts, target, row.number)
      case Some(i) =>
        if updateExisting {
          NextIsConsistent(charts, accounts, chartId, target, row, i);
        }
      case None => NextIsConsistent(charts, accounts, chartId, target, row, newId);
    }
  }

  // ----- One row of the import -----

  /** The row an import saves, whether it updates or creates. */
  function ImportedRow(row: ImportRow, target: ChartId, chartId: Option<ChartId>, known: map<int, Source>): Account {
    Derived(CreatedEntity(RowBody(row, target)), GivenFields(true, true, true, true), chartId, known)
  }

  lemma ImportSavesTheSameRow(row: ImportRow, target: ChartId, chartId: Option<ChartId>, known: map<int, Source>,
                              before: Account)
    ensures UpdatedRow(before, RowBody(row, target), chartId, known) == Ok(ImportedRow(row, target, chartId, known))
    ensures CreatedRow(RowBody(row, target), chartId, known) == Ok(ImportedRow(row, target, chartId, known))
  {
  }

  predicate AgreesAt(known: map<int, Source>, sources: map<int, Source>, n: int) {
    (n in known <==> n in sources) && (n in known ==> known[n] == sources[n])
  }

  /** The preloaded map agrees with the chart on every number the file refers to. */
  ghost predicate KnownAgrees(known: map<int, Source>, sources: map<int, Source>, wanted: set<int>) {
    forall n | n in wanted :: AgreesAt(known, sources, n)
  }

  /** The followers of an imported row: at most its own number, which an import never changes. */
  function ImportFollowers(bulk: Accounts, id: AccountId, saved: Account, chartId: Option<ChartId>): set<int> {
    if id in bulk then Followers(bulk[id], saved, chartId) else CreateFollowers(saved, chartId)
  }

  /** What the import holds part way, against what the row-by-row meaning holds. */
  ghost predicate Corresponds(bulk: Accounts, rowByRow: Accounts, chartId: Option<ChartId>, target: ChartId) {
    && UniqueNumbers(bulk)
    && (chartId.Some? ==> rowByRow == Resync(bulk, chartId.value))
    && (chartId != Some(target) ==> rowByRow == bulk)
  }

  lemma SourcesAfterSave(accounts: Accounts, id: AccountId, row: Account, c: ChartId)
    requires UniqueNumbers(accounts) && UniqueNumbers(accounts[id := row])
    requires id in accounts ==> SameKey(accounts[id], row)
    ensures Sources(accounts[id := row], c)
            == if row.coaId == c then Sources(accounts, c)[row.number := SourceOf(row)] else Sources(accounts, c)
  {
    var sources := Sources(accounts, c);
    SourcesAre(accounts, c);
    SavedSources(sources, accounts, id, row, c);
    SourcesAre(accounts[id := row], c);
    SourcesUnique(if row.coaId == c then sources[row.number := SourceOf(row)] else sources,
                  Sources(accounts[id := row], c), accounts[id := row], c);
  }

  lemma SavedSources(sources: map<int, Source>, accounts: Accounts, id: AccountId, row: Account, c: ChartId)
    requires IsSources(sources, accounts, c) && UniqueNumbers(accounts[id := row])
    requires id in accounts ==> SameKey(accounts[id], row)
    ensures IsSources(if row.coaId == c then sources[row.number := SourceOf(row)] else sources, accounts[id := row], c)
  {
    var after := accounts[id := row];
    var m := if row.coaId == c then sources[row.number := SourceOf(row)] else sources;
    forall i | i in after && after[i].coaId == c
      ensures after[i].number in m && m[after[i].number] == SourceOf(after[i])
    {
      if i != id && row.coaId == c && after[i].number == row.number {
        assert SameKey(after[i], after[id]);
      }
    }
    forall n | n in m
      ensures exists i :: i in after && after[i].coaId == c && after[i].number == n
    {
      if row.coaId == c && n == row.number {
        assert after[id].number == n;
      } else {
        var i :| i in accounts && accounts[i].coaId == c && accounts[i].number == n;
        assert after[i].number == n;
      }
    }
  }

  /** A table in line is the resync of any table that differs from it only in the columns of mapped accounts. */
  lemma InLineIsResync(inLine: Accounts, other: Accounts, c: ChartId, sources: map<int, Source>)
    requires UniqueNumbers(inLine) && UniqueNumbers(other) && InLine(inLine, c) && SameButConsolidation(inLine, other)
    requires sources == Sources(inLine, c)
    requires forall a | a in inLine :: OnlyDerivedDiffers(inLine[a], other[a])
    requires forall a | a in inLine :: !Mapped(inLine[a], sources) ==> inLine[a] == other[a]
    ensures inLine == Resync(other, c)
  {
    SourcesAgree(inLine, other, c);
    InLineMeansNoneOutOfLine(inLine, c);
    forall a | a in inLine
      ensures inLine[a] == ResyncedRow(other[a], sources)
    {
      if Mapped(inLine[a], sources) {
        assert a !in OutOfLineRows(inLine, c);
      }
    }
    ResyncIsByRow(other, c);
  }

  /** Saving the same row on both sides: the bulk side fails exactly when the row-by-row side does. */
  lemma SaveFailsAlike(charts: set<ChartId>, bulk: Accounts, rowByRow: Accounts, id: AccountId, saved: Account)
    requires SameButConsolidation(bulk, rowByRow)
    ensures Save(charts, bulk, id, saved).Ok? <==> Save(charts, rowByRow, id, saved).Ok?
    ensures Save(charts, bulk, id, saved).Err? ==>
              Save(charts, rowByRow, id, saved) == Err(Save(charts, bulk, id, saved).error)
  {
    assert forall i :: i in bulk ==> (SameKey(bulk[i], saved) <==> SameKey(rowByRow[i], saved));
  }

  lemma CorrespondingTables(bulk: Accounts, rowByRow: Accounts, chartId: Option<ChartId>, target: ChartId)
    requires Corresponds(bulk, rowByRow, chartId, target)
    ensures SameButConsolidation(bulk, rowByRow) && forall a | a in bulk :: OnlyDerivedDiffers(bulk[a], rowByRow[a])
  {
    if chartId.Some? {
      ResyncKeepsIdentity(bulk, chartId.value);
    }
  }

  lemma KnownFindsAlike(row: ImportRow, target: ChartId, chartId: Option<ChartId>, known: map<int, Source>,
                        sources: map<int, Source>)
    requires chartId.Some? && row.consNumber.Some? ==> AgreesAt(known, sources, row.consNumber.value)
    ensures ImportedRow(row, target, chartId, known) == ImportedRow(row, target, chartId, sources)
  {
  }

  /** The same row saved on both sides, followed on the row-by-row side only. */
  lemma SavingCorresponds(charts: set<ChartId>, bulk: Accounts, rowByRow: Accounts, chartId: Option<ChartId>,
                          target: ChartId, known: map<int, Source>, wanted: set<int>, id: AccountId, saved: Account,
                          from: set<int>, next: Result<Accounts, WriteError>)
    requires Corresponds(bulk, rowByRow, chartId, target) && SameButConsolidation(bulk, rowByRow)
    requires chartId.Some? ==> KnownAgrees(known, Sources(bulk, chartId.value), wanted)
    requires saved.coaId == target && (id in bulk ==> SameKey(bulk[id], saved))
    requires from == ImportFollowers(bulk, id, saved, chartId)
    requires next == SaveAndFollow(charts, rowByRow, id, saved, from)
             && (next.Ok? ==> Consistent(charts, next.value, chartId))
    ensures Save(charts, bulk, id, saved).Err? ==> next == Err(Save(charts, bulk, id, saved).error)
    ensures Save(charts, bulk, id, saved).Ok? ==>
              && next.Ok? && Save(charts, bulk, id, saved).value == bulk[id := saved]
              && Corresponds(bulk[id := saved], next.value, chartId, target)
              && (chartId.Some? ==>
                    KnownAgrees(FollowKnown(known, saved, from), Sources(bulk[id := saved], chartId.value), wanted))
  {
    SaveFailsAlike(charts, bulk, rowByRow, id, saved);
    if Save(charts, bulk, id, saved).Ok? {
      SaveKeepsUnique(charts, bulk, id, saved);
      SavedTablesCorrespond(bulk, rowByRow, chartId, target, known, wanted, id, saved, from, next.value);
    }
  }

  /**
   One row: the import saves the row the row-by-row meaning saves, fails when it fails, and afterwards
   the two still correspond and the preloaded map still agrees with the chart.
   */
  lemma ImportRowCorresponds(charts: set<ChartId>, bulk: Accounts, rowByRow: Accounts, chartId: Option<ChartId>,
                             target: ChartId, known: map<int, Source>, wanted: set<int>, row: ImportRow, id: AccountId,
                             saved: Account, next: Result<Accounts, WriteError>)
    requires Corresponds(bulk, rowByRow, chartId, target) && Consistent(charts, rowByRow, chartId)
    requires chartId.Some? ==> KnownAgrees(known, Sources(bulk, chartId.value), wanted)
    requires row.consNumber.Some? ==> row.consNumber.value in wanted
    requires id in bulk ==> AtNumber(bulk[id], target, row.number)
    requires saved == ImportedRow(row, target, chartId, known)
    requires next == WriteRow(charts, rowByRow, chartId, target, row, id)
    ensures Save(charts, bulk, id, saved).Err? ==> next == Err(Save(charts, bulk, id, saved).error)
    ensures Save(charts, bulk, id, saved).Ok? ==>
              && next.Ok? && Save(charts, bulk, id, saved).value == bulk[id := saved]
              && Corresponds(bulk[id := saved], next.value, chartId, target)
              && (chartId.Some? ==> KnownAgrees(FollowKnown(known, saved, ImportFollowers(bulk, id, saved, chartId)),
                                                Sources(bulk[id := saved], chartId.value), wanted))
  {
    CorrespondingTables(bulk, rowByRow, chartId, target);
    LooksUpAlike(bulk, rowByRow, chartId, target, known, wanted, row);
    RowByRowSaves(charts, bulk, rowByRow, chartId, target, row, id);
    NextIsConsistent(charts, rowByRow, chartId, target, row, id);
    SavingCorresponds(charts, bulk, rowByRow, chartId, target, known, wanted, id, saved,
                      ImportFollowers(bulk, id, saved, chartId), next);
  }

  /** The same for a row the import does not skip, against its row-by-row meaning. */
  lemma WrittenRowCorresponds(charts: set<ChartId>, bulk: Accounts, rowByRow: Accounts, chartId: Option<ChartId>,
                              target: ChartId, known: map<int, Source>, wanted: set<int>, row: ImportRow,
                              newId: AccountId, updateExisting: bool, id: AccountId, saved: Account)
    requires Corresponds(bulk, rowByRow, chartId, target) && Consistent(charts, rowByRow, chartId) && newId !in rowByRow
    requires chartId.Some? ==> KnownAgrees(known, Sources(bulk, chartId.value), wanted)
    requires row.consNumber.Some? ==> row.consNumber.value in wanted
    requires id in bulk ==> AtNumber(bulk[id], target, row.number)
    requires saved == ImportedRow(row, target, chartId, known)
    requires var found := FindByNumber(rowByRow, target, row.number);
             if found.Some? then id == found.value && updateExisting else id == newId
    ensures var outcome := Save(charts, bulk, id, saved);
            var next := ApplyRow(charts, rowByRow, chartId, target, row, newId, updateExisting);
            if outcome.Err? then next == Err(outcome.error)
            else
              && next.Ok? && outcome.value == bulk[id := saved]
              && Corresponds(bulk[id := saved], next.value, chartId, target)
              && (chartId.Some? ==> KnownAgrees(FollowKnown(known, saved, ImportFollowers(bulk, id, saved, chartId)),
                                                Sources(bulk[id := saved], chartId.value), wanted))
  {
    ImportRowCorresponds(charts, bulk, rowByRow, chartId, target, known, wanted, row, id, saved,
                         WriteRow(charts, rowByRow, chartId, target, row, id));
  }

  /** One resync at the end closes the gap the import leaves open. */
  lemma ResyncClosesGap(bulk: Accounts, rowByRow: Accounts, chartId: Option<ChartId>, target: ChartId)
    requires Corresponds(bulk, rowByRow, chartId, target)
    ensures rowByRow == if chartId == Some(target) then Resync(bulk, target) else bulk
  {
  }

  lemma LooksUpAlike(bulk: Accounts, rowByRow: Accounts, chartId: Option<ChartId>, target: ChartId,
                     known: map<int, Source>, wanted: set<int>, row: ImportRow)
    requires UniqueNumbers(bulk) && UniqueNumbers(rowByRow) && SameButConsolidation(bulk, rowByRow)
    requires chartId.Some? ==> KnownAgrees(known, Sources(bulk, chartId.value), wanted)
    requires row.consNumber.Some? ==> row.consNumber.value in wanted
    ensures ImportedRow(row, target, chartId, known) == ImportedRow(row, target, chartId, KnownTo(rowByRow, chartId))
  {
    if chartId.Some? {
      SourcesAgree(bulk, rowByRow, chartId.value);
    }
    KnownFindsAlike(row, target, chartId, known, KnownTo(rowByRow, chartId));
  }

  lemma NextIsConsistent(charts: set<ChartId>, rowByRow: Accounts, chartId: Option<ChartId>, target: ChartId,
                         row: ImportRow, id: AccountId)
    requires Consistent(charts, rowByRow, chartId)
    ensures var next := WriteRow(charts, rowByRow, chartId, target, row, id);
            next.Ok? ==> Consistent(charts, next.value, chartId)
  {
    if WriteRow(charts, rowByRow, chartId, target, row, id).Ok? {
      if id in rowByRow {
        UpdateKeepsConsistent(charts, rowByRow, chartId, id, RowBody(row, target));
      } else {
        CreateKeepsConsistent(charts, rowByRow, chartId, id, RowBody(row, target));
      }
    }
  }

  lemma SaveKeepsUnique(charts: set<ChartId>, accounts: Accounts, id: AccountId, row: Account)
    requires UniqueNumbers(accounts) && Save(charts, accounts, id, row).Ok?
    ensures UniqueNumbers(accounts[id := row])
  {
  }

  lemma RowByRowSaves(charts: set<ChartId>, bulk: Accounts, rowByRow: Accounts, chartId: Option<ChartId>,
                      target: ChartId, row: ImportRow, id: AccountId)
    requires UniqueNumbers(rowByRow) && SameButConsolidation(bulk, rowByRow)
    ensures var saved := ImportedRow(row, target, chartId, KnownTo(rowByRow, chartId));
            WriteRow(charts, rowByRow, chartId, target, row, id)
            == SaveAndFollow(charts, rowByRow, id, saved, ImportFollowers(bulk, id, saved, chartId))
  {
    var known := KnownTo(rowByRow, chartId);
    var saved := ImportedRow(row, target, chartId, known);
    ImportSavesTheSameRow(row, target, chartId, known, if id in rowByRow then rowByRow[id] else saved);
  }

  lemma SavedTablesCorrespond(bulk: Accounts, rowByRow: Accounts, chartId: Option<ChartId>, target: ChartId,
                              known: map<int, Source>, wanted: set<int>, id: AccountId, saved: Account, from: set<int>,
                              next: Accounts)
    requires Corresponds(bulk, rowByRow, chartId, target)
    requires chartId.Some? ==> KnownAgrees(known, Sources(bulk, chartId.value), wanted)
    requires saved.coaId == target && UniqueNumbers(bulk[id := saved]) && (id in bulk ==> SameKey(bulk[id], saved))
    requires from == ImportFollowers(bulk, id, saved, chartId) && next == Follow(rowByRow[id := saved], id, from)
    requires UniqueNumbers(next) && (chartId.Some? ==> InLine(next, chartId.value))
    ensures Corresponds(bulk[id := saved], next, chartId, target)
    ensures chartId.Some? ==>
              KnownAgrees(FollowKnown(known, saved, from), Sources(bulk[id := saved], chartId.value), wanted)
  {
    if chartId.Some? {
      var c := chartId.value;
      SourcesAfterSave(bulk, id, saved, c);
      if id in bulk && saved.coaId == c {
        SourceAt(bulk, c, id);
      }
      KnownAgreesAfter(known, Sources(bulk, c), wanted, saved, from);
      if c == target {
        ChartRowCorresponds(bulk, rowByRow, c, id, saved, from, next);
      } else {
        ResyncReachesFixpoint(bulk[id := saved], c, Resync(bulk[id := saved], c));
      }
    }
  }

  lemma KnownAgreesAfter(known: map<int, Source>, sources: map<int, Source>, wanted: set<int>, saved: Account,
                         from: set<int>)
    requires KnownAgrees(known, sources, wanted)
    requires from == {} || from == {saved.number}
    ensures from == {} ==> KnownAgrees(FollowKnown(known, saved, from), sources, wanted)
    ensures from != {} ==>
              KnownAgrees(FollowKnown(known, saved, from), sources[saved.number := SourceOf(saved)], wanted)
    ensures from == {} && saved.number in sources && sources[saved.number] == SourceOf(saved)
            ==> KnownAgrees(FollowKnown(known, saved, from), sources[saved.number := SourceOf(saved)], wanted)
  {
  }

  /** What following `saved` makes of one other row. */
  function FollowedRow(row: Account, saved: Account, from: set<int>): Account {
    if row.consNumber.Some? && row.consNumber.value in from
    then WithSource(row.(consNumber := Some(saved.number)), SourceOf(saved))
    else row
  }

  lemma FollowedRowStays(row: Account, sources: map<int, Source>, saved: Account, from: set<int>)
    requires from == {} || from == {saved.number}
    ensures var followed := FollowedRow(ResyncedRow(row, sources), saved, from);
            && OnlyDerivedDiffers(followed, row)
            && (!Mapped(followed, sources[saved.number := SourceOf(saved)]) ==> followed == row)
  {
  }

  lemma FollowedRows(bulk: Accounts, rowByRow: Accounts, sources: map<int, Source>, id: AccountId, saved: Account,
                     from: set<int>, next: Accounts)
    requires rowByRow.Keys == bulk.Keys && forall a | a in bulk :: rowByRow[a] == ResyncedRow(bulk[a], sources)
    requires (from == {} || from == {saved.number}) && next == Follow(rowByRow[id := saved], id, from)
    ensures next.Keys == bulk.Keys + {id} && next[id] == saved
    ensures forall a | a in bulk && a != id :: next[a] == FollowedRow(ResyncedRow(bulk[a], sources), saved, from)
  {
  }

  lemma ChartRowsStay(bulk: Accounts, rowByRow: Accounts, sources: map<int, Source>, id: AccountId, saved: Account,
                      from: set<int>, next: Accounts)
    requires rowByRow.Keys == bulk.Keys && forall a | a in bulk :: rowByRow[a] == ResyncedRow(bulk[a], sources)
    requires (from == {} || from == {saved.number}) && next == Follow(rowByRow[id := saved], id, from)
    ensures SameButConsolidation(next, bulk[id := saved])
    ensures forall a | a in next :: OnlyDerivedDiffers(next[a], bulk[id := saved][a])
    ensures forall a | a in next ::
              !Mapped(next[a], sources[saved.number := SourceOf(saved)]) ==> next[a] == bulk[id := saved][a]
  {
    FollowedRows(bulk, rowByRow, sources, id, saved, from, next);
    forall a | a in bulk && a != id
      ensures OnlyDerivedDiffers(next[a], bulk[a])
      ensures !Mapped(next[a], sources[saved.number := SourceOf(saved)]) ==> next[a] == bulk[a]
    {
      FollowedRowStays(bulk[a], sources, saved, from);
    }
  }

  lemma ChartRowCorresponds(bulk: Accounts, rowByRow: Accounts, c: ChartId, id: AccountId, saved: Account,
                            from: set<int>, next: Accounts)
    requires UniqueNumbers(bulk) && rowByRow == Resync(bulk, c) && saved.coaId == c && UniqueNumbers(bulk[id := saved])
    requires id in bulk ==> SameKey(bulk[id], saved)
    requires from == {} || from == {saved.number}
    requires id in rowByRow[id := saved] && next == Follow(rowByRow[id := saved], id, from)
    requires UniqueNumbers(next) && InLine(next, c)
    ensures next == Resync(bulk[id := saved], c)
  {
    var bulkAfter := bulk[id := saved];
    var sources := Sources(bulk, c);
    var after := sources[saved.number := SourceOf(saved)];
    ResyncIsByRow(bulk, c);
    ChartRowsStay(bulk, rowByRow, sources, id, saved, from, next);
    SourcesAfterSave(bulk, id, saved, c);
    SourcesAgree(next, bulkAfter, c);
    InLineIsResync(next, bulkAfter, c, after);
  }

  // ----- The loop over the rows -----

  lemma FindIs(accounts: Accounts, target: ChartId, n: int, i: AccountId)
    requires UniqueNumbers(accounts) && i in accounts && AtNumber(accounts[i], target, n)
    ensures FindByNumber(accounts, target, n) == Some(i)
  {
    assert SameKey(accounts[FindByNumber(accounts, target, n).value], accounts[i]);
  }

  lemma NoneFound(accounts: Accounts, same: Accounts, target: ChartId, n: int)
    requires UniqueNumbers(same) && SameButConsolidation(accounts, same)
    requires forall i | i in accounts :: !AtNumber(accounts[i], target, n)
    ensures FindByNumber(same, target, n).None?
  {
  }

  /** The accounts at number `n` of the target chart are still those of `start`. */
  ghost predicate Untouched(accounts: Accounts, start: Accounts, target: ChartId, n: int) {
    && (forall i | i in accounts && AtNumber(accounts[i], target, n) :: i in start && start[i] == accounts[i])
    && (forall i | i in start && AtNumber(start[i], target, n) :: i in accounts && start[i] == accounts[i])
  }

  lemma SaveLeavesOthersUntouched(accounts: Accounts, start: Accounts, target: ChartId, n: int, id: AccountId,
                                  saved: Account)
    requires Untouched(accounts, start, target, n) && !AtNumber(saved, target, n)
    requires id in accounts ==> !AtNumber(accounts[id], target, n)
    ensures Untouched(accounts[id := saved], start, target, n)
  {
  }

  /** The rows from `k` on still find what they would have found at the start, and their ids are unused. */
  ghost predicate RowsLeft(accounts: Accounts, start: Accounts, target: ChartId, rows: seq<ImportRow>,
                           ids: seq<AccountId>, k: nat)
  {
    && (forall j | k <= j < |rows| :: Untouched(accounts, start, target, rows[j].number))
    && (forall j | k <= j < |ids| :: ids[j] !in accounts)
  }

  lemma RowsLeftAfter(before: Accounts, after: Accounts, start: Accounts, target: ChartId, rows: seq<ImportRow>,
                      ids: seq<AccountId>, k: nat, id: AccountId, saved: Account)
    requires k < |rows| <= |ids| && DistinctNumbers(rows) && FreshIds(ids, start)
    requires RowsLeft(before, start, target, rows, ids, k) && (after == before || after == before[id := saved])
    requires AtNumber(saved, target, rows[k].number)
    requires if id in before then AtNumber(before[id], target, rows[k].number) else id == ids[k]
    ensures RowsLeft(after, start, target, rows, ids, k + 1)
  {
    forall j | k + 1 <= j < |rows|
      ensures Untouched(after, start, target, rows[j].number)
    {
      if after != before {
        assert rows[j].number != rows[k].number;
        SaveLeavesOthersUntouched(before, start, target, rows[j].number, id, saved);
      }
    }
  }
}
