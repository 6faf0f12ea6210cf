/**
 The table an import leaves, column by column (`importCsv` of `backend/src/accounts/accounts.service.ts`):
 what each row of the file stores, and what becomes of every other account.
 */
module ImportedTable {
  import opened Wrappers
  import opened Ledger
  import opened AccountWrites
  import opened AccountImport

  /**
   The account holds the columns of the row, in the target chart; its consolidation columns are those of its
   consolidation account when there is one, and otherwise the row's (none for a row without a number).
   */
  ghost predicate Stores(a: Account, row: ImportRow, target: ChartId, accounts: Accounts, chartId: Option<ChartId>) {
    && a.coaId == target && a.number == row.number && a.name == row.name && a.description == row.description
    && a.consNumber == row.consNumber
    && DerivesOr(a, accounts, chartId, if row.consNumber.None? then None else row.consName,
                 if row.consNumber.None? then None else row.consDescription)
  }

  /** The account is as it was before, but for the columns of a consolidation account it has now. */
  ghost predicate Keeps(a: Account, before: Account, accounts: Accounts, chartId: Option<ChartId>) {
    && a.coaId == before.coaId && a.number == before.number && a.name == before.name
    && a.description == before.description && a.consNumber == before.consNumber
    && DerivesOr(a, accounts, chartId, before.consName, before.consDescription)
  }

  /** One of the first `k` rows is about this account. */
  ghost predicate IsNamed(a: Account, target: ChartId, rows: seq<ImportRow>, k: nat)
    requires k <= |rows|
  {
    a.coaId == target && exists j :: 0 <= j < k && rows[j].number == a.number
  }

  /** The new accounts: one for each row whose number the target chart did not have. */
  ghost predicate AddsMissing(start: Accounts, after: Accounts, chartId: Option<ChartId>, target: ChartId,
                              rows: seq<ImportRow>, ids: seq<AccountId>, k: nat)
    requires k <= |rows| <= |ids|
  {
    && start.Keys <= after.Keys
    && (forall i | i in after && i !in start ::
          exists j :: 0 <= j < k && ids[j] == i && !HasAccountAt(start, target, rows[j].number))
    && (forall j | 0 <= j < k && !HasAccountAt(start, target, rows[j].number) ::
          ids[j] in after && Stores(after[ids[j]], rows[j], target, after, chartId))
  }

  /** The accounts there were: those a row is about store the row, unless they are skipped; all others keep theirs. */
  ghost predicate UpdatesNamed(start: Accounts, after: Accounts, chartId: Option<ChartId>, target: ChartId,
                               rows: seq<ImportRow>, k: nat, updateExisting: bool)
    requires k <= |rows|
  {
    && start.Keys <= after.Keys
    && (forall i | i in start && !(updateExisting && IsNamed(start[i], target, rows, k)) ::
          Keeps(after[i], start[i], after, chartId) && (chartId != Some(target) ==> after[i] == start[i]))
    && (forall i, j | i in start && 0 <= j < k && updateExisting && AtNumber(start[i], target, rows[j].number) ::
          Stores(after[i], rows[j], target, after, chartId))
  }

  /** The whole table after the first `k` rows. */
  ghost predicate IsImported(start: Accounts, after: Accounts, chartId: Option<ChartId>, target: ChartId,
                             rows: seq<ImportRow>, ids: seq<AccountId>, k: nat, updateExisting: bool)
    requires k <= |rows| <= |ids|
  {
    && AddsMissing(start, after, chartId, target, rows, ids, k)
    && UpdatesNamed(start, after, chartId, target, rows, k, updateExisting)
  }

  // ----- One row -----

  /** What writing one row to account `id` does to the table. */
  ghost predicate IsWritten(before: Accounts, after: Accounts, chartId: Option<ChartId>, target: ChartId,
                            row: ImportRow, id: AccountId)
  {
    && after.Keys == before.Keys + {id} && Stores(after[id], row, target, after, chartId)
    && (forall a | a in before && a != id ::
          if chartId == Some(target) && before[a].consNumber == Some(row.number)
          then PointsTo(after[a], before[a], after[id]) else after[a] == before[a])
  }

  lemma WritingStores(charts: set<ChartId>, before: Accounts, chartId: Option<ChartId>, target: ChartId,
                      row: ImportRow, id: AccountId, after: Accounts)
    requires Consistent(charts, before, chartId) && WriteRow(charts, before, chartId, target, row, id) == Ok(after)
    requires id in before ==> AtNumber(before[id], target, row.number)
    ensures IsWritten(before, after, chartId, target, row, id)
  {
    var body := RowBody(row, target);
    if id in before {
      UpdateStores(charts, before, chartId, id, body, after);
      UpdateDerives(charts, before, chartId, id, body, after);
      UpdateMovesFollowers(charts, before, chartId, id, body, after);
    } else {
      CreateStores(charts, before, chartId, id, body, after);
      CreateDerives(charts, before, chartId, id, body, after);
      CreateMovesFollowers(charts, before, chartId, id, body, after);
    }
  }

  /** Writing a row fails exactly when the target chart does not exist. */
  lemma WritingFails(charts: set<ChartId>, before: Accounts, chartId: Option<ChartId>, target: ChartId,
                     row: ImportRow, id: AccountId)
    requires Consistent(charts, before, chartId)
    requires if HasAccountAt(before, target, row.number) then id in before && AtNumber(before[id], target, row.number)
             else id !in before
    ensures var r := WriteRow(charts, before, chartId, target, row, id);
            (r.Ok? <==> target in charts) && (r.Err? ==> r.error == UnknownChart)
  {
    var body := RowBody(row, target);
    assert !NumberTaken(before, id, target, row.number) by {
      if i :| i in before && i != id && before[i].coaId == target && before[i].number == row.number {
        assert AtNumber(before[i], target, row.number);
        assert SameKey(before[i], before[id]);
      }
    }
    if id in before {
      UpdateAnswers(charts, before, chartId, id, body);
    } else {
      CreateAnswers(charts, before, chartId, id, body);
    }
  }

  /** The account a row that is not skipped is written to. */
  ghost predicate IsPlace(before: Accounts, target: ChartId, row: ImportRow, newId: AccountId, id: AccountId) {
    if HasAccountAt(before, target, row.number) then id in before && AtNumber(before[id], target, row.number)
    else id == newId
  }

  lemma ApplyingStores(charts: set<ChartId>, before: Accounts, chartId: Option<ChartId>, target: ChartId,
                       row: ImportRow, newId: AccountId, updateExisting: bool, after: Accounts)
    returns (id: AccountId)
    requires Consistent(charts, before, chartId) && newId !in before
    requires ApplyRow(charts, before, chartId, target, row, newId, updateExisting) == Ok(after)
    ensures if HasAccountAt(before, target, row.number) && !updateExisting then after == before
            else IsPlace(before, target, row, newId, id) && IsWritten(before, after, chartId, target, row, id)
  {
    var found := FindByNumber(before, target, row.number);
    id := if found.Some? then found.value else newId;
    if found.None? || updateExisting {
      WritingStores(charts, before, chartId, target, row, id, after);
    }
  }

  // ----- The rows one after the other -----

  /** The consolidation columns of another account go on as they must. */
  lemma DerivesFurther(before: Accounts, after: Accounts, chartId: Option<ChartId>, target: ChartId, row: ImportRow,
                       id: AccountId, a: AccountId, name: Option<string>, description: Option<string>)
    requires chartId.Some? ==> InLine(after, chartId.value)
    requires IsWritten(before, after, chartId, target, row, id)
    requires id in before ==> AtNumber(before[id], target, row.number)
    requires a in before && a != id && DerivesOr(before[a], before, chartId, name, description)
    ensures DerivesOr(after[a], after, chartId, name, description)
  {
    forall s | s in after && chartId == Some(after[s].coaId) && after[a].consNumber == Some(after[s].number)
      ensures after[a].consName == Some(after[s].name) && after[a].consDescription == after[s].description
    {
      assert MapsTo(after[a], after[s]);
    }
    if forall s | s in after :: chartId != Some(after[s].coaId) || after[a].consNumber != Some(after[s].number) {
      assert chartId != Some(after[id].coaId) || after[a].consNumber != Some(after[id].number);
      forall s | s in before
        ensures chartId != Some(before[s].coaId) || before[a].consNumber != Some(before[s].number)
      {
        assert after[s].coaId == before[s].coaId && after[s].number == before[s].number;
      }
    }
  }

  /** Accounts there were keep their place, and new ones have a number of the file. */
  lemma PlacesStay(start: Accounts, after: Accounts, chartId: Option<ChartId>, target: ChartId, rows: seq<ImportRow>,
                   ids: seq<AccountId>, k: nat, updateExisting: bool)
    requires k <= |rows| <= |ids| && IsImported(start, after, chartId, target, rows, ids, k, updateExisting)
    ensures forall i | i in start :: SameKey(after[i], start[i])
    ensures forall i | i in after && i !in start :: exists j :: 0 <= j < k && AtNumber(after[i], target, rows[j].number)
  {
    forall i | i in start
      ensures SameKey(after[i], start[i])
    {
      if updateExisting && IsNamed(start[i], target, rows, k) {
        var j :| 0 <= j < k && rows[j].number == start[i].number;
        assert AtNumber(start[i], target, rows[j].number);
      }
    }
  }

  /** The next row finds an account exactly when there was one at the start, and then that one. */
  lemma FindsFromStart(start: Accounts, after: Accounts, chartId: Option<ChartId>, target: ChartId,
                       rows: seq<ImportRow>, ids: seq<AccountId>, k: nat, updateExisting: bool)
    requires k < |rows| <= |ids| && DistinctNumbers(rows)
    requires IsImported(start, after, chartId, target, rows, ids, k, updateExisting)
    ensures HasAccountAt(after, target, rows[k].number) <==> HasAccountAt(start, target, rows[k].number)
    ensures forall i | i in after && AtNumber(after[i], target, rows[k].number) ::
              i in start && AtNumber(start[i], target, rows[k].number)
  {
    PlacesStay(start, after, chartId, target, rows, ids, k, updateExisting);
    forall i | i in after && AtNumber(after[i], target, rows[k].number)
      ensures i in start && AtNumber(start[i], target, rows[k].number)
    {
    }
    if i :| i in start && AtNumber(start[i], target, rows[k].number) {
      assert AtNumber(after[i], target, rows[k].number);
    }
  }

  /** An account the next row is not written to: what it stores or keeps, it goes on storing or keeping. */
  lemma OthersGoOn(before: Accounts, after: Accounts, chartId: Option<ChartId>, target: ChartId, row: ImportRow,
                   id: AccountId, a: AccountId)
    requires chartId.Some? ==> InLine(after, chartId.value)
    requires IsWritten(before, after, chartId, target, row, id) && a in before && a != id
    requires id in before ==> AtNumber(before[id], target, row.number)
    ensures a in after
    ensures forall other | Stores(before[a], other, target, before, chartId) ::
              Stores(after[a], other, target, after, chartId)
    ensures forall was | Keeps(before[a], was, before, chartId) :: Keeps(after[a], was, after, chartId)
  {
    forall other | Stores(before[a], other, target, before, chartId)
      ensures Stores(after[a], other, target, after, chartId)
    {
      DerivesFurther(before, after, chartId, target, row, id, a,
                     if other.consNumber.None? then None else other.consName,
                     if other.consNumber.None? then None else other.consDescription);
    }
    forall was | Keeps(before[a], was, before, chartId)
      ensures Keeps(after[a], was, after, chartId)
    {
      DerivesFurther(before, after, chartId, target, row, id, a, was.consName, was.consDescription);
    }
  }

  lemma OneMoreAdded(start: Accounts, before: Accounts, after: Accounts, chartId: Option<ChartId>, target: ChartId,
                     rows: seq<ImportRow>, ids: seq<AccountId>, k: nat, id: AccountId)
    requires k < |rows| <= |ids| && FreshIds(ids, start) && AddsMissing(start, before, chartId, target, rows, ids, k)
    requires chartId.Some? ==> InLine(after, chartId.value)
    requires IsWritten(before, after, chartId, target, rows[k], id)
    requires id in before ==> AtNumber(before[id], target, rows[k].number)
    requires if HasAccountAt(start, target, rows[k].number) then id in start else id == ids[k] && id !in before
    ensures AddsMissing(start, after, chartId, target, rows, ids, k + 1)
  {
    forall j | 0 <= j < k && !HasAccountAt(start, target, rows[j].number)
      ensures ids[j] in after && Stores(after[ids[j]], rows[j], target, after, chartId)
    {
      OthersGoOn(before, after, chartId, target, rows[k], id, ids[j]);
    }
  }

  lemma OneMoreUpdated(start: Accounts, before: Accounts, after: Accounts, chartId: Option<ChartId>, target: ChartId,
                       rows: seq<ImportRow>, k: nat, id: AccountId, updateExisting: bool)
    requires k < |rows| && DistinctNumbers(rows)
    requires UpdatesNamed(start, before, chartId, target, rows, k, updateExisting)
    requires chartId.Some? ==> InLine(after, chartId.value)
    requires IsWritten(before, after, chartId, target, rows[k], id)
    requires id in before ==> AtNumber(before[id], target, rows[k].number)
    requires id in start ==> updateExisting
    requires forall i | i in start && AtNumber(start[i], target, rows[k].number) :: i == id
    requires id in start ==> AtNumber(start[id], target, rows[k].number)
    ensures UpdatesNamed(start, after, chartId, target, rows, k + 1, updateExisting)
  {
    forall i | i in start && !(updateExisting && IsNamed(start[i], target, rows, k + 1))
      ensures Keeps(after[i], start[i], after, chartId) && (chartId != Some(target) ==> after[i] == start[i])
    {
      assert i != id;
      assert !(updateExisting && IsNamed(start[i], target, rows, k));
      OthersGoOn(before, after, chartId, target, rows[k], id, i);
    }
    forall i, j | i in start && 0 <= j < k + 1 && updateExisting && AtNumber(start[i], target, rows[j].number)
      ensures Stores(after[i], rows[j], target, after, chartId)
    {
      if j < k {
        assert rows[j].number != rows[k].number;
        OthersGoOn(before, after, chartId, target, rows[k], id, i);
      }
    }
  }

  /** One row more, written or skipped. */
  lemma OneMoreRow(charts: set<ChartId>, start: Accounts, before: Accounts, after: Accounts, chartId: Option<ChartId>,
                   target: ChartId, rows: seq<ImportRow>, ids: seq<AccountId>, k: nat, updateExisting: bool)
    requires k < |rows| <= |ids| && DistinctNumbers(rows) && FreshIds(ids, start)
    requires Consistent(charts, start, chartId) && Consistent(charts, before, chartId) && ids[k] !in before
    requires IsImported(start, before, chartId, target, rows, ids, k, updateExisting)
    requires ApplyRow(charts, before, chartId, target, rows[k], ids[k], updateExisting) == Ok(after)
    ensures IsImported(start, after, chartId, target, rows, ids, k + 1, updateExisting)
  {
    FindsFromStart(start, before, chartId, target, rows, ids, k, updateExisting);
    var id := ApplyingStores(charts, before, chartId, target, rows[k], ids[k], updateExisting, after);
    if HasAccountAt(before, target, rows[k].number) && !updateExisting {
      return;
    }
    ApplyRowKeepsConsistent(charts, before, chartId, target, rows[k], ids[k], updateExisting);
    forall i | i in start && AtNumber(start[i], target, rows[k].number)
      ensures i == id
    {
      assert HasAccountAt(start, target, rows[k].number);
      assert SameKey(start[i], start[id]);
    }
    OneMoreAdded(start, before, after, chartId, target, rows, ids, k, id);
    OneMoreUpdated(start, before, after, chartId, target, rows, k, id, updateExisting);
  }

  lemma {:induction false} RowsAreImported(charts: set<ChartId>, start: Accounts, chartId: Option<ChartId>,
                                           target: ChartId, rows: seq<ImportRow>, ids: seq<AccountId>, k: nat,
                                           updateExisting: bool)
    requires k <= |rows| <= |ids| && DistinctNumbers(rows) && FreshIds(ids, start)
    requires Consistent(charts, start, chartId)
    requires ApplyRows(charts, start, chartId, target, rows[..k], ids, updateExisting).Ok?
    ensures IsImported(start, ApplyRows(charts, start, chartId, target, rows[..k], ids, updateExisting).value, chartId,
                       target, rows, ids, k, updateExisting)
  {
    if k == 0 {
      NoRowsYet(charts, start, chartId, target, rows, ids, updateExisting);
    } else {
      assert rows[..k][..k - 1] == rows[..k - 1];
      var before := ApplyRows(charts, start, chartId, target, rows[..k - 1], ids, updateExisting);
      RowsAreImported(charts, start, chartId, target, rows, ids, k - 1, updateExisting);
      OneMoreRow(charts, start, before.value,
                 ApplyRows(charts, start, chartId, target, rows[..k], ids, updateExisting).value, chartId, target, rows,
                 ids, k - 1, updateExisting);
    }
  }

  lemma NoRowsYet(charts: set<ChartId>, start: Accounts, chartId: Option<ChartId>, target: ChartId,
                  rows: seq<ImportRow>, ids: seq<AccountId>, updateExisting: bool)
    requires |rows| <= |ids| && Consistent(charts, start, chartId)
    ensures IsImported(start, start, chartId, target, rows, ids, 0, updateExisting)
  {
    forall i | i in start
      ensures Keeps(start[i], start[i], start, chartId)
    {
      assert forall s | s in start && chartId == Some(start[s].coaId) && start[i].consNumber == Some(start[s].number) ::
          MapsTo(start[i], start[s]);
    }
  }

  /**
   The table an import leaves.  Each row whose number is new has a new account that stores its columns; an
   account a row is about stores them too, or keeps its own when existing accounts are skipped; every other
   account keeps its own; and the consolidation columns are everywhere those of the consolidation account
   when there is one.
   */
  lemma ImportStoresRows(charts: set<ChartId>, start: Accounts, chartId: Option<ChartId>, target: ChartId,
                         rows: seq<ImportRow>, ids: seq<AccountId>, updateExisting: bool, after: Accounts)
    requires |rows| <= |ids| && DistinctNumbers(rows) && FreshIds(ids, start) && Consistent(charts, start, chartId)
    requires ApplyRows(charts, start, chartId, target, rows, ids, updateExisting) == Ok(after)
    ensures IsImported(start, after, chartId, target, rows, ids, |rows|, updateExisting)
  {
    assert rows[..|rows|] == rows;
    RowsAreImported(charts, start, chartId, target, rows, ids, |rows|, updateExisting);
  }

  /** An import fails exactly when it has a row and its target chart does not exist. */
  lemma {:induction false} ImportFailsExactly(charts: set<ChartId>, start: Accounts, chartId: Option<ChartId>,
                                              target: ChartId, rows: seq<ImportRow>, ids: seq<AccountId>,
                                              updateExisting: bool)
    requires |rows| <= |ids| && FreshIds(ids, start) && Consistent(charts, start, chartId)
    ensures var r := ApplyRows(charts, start, chartId, target, rows, ids, updateExisting);
            (r.Ok? <==> rows == [] || target in charts) && (r.Err? ==> r.error == UnknownChart)
  {
    if rows != [] {
      var n := |rows| - 1;
      var before := ApplyRows(charts, start, chartId, target, rows[..n], ids, updateExisting);
      ImportFailsExactly(charts, start, chartId, target, rows[..n], ids, updateExisting);
      if before.Ok? {
        ApplyingFails(charts, before.value, chartId, target, rows[n], ids[n], updateExisting);
      }
    }
  }

  lemma ApplyingFails(charts: set<ChartId>, before: Accounts, chartId: Option<ChartId>, target: ChartId,
                      row: ImportRow, newId: AccountId, updateExisting: bool)
    requires Consistent(charts, before, chartId) && newId !in before
    ensures var r := ApplyRow(charts, before, chartId, target, row, newId, updateExisting);
            (r.Ok? <==> target in charts) && (r.Err? ==> r.error == UnknownChart)
  {
    var found := FindByNumber(before, target, row.number);
    if found.None? || updateExisting {
      WritingFails(charts, before, chartId, target, row, if found.Some? then found.value else newId);
    }
  }
}
