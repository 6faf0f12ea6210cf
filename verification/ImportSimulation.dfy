/**
 The row loop of a CSV import against the rows applied one by one with propagation.  What one row means is
 passed as a function, so that the loop is about the correspondence and not about what a row does.
 */
module ImportSimulation {
  import opened Wrappers
  import opened Ledger
  import opened AccountWrites
  import opened AccountImport

  type RowMeaning = (Accounts, ImportRow, AccountId) -> Result<Accounts, WriteError>

  /** What an import does not change while it runs. */
  datatype Setting = Setting(
    charts: set<ChartId>,
    chartId: Option<ChartId>,
    target: ChartId,
    updateExisting: bool,
    wanted: set<int>)

  /** One row on its own, with propagation. */
  ghost function Meaning(s: Setting): RowMeaning {
    (accounts: Accounts, row: ImportRow, newId: AccountId) =>
      if UniqueNumbers(accounts) && newId !in accounts
      then ApplyRow(s.charts, accounts, s.chartId, s.target, row, newId, s.updateExisting)
      else Ok(accounts)
  }

  /** Rows one after the other, the first error ending them. */
  ghost function Applied(apply: RowMeaning, accounts: Accounts, rows: seq<ImportRow>, ids: seq<AccountId>)
    : Result<Accounts, WriteError>
    requires |ids| >= |rows|
  {
    if rows == [] then Ok(accounts)
    else
      var n := |rows| - 1;
      var before := Applied(apply, accounts, rows[..n], ids);
      if before.Err? then before else apply(before.value, rows[n], ids[n])
  }

  lemma {:induction false} AppliedIsApplyRows(s: Setting, accounts: Accounts, rows: seq<ImportRow>, ids: seq<AccountId>)
    requires Consistent(s.charts, accounts, s.chartId) && |ids| >= |rows| && FreshIds(ids, accounts)
    ensures Applied(Meaning(s), accounts, rows, ids)
         == ApplyRows(s.charts, accounts, s.chartId, s.target, rows, ids, s.updateExisting)
  {
    if rows != [] {
      AppliedIsApplyRows(s, accounts, rows[..|rows| - 1], ids);
    }
  }

  lemma AppliedUpTo(apply: RowMeaning, accounts: Accounts, rows: seq<ImportRow>, ids: seq<AccountId>, k: nat)
    requires k < |rows| <= |ids|
    ensures var before := Applied(apply, accounts, rows[..k], ids);
            Applied(apply, accounts, rows[..k + 1], ids)
            == if before.Err? then before else apply(before.value, rows[k], ids[k])
  {
    assert rows[..k + 1][..k] == rows[..k];
  }

  /** The first row that fails decides the error: later rows do not change it. */
  lemma {:induction false} ErrorEndsRows(apply: RowMeaning, accounts: Accounts, rows: seq<ImportRow>,
                                         ids: seq<AccountId>, k: nat)
    requires k <= |rows| <= |ids| && Applied(apply, accounts, rows[..k], ids).Err?
    ensures Applied(apply, accounts, rows, ids) == Applied(apply, accounts, rows[..k], ids)
  {
    if k == |rows| {
      assert rows[..k] == rows;
    } else {
      var init := rows[..|rows| - 1];
      assert init[..k] == rows[..k];
      ErrorEndsRows(apply, accounts, init, ids, k);
    }
  }

  // ----- One row on both sides -----

  /** The import's rows and preloaded map, against the rows of the row-by-row meaning. */
  ghost predicate InStep(s: Setting, bulk: Accounts, rowByRow: Accounts, known: map<int, Source>) {
    && Corresponds(bulk, rowByRow, s.chartId, s.target) && Consistent(s.charts, rowByRow, s.chartId)
    && (s.chartId.Some? ==> KnownAgrees(known, Sources(bulk, s.chartId.value), s.wanted))
  }

  /** `id` is the account a written row updates, or the new one it creates. */
  ghost predicate IsTarget(s: Setting, bulk: Accounts, row: ImportRow, newId: AccountId, id: AccountId) {
    && newId !in bulk
    && if HasAccountAt(bulk, s.target, row.number)
       then s.updateExisting && id in bulk && AtNumber(bulk[id], s.target, row.number)
       else id == newId
  }

  /** A row the import writes is written alike by its meaning, or fails alike. */
  ghost predicate WritesAlike(s: Setting, apply: RowMeaning, bulk: Accounts, rowByRow: Accounts,
                              known: map<int, Source>, row: ImportRow, newId: AccountId, id: AccountId)
  {
    InStep(s, bulk, rowByRow, known) && IsTarget(s, bulk, row, newId, id)
    && (row.consNumber.Some? ==> row.consNumber.value in s.wanted) ==>
      var saved := ImportedRow(row, s.target, s.chartId, known);
      var outcome, next := Save(s.charts, bulk, id, saved), apply(rowByRow, row, newId);
      if outcome.Err? then next == Err(outcome.error)
      else
        next.Ok?
        && InStep(s, bulk[id := saved], next.value,
                  FollowKnown(known, saved, ImportFollowers(bulk, id, saved, s.chartId)))
  }

  /** A row the import skips changes nothing in its meaning either. */
  ghost predicate SkipsAlike(s: Setting, apply: RowMeaning, bulk: Accounts, rowByRow: Accounts, known: map<int, Source>,
                             row: ImportRow, newId: AccountId)
  {
    InStep(s, bulk, rowByRow, known) && newId !in bulk && HasAccountAt(bulk, s.target, row.number)
    && !s.updateExisting ==>
      apply(rowByRow, row, newId) == Ok(rowByRow)
  }

  ghost predicate Simulates(s: Setting, apply: RowMeaning) {
    && (forall bulk, rowByRow, known, row, newId, id
          {:trigger WritesAlike(s, apply, bulk, rowByRow, known, row, newId, id)} ::
          WritesAlike(s, apply, bulk, rowByRow, known, row, newId, id))
    && (forall bulk, rowByRow, known, row, newId {:trigger SkipsAlike(s, apply, bulk, rowByRow, known, row, newId)} ::
          SkipsAlike(s, apply, bulk, rowByRow, known, row, newId))
  }

  /** What a simulated row amounts to, for one row of the loop. */
  lemma WrittenAlike(s: Setting, apply: RowMeaning, bulk: Accounts, rowByRow: Accounts, known: map<int, Source>,
                     row: ImportRow, newId: AccountId, id: AccountId)
    requires Simulates(s, apply) && InStep(s, bulk, rowByRow, known) && IsTarget(s, bulk, row, newId, id)
    requires row.consNumber.Some? ==> row.consNumber.value in s.wanted
    ensures var saved := ImportedRow(row, s.target, s.chartId, known);
            var outcome, next := Save(s.charts, bulk, id, saved), apply(rowByRow, row, newId);
            if outcome.Err? then next == Err(outcome.error)
            else
              next.Ok?
              && InStep(s, bulk[id := saved], next.value,
                        FollowKnown(known, saved, ImportFollowers(bulk, id, saved, s.chartId)))
  {
    assert WritesAlike(s, apply, bulk, rowByRow, known, row, newId, id);
  }

  lemma FindsAlike(s: Setting, bulk: Accounts, rowByRow: Accounts, n: int)
    requires Corresponds(bulk, rowByRow, s.chartId, s.target)
    ensures UniqueNumbers(rowByRow) && bulk.Keys == rowByRow.Keys
    ensures forall i | i in bulk && AtNumber(bulk[i], s.target, n) :: FindByNumber(rowByRow, s.target, n) == Some(i)
    ensures !HasAccountAt(bulk, s.target, n) ==> FindByNumber(rowByRow, s.target, n).None?
  {
    CorrespondingTables(bulk, rowByRow, s.chartId, s.target);
    SameKeysUnique(bulk, rowByRow);
    forall i | i in bulk && AtNumber(bulk[i], s.target, n)
      ensures FindByNumber(rowByRow, s.target, n) == Some(i)
    {
      FindIs(rowByRow, s.target, n, i);
    }
    if !HasAccountAt(bulk, s.target, n) {
      NoneFound(bulk, rowByRow, s.target, n);
    }
  }

  lemma MeaningWritesAlike(s: Setting, bulk: Accounts, rowByRow: Accounts, known: map<int, Source>, row: ImportRow,
                           newId: AccountId, id: AccountId)
    ensures WritesAlike(s, Meaning(s), bulk, rowByRow, known, row, newId, id)
  {
    if InStep(s, bulk, rowByRow, known) && IsTarget(s, bulk, row, newId, id)
       && (row.consNumber.Some? ==> row.consNumber.value in s.wanted) {
      FindsAlike(s, bulk, rowByRow, row.number);
      WrittenRowCorresponds(s.charts, bulk, rowByRow, s.chartId, s.target, known, s.wanted, row, newId,
                            s.updateExisting, id,
                            ImportedRow(row, s.target, s.chartId, known));
      ApplyRowKeepsConsistent(s.charts, rowByRow, s.chartId, s.target, row, newId, s.updateExisting);
    }
  }

  lemma MeaningSkipsAlike(s: Setting, bulk: Accounts, rowByRow: Accounts, known: map<int, Source>, row: ImportRow,
                          newId: AccountId)
    ensures SkipsAlike(s, Meaning(s), bulk, rowByRow, known, row, newId)
  {
    if InStep(s, bulk, rowByRow, known) && newId !in bulk && HasAccountAt(bulk, s.target, row.number)
       && !s.updateExisting {
      FindsAlike(s, bulk, rowByRow, row.number);
    }
  }

  /** The loop's step is a simulation of the row-by-row meaning, from any tables that correspond. */
  lemma MeaningSimulates(s: Setting)
    ensures Simulates(s, Meaning(s))
  {
    forall bulk, rowByRow, known, row, newId, id
      ensures WritesAlike(s, Meaning(s), bulk, rowByRow, known, row, newId, id)
    {
      MeaningWritesAlike(s, bulk, rowByRow, known, row, newId, id);
    }
    forall bulk, rowByRow, known, row, newId
      ensures SkipsAlike(s, Meaning(s), bulk, rowByRow, known, row, newId)
    {
      MeaningSkipsAlike(s, bulk, rowByRow, known, row, newId);
    }
  }

  lemma StartsInStep(s: Setting, accounts: Accounts, known: map<int, Source>)
    requires Consistent(s.charts, accounts, s.chartId)
    requires s.chartId.Some? ==> KnownAgrees(known, Sources(accounts, s.chartId.value), s.wanted)
    ensures InStep(s, accounts, accounts, known)
  {
    if s.chartId.Some? {
      ResyncReachesFixpoint(accounts, s.chartId.value, Resync(accounts, s.chartId.value));
    }
  }
}
