/**
 One tenant's charts and accounts, changed step by step by the services.  A request runs in one
 transaction and an error rolls it back; requests are taken one after the other.
 */
module Tenants {
  import opened Wrappers
  import opened Ledger
  import opened AccountWrites
  import opened AccountImport
  import opened ImportSimulation
  import opened ImportedTable
  import opened Charts
  import opened ConsolidationStatus

  /** What an account write needs of the consolidation chart: read once per request, or once per import. */
  class ConsolidationContext {
    const chartId: Option<ChartId>
    const propagate: bool
    var accounts: Option<map<int, Source>>

    constructor (chartId: Option<ChartId>, accounts: Option<map<int, Source>>, propagate: bool)
      ensures this.chartId == chartId && this.accounts == accounts && this.propagate == propagate
    {
      this.chartId := chartId;
      this.accounts := accounts;
      this.propagate := propagate;
    }
  }

  /** What a write leaves: the rows, the preloaded consolidation accounts, and its answer. */
  datatype Written = Written(accounts: Accounts, known: Option<map<int, Source>>, answer: Result<Account, WriteError>)

  function WriteOutcome(charts: set<ChartId>, accounts: Accounts, known: Option<map<int, Source>>, propagate: bool,
                        id: AccountId, row: Result<Account, WriteError>, from: set<int>): Written
  {
    if row.Err? then Written(accounts, known, row)
    else
      match Save(charts, accounts, id, row.value)
      case Err(e) => Written(accounts, known, Err(e))
      case Ok(saved) =>
        Written(if propagate then Follow(saved, id, from) else saved,
                if known.Some? then Some(FollowKnown(known.value, row.value, from)) else None,
                row)
  }

  function UpdateFollowers(before: Account, row: Result<Account, WriteError>, chartId: Option<ChartId>): set<int> {
    if row.Ok? then Followers(before, row.value, chartId) else {}
  }

  function NewFollowers(row: Result<Account, WriteError>, chartId: Option<ChartId>): set<int> {
    if row.Ok? then CreateFollowers(row.value, chartId) else {}
  }

  /** Deleting accounts leaves every key and every derived column as it was. */
  lemma RemovingKeepsConsistent(charts: set<ChartId>, accounts: Accounts, chartId: Option<ChartId>,
                                gone: set<AccountId>)
    requires Consistent(charts, accounts, chartId)
    ensures Consistent(charts, accounts - gone, chartId)
  {
  }

  /** The indices of the rows that update an account of the target chart. */
  ghost function UpdatingRows(rows: seq<ImportRow>, accounts: Accounts, target: ChartId): set<int> {
    set k | 0 <= k < |rows| && HasAccountAt(accounts, target, rows[k].number)
  }

  /** The target chart's accounts by number, each with its id and its row as loaded. */
  type Loaded = map<int, (AccountId, Account)>

  ghost predicate IsLoaded(existing: Loaded, accounts: Accounts, target: ChartId) {
    && (forall n | n in existing ::
          existing[n].0 in accounts && existing[n].1 == accounts[existing[n].0] && AtNumber(existing[n].1, target, n))
    && (forall i | i in accounts && accounts[i].coaId == target :: accounts[i].number in existing)
  }

  lemma UpdatingRowsUpTo(rows: seq<ImportRow>, existing: Loaded, accounts: Accounts, target: ChartId, k: nat)
    requires k < |rows| && IsLoaded(existing, accounts, target)
    ensures |UpdatingRows(rows[..k + 1], accounts, target)|
            == |UpdatingRows(rows[..k], accounts, target)| + (if rows[k].number in existing then 1 else 0)
  {
    var done := UpdatingRows(rows[..k], accounts, target);
    assert HasAccountAt(accounts, target, rows[k].number) <==> rows[k].number in existing;
    assert UpdatingRows(rows[..k + 1], accounts, target) == if rows[k].number in existing then done + {k} else done;
  }

  /** What was loaded before the loop is still what the tables hold at the number of a row to come. */
  lemma LoadedIsCurrent(existing: Loaded, start: Accounts, bulk: Accounts, s: Setting, n: int)
    requires IsLoaded(existing, start, s.target) && Untouched(bulk, start, s.target, n)
    ensures HasAccountAt(bulk, s.target, n) <==> n in existing
    ensures n in existing ==>
              && existing[n].0 in bulk && bulk[existing[n].0] == existing[n].1
              && AtNumber(bulk[existing[n].0], s.target, n)
  {
    if n in existing {
      assert existing[n].0 in start && AtNumber(start[existing[n].0], s.target, n);
    }
  }

  /** How many of the first `k` rows are not skipped. */
  ghost function ProcessedBy(rows: seq<ImportRow>, accounts: Accounts, target: ChartId, updateExisting: bool, k: nat)
    : int
    requires k <= |rows|
  {
    if updateExisting then k else k - |UpdatingRows(rows[..k], accounts, target)|
  }

  lemma ProcessedUpTo(rows: seq<ImportRow>, existing: Loaded, accounts: Accounts, target: ChartId, updateExisting: bool,
                      k: nat)
    requires k < |rows| && IsLoaded(existing, accounts, target)
    ensures ProcessedBy(rows, accounts, target, updateExisting, k + 1)
         == ProcessedBy(rows, accounts, target, updateExisting, k)
            + if rows[k].number !in existing || updateExisting then 1 else 0
  {
    UpdatingRowsUpTo(rows, existing, accounts, target, k);
  }

  datatype ImportReport = ImportReport(inserted: nat, updated: nat, processed: nat)

  class Tenant {
    var charts: ChartTable
    var accounts: Accounts

    ghost predicate Valid()
      reads this
    {
      ChartsValid(charts) && Consistent(charts.Keys, accounts, ConsolidationChart(charts))
    }

    constructor ()
      ensures Valid() && charts == map[] && accounts == map[]
    {
      charts, accounts := map[], map[];
    }

    // ----- Accounts -----

    /** The consolidation accounts `ctx` lets a write look up. */
    ghost function Visible(ctx: ConsolidationContext): map<int, Source>
      requires UniqueNumbers(accounts)
      reads this, ctx
    {
      if ctx.accounts.Some? then ctx.accounts.value else KnownTo(accounts, ctx.chartId)
    }

    method DeriveConsolidationFields(entity: Account, given: GivenFields, ctx: ConsolidationContext)
      returns (account: Account)
      requires UniqueNumbers(accounts)
      ensures account == Derived(entity, given, ctx.chartId, Visible(ctx))
    {
      account := entity;
      if account.consNumber.None? {
        if given.numberGiven {
          account := account.(consName := None);
          account := account.(consDescription := None);
        }
        return;
      }
      var number := account.consNumber.value;
      var source: Option<Source> := None;
      if ctx.chartId.Some? && account.coaId == ctx.chartId.value && account.number == number {
        source := Some(Source(account.name, account.description));
      } else if ctx.chartId.Some? {
        var found := if ctx.accounts.Some? then ctx.accounts.value
                     else ConsolidationAccounts(accounts, ctx.chartId.value, {number});
        if number in found {
          source := Some(found[number]);
        }
      }
      if source.Some? {
        account := account.(consName := Some(source.value.name));
        account := account.(consDescription := source.value.description);
        return;
      }
      if given.numberChanged {
        if !given.nameGiven {
          account := account.(consName := None);
        }
        if !given.descriptionGiven {
          account := account.(consDescription := None);
        }
      }
    }

    /** `repo.save` under the foreign key and the unique key; a violation writes nothing. */
    method SaveRow(id: AccountId, row: Account) returns (r: Result<Account, WriteError>)
      modifies this`accounts
      ensures var saved := Save(charts.Keys, old(accounts), id, row);
              if saved.Ok? then r == Ok(row) && accounts == saved.value
              else r == Err(saved.error) && accounts == old(accounts)
    {
      if row.coaId !in charts {
        return Err(UnknownChart);
      }
      if exists i :: i in accounts && i != id && SameKey(accounts[i], row) {
        return Err(DuplicateNumber);
      }
      accounts := accounts[id := row];
      r := Ok(row);
    }

    /** `remapToConsolidationAccount`: rewrites only rows that differ, and returns how many. */
    method RemapToConsolidationAccount(from: set<int>, number: int, to: Source, exclude: AccountId) returns (count: nat)
      modifies this`accounts
      ensures accounts == Remap(old(accounts), from, number, to, exclude)
      ensures count == |RemappedRows(old(accounts), from, number, to, exclude)|
    {
      var rewritten := RemappedRows(accounts, from, number, to, exclude);
      RemapRewrites(accounts, from, number, to, exclude);
      accounts := map i | i in accounts ::
        if i in rewritten then WithSource(accounts[i].(consNumber := Some(number)), to) else accounts[i];
      count := |rewritten|;
    }

    method FollowConsolidationAccount(id: AccountId, source: Account, fromNumbers: seq<int>, ctx: ConsolidationContext)
      requires id in accounts && accounts[id] == source && fromNumbers != []
      modifies this`accounts, ctx`accounts
      ensures var from := set n | n in fromNumbers;
              && accounts == (if ctx.propagate then Follow(old(accounts), id, from) else old(accounts))
              && ctx.accounts == if old(ctx.accounts).Some?
                                 then Some(FollowKnown(old(ctx.accounts).value, source, from)) else None
    {
      ghost var from := set n | n in fromNumbers;
      assert fromNumbers[0] in from;
      if ctx.accounts.Some? {
        var known := ctx.accounts.value;
        for k := 0 to |fromNumbers|
          invariant known == ctx.accounts.value - (set n | n in fromNumbers[..k])
        {
          known := known - {fromNumbers[k]};
          assert fromNumbers[..k + 1] == fromNumbers[..k] + [fromNumbers[k]];
        }
        assert fromNumbers[..|fromNumbers|] == fromNumbers;
        ctx.accounts := Some(known[source.number := Source(source.name, source.description)]);
      }
      if !ctx.propagate {
        return;
      }
      var _ := RemapToConsolidationAccount((set n | n in fromNumbers), source.number, SourceOf(source), id);
    }

    /** Saves a row, then tells the accounts mapped to `followers`, when there are any. */
    method SaveAndTell(id: AccountId, entity: Account, followers: seq<int>, ctx: ConsolidationContext)
      returns (r: Result<Account, WriteError>)
      modifies this`accounts, ctx`accounts
      ensures Written(accounts, ctx.accounts, r)
              == WriteOutcome(charts.Keys, old(accounts), old(ctx.accounts), ctx.propagate, id, Ok(entity),
                              set n | n in followers)
    {
      r := SaveRow(id, entity);
      if r.Err? {
        return;
      }
      if |followers| > 0 {
        FollowConsolidationAccount(id, entity, followers, ctx);
      } else {
        assert (set n | n in followers) == {};
      }
    }

    method CreateAccount(id: AccountId, body: AccountBody, ctx: ConsolidationContext)
      returns (r: Result<Account, WriteError>)
      requires UniqueNumbers(accounts) && id !in accounts
      modifies this`accounts, ctx`accounts
      ensures var row := CreatedRow(body, ctx.chartId, old(Visible(ctx)));
              Written(accounts, ctx.accounts, r)
              == WriteOutcome(charts.Keys, old(accounts), old(ctx.accounts), ctx.propagate, id, row,
                              NewFollowers(row, ctx.chartId))
    {
      if body.coaId.Absent? || body.coaId.value.None? {
        return Err(CoaIdRequired);
      }
      if body.name.Absent? || body.name.value.None? || body.number.Absent? || body.number.value.None? {
        return Err(MissingValue);
      }
      var entity := Account(
        body.coaId.value.value, body.number.value.value, body.name.value.value,
        if body.description.Given? then body.description.value else None,
        if body.consNumber.Given? then body.consNumber.value else None,
        if body.consName.Given? then body.consName.value else None,
        if body.consDescription.Given? then body.consDescription.value else None);
      assert entity == CreatedEntity(body);
      var given := GivenFields(true, true, body.consName.Given?, body.consDescription.Given?);
      entity := DeriveConsolidationFields(entity, given, ctx);
      var followers: seq<int> := [];
      if ctx.chartId.Some? && entity.coaId == ctx.chartId.value {
        followers := [entity.number];
        assert (set n | n in [entity.number]) == {entity.number};
      } else {
        assert (set n | n in followers) == {};
      }
      r := SaveAndTell(id, entity, followers, ctx);
    }

    /** The entity with the fields of the body that are not undefined. */
    method AssignFields(existing: Account, body: AccountBody) returns (entity: Account)
      requires body.coaId != Given(None) && body.name != Given(None)
      ensures Assigned(existing, body) == Ok(entity)
    {
      entity := existing;
      if body.coaId.Given? {
        entity := entity.(coaId := body.coaId.value.value);
      }
      if body.name.Given? {
        entity := entity.(name := body.name.value.value);
      }
      if body.description.Given? {
        entity := entity.(description := body.description.value);
      }
      if body.consName.Given? {
        entity := entity.(consName := body.consName.value);
      }
      if body.consDescription.Given? {
        entity := entity.(consDescription := body.consDescription.value);
      }
      if body.number.Given? {
        entity := entity.(number := if body.number.value.Some? then body.number.value.value else existing.number);
      }
      if body.consNumber.Given? {
        entity := entity.(consNumber := body.consNumber.value);
      }
    }

    method UpdateAccount(id: AccountId, existing: Account, body: AccountBody, ctx: ConsolidationContext)
      returns (r: Result<Account, WriteError>)
      requires UniqueNumbers(accounts) && id in accounts
      modifies this`accounts, ctx`accounts
      ensures var row := UpdatedRow(existing, body, ctx.chartId, old(Visible(ctx)));
              Written(accounts, ctx.accounts, r)
              == WriteOutcome(charts.Keys, old(accounts), old(ctx.accounts), ctx.propagate, id, row,
                              UpdateFollowers(existing, row, ctx.chartId))
    {
      // A null in a column that refuses it fails when the row is saved; nothing has been written by then.
      if body.coaId == Given(None) || body.name == Given(None) {
        return Err(MissingValue);
      }
      var before := existing;
      var entity := AssignFields(existing, body);
      var renumbered := entity.number != before.number;
      var wasIn := ctx.chartId.Some? && before.coaId == ctx.chartId.value;
      var isIn := ctx.chartId.Some? && entity.coaId == ctx.chartId.value;
      var followers: seq<int> := [];
      if isIn && !wasIn {
        followers := [entity.number];
      } else if isIn && (renumbered || entity.name != before.name || entity.description != before.description) {
        followers := [before.number, entity.number];
      }
      // Its own self-reference follows a renumbering.
      if wasIn && isIn && renumbered && body.consNumber.Absent? && before.consNumber == Some(before.number) {
        entity := entity.(consNumber := Some(entity.number));
      }
      var given := GivenFields(body.consNumber.Given?, entity.consNumber != before.consNumber, body.consName.Given?,
                               body.consDescription.Given?);
      entity := DeriveConsolidationFields(entity, given, ctx);
      assert UpdatedRow(existing, body, ctx.chartId, Visible(ctx)) == Ok(entity);
      assert (set n | n in followers) == Followers(before, entity, ctx.chartId) by {
        if followers == [before.number, entity.number] {
          assert followers[0] == before.number && followers[1] == entity.number;
        } else if followers == [entity.number] {
          assert followers[0] == entity.number;
        }
      }
      r := SaveAndTell(id, entity, followers, ctx);
    }

    /** The first of the locked rows that holds the role; at most one does, so their order does not matter. */
    method LockConsolidationChartId() returns (chartId: Option<ChartId>)
      requires Valid()
      ensures forall c :: chartId == Some(c) <==> c in charts && charts[c].isConsolidation
      ensures chartId == ConsolidationChart(charts)
    {
      var rows := charts.Keys;
      chartId := None;
      while rows != {}
        invariant rows <= charts.Keys && chartId.None?
        invariant forall c | c in charts && charts[c].isConsolidation :: c in rows
      {
        var c :| c in rows;
        if charts[c].isConsolidation {
          assert Holds(charts[c], Consolidation);
          return Some(c);
        }
        rows := rows - {c};
      }
    }

    method CreateOne(id: AccountId, body: AccountBody) returns (r: Result<Account, WriteError>)
      requires Valid() && id !in accounts
      modifies this`accounts
      ensures Valid()
      ensures var next := Create(charts.Keys, old(accounts), ConsolidationChart(charts), id, body);
              if next.Ok? then r.Ok? && accounts == next.value && r.value == accounts[id]
              else r == Err(next.error) && accounts == old(accounts)
      ensures HasValue(body.coaId) && HasValue(body.name) && HasValue(body.number) ==>
                AnswersForKey(r, charts.Keys, old(accounts), id, body.coaId.value.value, body.number.value.value)
    {
      var chartId := LockConsolidationChartId();
      var ctx := new ConsolidationContext(chartId, None, true);
      CreateAnswers(charts.Keys, accounts, chartId, id, body);
      if Create(charts.Keys, accounts, chartId, id, body).Ok? {
        CreateKeepsConsistent(charts.Keys, accounts, chartId, id, body);
      }
      r := CreateAccount(id, body, ctx);
    }

    method UpdateOne(id: AccountId, body: AccountBody) returns (r: Result<Account, WriteError>)
      requires Valid()
      modifies this`accounts
      ensures Valid()
      ensures var next := Update(charts.Keys, old(accounts), ConsolidationChart(charts), id, body);
              if next.Ok? then r.Ok? && accounts == next.value && r.value == accounts[id]
              else r == Err(next.error) && accounts == old(accounts)
      ensures id in old(accounts) && body.coaId != Given(None) && body.name != Given(None) ==>
                var before := old(accounts)[id];
                AnswersForKey(r, charts.Keys, old(accounts), id,
                              if HasValue(body.coaId) then body.coaId.value.value else before.coaId,
                              if HasValue(body.number) then body.number.value.value else before.number)
    {
      // The lock first: the account is then read as any role change in progress left it.
      var chartId := LockConsolidationChartId();
      UpdateAnswers(charts.Keys, accounts, chartId, id, body);
      var ctx := new ConsolidationContext(chartId, None, true);
      if id !in accounts {
        return Err(NotFound);
      }
      if Update(charts.Keys, accounts, chartId, id, body).Ok? {
        UpdateKeepsConsistent(charts.Keys, accounts, chartId, id, body);
      }
      r := UpdateAccount(id, accounts[id], body, ctx);
    }

    /** Deletes an account no budget line refers to. */
    method DeleteOne(id: AccountId, inUse: bool) returns (r: Result<(), WriteError>)
      requires Valid()
      modifies this`accounts
      ensures Valid()
      ensures r == if id !in old(accounts) then Err(NotFound) else if inUse then Err(InUse) else Ok(())
      ensures accounts == if r.Ok? then old(accounts) - {id} else old(accounts)
    {
      if id !in accounts {
        return Err(NotFound);
      }
      if inUse {
        return Err(InUse);
      }
      RemovingKeepsConsistent(charts.Keys, accounts, ConsolidationChart(charts), {id});
      accounts := accounts - {id};
      r := Ok(());
    }

    // ----- CSV import -----

    /** Keeps the first row of each account number. */
    method Deduplicate(rows: seq<ImportRow>) returns (unique: seq<ImportRow>)
      ensures unique == FirstOccurrences(rows)
    {
      unique := [];
      var seen: set<int> := {};
      for k := 0 to |rows|
        invariant unique == FirstOccurrences(rows[..k])
        invariant forall n :: n in seen <==> HasNumber(rows[..k], n)
      {
        assert rows[..k + 1][..k] == rows[..k] && rows[..k + 1][k] == rows[k];
        forall n
          ensures HasNumber(rows[..k + 1], n) <==> HasNumber(rows[..k], n) || rows[k].number == n
        {
          HasNumberUpTo(rows, k, n);
        }
        if rows[k].number !in seen {
          seen := seen + {rows[k].number};
          unique := unique + [rows[k]];
        }
      }
      assert rows[..|rows|] == rows;
    }

    /** The target chart's accounts, once, by number. */
    method LoadByNumber(target: ChartId) returns (existing: Loaded)
      requires UniqueNumbers(accounts)
      ensures IsLoaded(existing, accounts, target)
    {
      assert forall i, j | i in accounts && j in accounts && accounts[i].coaId == target == accounts[j].coaId
               && accounts[i].number == accounts[j].number :: SameKey(accounts[i], accounts[j]);
      existing := map i | i in accounts && accounts[i].coaId == target :: accounts[i].number := (i, accounts[i]);
    }

    method CountUpdates(unique: seq<ImportRow>, existing: Loaded, ghost target: ChartId) returns (updated: nat)
      requires IsLoaded(existing, accounts, target)
      ensures updated == |UpdatingRows(unique, accounts, target)| <= |unique|
    {
      updated := 0;
      for k := 0 to |unique|
        invariant updated == |UpdatingRows(unique[..k], accounts, target)| <= k
      {
        UpdatingRowsUpTo(unique, existing, accounts, target, k);
        if unique[k].number in existing {
          updated := updated + 1;
        }
      }
      assert unique[..|unique|] == unique;
    }

    /** The resync statement: rewrites the rows out of line, and returns how many. */
    method ResyncFromChart(c: ChartId) returns (count: nat)
      requires UniqueNumbers(accounts)
      modifies this`accounts
      ensures accounts == Resync(old(accounts), c) && count == |OutOfLineRows(old(accounts), c)|
    {
      var sources := Sources(accounts, c);
      var changed := OutOfLineRows(accounts, c);
      accounts := map i | i in accounts ::
        if i in changed then WithSource(accounts[i], sources[accounts[i].consNumber.value]) else accounts[i];
      count := |changed|;
    }

    /** One row of the import, saved without propagation; `account` is the row as loaded, when there is one. */
    method SaveImported(row: ImportRow, target: ChartId, id: AccountId, account: Option<Account>,
                        ctx: ConsolidationContext)
      returns (r: Result<Account, WriteError>)
      requires UniqueNumbers(accounts) && ctx.accounts.Some? && !ctx.propagate
      requires if id in accounts then account == Some(accounts[id]) else account.None?
      modifies this`accounts, ctx`accounts
      ensures var saved := ImportedRow(row, target, ctx.chartId, old(ctx.accounts).value);
              var outcome := Save(charts.Keys, old(accounts), id, saved);
              if outcome.Ok? then
                && r == Ok(saved) && accounts == old(accounts)[id := saved]
                && ctx.accounts == Some(FollowKnown(old(ctx.accounts).value, saved,
                                                    ImportFollowers(old(accounts), id, saved, ctx.chartId)))
              else
                r == Err(outcome.error) && accounts == old(accounts) && ctx.accounts == old(ctx.accounts)
    {
      ghost var saved := ImportedRow(row, target, ctx.chartId, ctx.accounts.value);
      ImportSavesTheSameRow(row, target, ctx.chartId, ctx.accounts.value,
                            if account.Some? then account.value else saved);
      if account.Some? {
        r := UpdateAccount(id, account.value, RowBody(row, target), ctx);
      } else {
        r := CreateAccount(id, RowBody(row, target), ctx);
      }
    }

    /** One row of the import that is not skipped: written to the account loaded at its number or to a new one. */
    method WriteRowOnce(row: ImportRow, target: ChartId, newId: AccountId, existing: Loaded, ctx: ConsolidationContext)
      returns (r: Result<Account, WriteError>)
      requires UniqueNumbers(accounts) && ctx.accounts.Some? && !ctx.propagate
      requires if row.number in existing
               then existing[row.number].0 in accounts && accounts[existing[row.number].0] == existing[row.number].1
               else newId !in accounts
      modifies this`accounts, ctx`accounts
      ensures var id := if row.number in existing then existing[row.number].0 else newId;
              var saved := ImportedRow(row, target, ctx.chartId, old(ctx.accounts).value);
              var outcome := Save(charts.Keys, old(accounts), id, saved);
              if outcome.Ok? then
                && r == Ok(saved) && accounts == old(accounts)[id := saved]
                && ctx.accounts == Some(FollowKnown(old(ctx.accounts).value, saved,
                                                    ImportFollowers(old(accounts), id, saved, ctx.chartId)))
              else
                r == Err(outcome.error) && accounts == old(accounts) && ctx.accounts == old(ctx.accounts)
    {
      var id, account := newId, None;
      if row.number in existing {
        id, account := existing[row.number].0, Some(existing[row.number].1);
      }
      r := SaveImported(row, target, id, account, ctx);
    }

    /** The rows of the import one after the other, up to the first error. */
    method WriteRows(unique: seq<ImportRow>, ids: seq<AccountId>, existing: Loaded, target: ChartId,
                     updateExisting: bool, ghost s: Setting, ghost apply: RowMeaning, ctx: ConsolidationContext)
      returns (error: Option<WriteError>, processed: nat, ghost rowByRow: Accounts)
      requires s == Setting(charts.Keys, ctx.chartId, target, updateExisting, s.wanted) && Simulates(s, apply)
      requires ctx.accounts.Some? && !ctx.propagate && InStep(s, accounts, accounts, ctx.accounts.value)
      requires |ids| >= |unique| && FreshIds(ids, accounts) && DistinctNumbers(unique)
               && IsLoaded(existing, accounts, target)
      requires forall k | 0 <= k < |unique| && unique[k].consNumber.Some? :: unique[k].consNumber.value in s.wanted
      modifies this`accounts, ctx`accounts
      ensures Applied(apply, old(accounts), unique, ids) == if error.Some? then Err(error.value) else Ok(rowByRow)
      ensures error.None? ==> Corresponds(accounts, rowByRow, s.chartId, target)
      ensures error.None? ==> processed == ProcessedBy(unique, old(accounts), target, updateExisting, |unique|)
    {
      ghost var start := accounts;
      rowByRow := accounts;
      processed := 0;
      error := None;
      for k := 0 to |unique|
        invariant error.None? && RowsDone(unique, ids, s, apply, start, k, rowByRow, ctx)
        invariant processed == ProcessedBy(unique, start, target, updateExisting, k)
      {
        error, processed, rowByRow := WriteOrSkip(unique, ids, existing, target, updateExisting, s, apply, start, k,
                                                  rowByRow, processed, ctx);
        if error.Some? {
          ErrorEndsRows(apply, start, unique, ids, k + 1);
          return;
        }
      }
      assert unique[..|unique|] == unique;
    }

    /** The first `k` rows are done: the table is in step with their meaning, and the rows left find what they would. */
    ghost predicate RowsDone(unique: seq<ImportRow>, ids: seq<AccountId>, s: Setting, apply: RowMeaning,
                             start: Accounts, k: int, rowByRow: Accounts, ctx: ConsolidationContext)
      requires 0 <= k <= |unique| <= |ids|
      reads this, ctx
    {
      && ctx.accounts.Some? && Applied(apply, start, unique[..k], ids) == Ok(rowByRow)
      && InStep(s, accounts, rowByRow, ctx.accounts.value)
      && RowsLeft(accounts, start, s.target, unique, ids, k)
    }

    /** One row of the loop, against its row-by-row meaning. */
    method WriteOrSkip(unique: seq<ImportRow>, ids: seq<AccountId>, existing: Loaded, target: ChartId,
                       updateExisting: bool, ghost s: Setting, ghost apply: RowMeaning, ghost start: Accounts, k: nat,
                       ghost rowByRow: Accounts, processed: nat, ctx: ConsolidationContext)
      returns (error: Option<WriteError>, processed': nat, ghost next: Accounts)
      requires k < |unique| <= |ids|
      requires s == Setting(charts.Keys, ctx.chartId, target, updateExisting, s.wanted) && Simulates(s, apply)
      requires !ctx.propagate && RowsDone(unique, ids, s, apply, start, k, rowByRow, ctx)
      requires FreshIds(ids, start) && DistinctNumbers(unique) && IsLoaded(existing, start, target)
      requires unique[k].consNumber.Some? ==> unique[k].consNumber.value in s.wanted
      requires processed == ProcessedBy(unique, start, target, updateExisting, k)
      modifies this`accounts, ctx`accounts
      ensures if error.Some? then Applied(apply, start, unique[..k + 1], ids) == Err(error.value)
              else
                && RowsDone(unique, ids, s, apply, start, k + 1, next, ctx)
                && processed' == ProcessedBy(unique, start, target, updateExisting, k + 1)
    {
      error, processed', next := None, processed, rowByRow;
      AppliedUpTo(apply, start, unique, ids, k);
      LoadedIsCurrent(existing, start, accounts, s, unique[k].number);
      ProcessedUpTo(unique, existing, start, target, updateExisting, k);
      if unique[k].number in existing && !updateExisting {
        assert SkipsAlike(s, apply, accounts, rowByRow, ctx.accounts.value, unique[k], ids[k]);
        return;
      }
      ghost var before := accounts;
      var written, after, id, saved := WriteNext(unique[k], ids[k], existing, target, updateExisting, s, apply,
                                                 rowByRow, ctx);
      if written.Err? {
        error := Some(written.error);
        return;
      }
      RowsLeftAfter(before, accounts, start, target, unique, ids, k, id, saved);
      processed', next := processed + 1, after;
    }

    /** A row that is not skipped, against its row-by-row meaning. */
    method WriteNext(row: ImportRow, newId: AccountId, existing: Loaded, target: ChartId, updateExisting: bool,
                     ghost s: Setting, ghost apply: RowMeaning, ghost rowByRow: Accounts, ctx: ConsolidationContext)
      returns (r: Result<Account, WriteError>, ghost next: Accounts, ghost id: AccountId, ghost saved: Account)
      requires s == Setting(charts.Keys, ctx.chartId, target, updateExisting, s.wanted) && Simulates(s, apply)
      requires ctx.accounts.Some? && !ctx.propagate && InStep(s, accounts, rowByRow, ctx.accounts.value)
      requires HasAccountAt(accounts, s.target, row.number) <==> row.number in existing
      requires if row.number in existing then
                 && updateExisting && existing[row.number].0 in accounts
                 && accounts[existing[row.number].0] == existing[row.number].1
                 && AtNumber(existing[row.number].1, target, row.number)
               else true
      requires newId !in accounts && (row.consNumber.Some? ==> row.consNumber.value in s.wanted)
      modifies this`accounts, ctx`accounts
      ensures ctx.accounts.Some?
      ensures apply(rowByRow, row, newId) == if r.Ok? then Ok(next) else Err(r.error)
      ensures r.Ok? ==> InStep(s, accounts, next, ctx.accounts.value) && accounts == old(accounts)[id := saved]
      ensures AtNumber(saved, target, row.number)
      ensures if id in old(accounts) then AtNumber(old(accounts)[id], target, row.number) else id == newId
    {
      id := if row.number in existing then existing[row.number].0 else newId;
      saved := ImportedRow(row, target, ctx.chartId, ctx.accounts.value);
      WrittenAlike(s, apply, accounts, rowByRow, ctx.accounts.value, row, newId, id);
      r := WriteRowOnce(row, target, newId, existing, ctx);
      next := if r.Ok? then apply(rowByRow, row, newId).value else rowByRow;
    }

    /** The consolidation accounts of every number the file refers to, read once. */
    method Preload(unique: seq<ImportRow>, chartId: Option<ChartId>)
      returns (ctx: ConsolidationContext, ghost wanted: set<int>)
      requires UniqueNumbers(accounts)
      ensures fresh(ctx) && ctx.chartId == chartId && ctx.accounts.Some? && !ctx.propagate
      ensures chartId.Some? ==> KnownAgrees(ctx.accounts.value, Sources(accounts, chartId.value), wanted)
      ensures forall k | 0 <= k < |unique| && unique[k].consNumber.Some? :: unique[k].consNumber.value in wanted
    {
      var numbers := set k | 0 <= k < |unique| && unique[k].consNumber.Some? :: unique[k].consNumber.value;
      var known := if chartId.Some? then ConsolidationAccounts(accounts, chartId.value, numbers) else map[];
      ctx := new ConsolidationContext(chartId, Some(known), false);
      wanted := numbers;
    }

    /** The preloaded map and the row loop, against the rows applied one by one with propagation. */
    method ImportRows(unique: seq<ImportRow>, target: ChartId, ids: seq<AccountId>, updateExisting: bool,
                      existing: Loaded, chartId: Option<ChartId>)
      returns (error: Option<WriteError>, processed: nat, ghost rowByRow: Accounts)
      requires Consistent(charts.Keys, accounts, chartId)
      requires |ids| >= |unique| && FreshIds(ids, accounts) && DistinctNumbers(unique)
      requires IsLoaded(existing, accounts, target)
      modifies this`accounts
      ensures ApplyRows(charts.Keys, old(accounts), chartId, target, unique, ids, updateExisting)
           == if error.Some? then Err(error.value) else Ok(rowByRow)
      ensures error.None? ==>
                Corresponds(accounts, rowByRow, chartId, target) && Consistent(charts.Keys, rowByRow, chartId)
      ensures error.None? ==>
                processed == if updateExisting then |unique|
                             else |unique| - |UpdatingRows(unique, old(accounts), target)|
    {
      assert unique[..|unique|] == unique;
      var ctx, wanted := Preload(unique, chartId);
      ghost var s := Setting(charts.Keys, chartId, target, updateExisting, wanted);
      ghost var apply := Meaning(s);
      MeaningSimulates(s);
      StartsInStep(s, accounts, ctx.accounts.value);
      AppliedIsApplyRows(s, accounts, unique, ids);
      error, processed, rowByRow := WriteRows(unique, ids, existing, target, updateExisting, s, apply, ctx);
    }

    /** The commit part: the rows, then one resync; the request's transaction rolls back on an error. */
    method CommitImport(unique: seq<ImportRow>, target: ChartId, ids: seq<AccountId>, updateExisting: bool,
                        existing: Loaded, chartId: Option<ChartId>)
      returns (error: Option<WriteError>, processed: nat)
      requires Valid() && chartId == ConsolidationChart(charts)
      requires |ids| >= |unique| && FreshIds(ids, accounts) && DistinctNumbers(unique)
               && IsLoaded(existing, accounts, target)
      modifies this`accounts
      ensures Valid()
      ensures var next := ApplyRows(charts.Keys, old(accounts), chartId, target, unique, ids, updateExisting);
              if error.Some? then next == Err(error.value) && accounts == old(accounts) else next == Ok(accounts)
      ensures error.None? ==>
                processed == if updateExisting then |unique|
                             else |unique| - |UpdatingRows(unique, old(accounts), target)|
    {
      var start := accounts;
      var failed, written, rowByRow := ImportRows(unique, target, ids, updateExisting, existing, chartId);
      error, processed := failed, written;
      if error.Some? {
        accounts := start;
        return;
      }
      ResyncClosesGap(accounts, rowByRow, chartId, target);
      if chartId.Some? && target == chartId.value {
        var _ := ResyncFromChart(chartId.value);
      }
      assert accounts == rowByRow;
    }

    /**
     The import: the accounts it leaves are those of its deduplicated rows applied one by one with
     propagation, although it reads the consolidation accounts once and resyncs once; column by column they
     are what the rows store.  It fails exactly for an unknown chart.  `ids` are the uuids of the rows it creates.
     */
    method ImportCsv(rows: seq<ImportRow>, target: ChartId, ids: seq<AccountId>, dryRun: bool, updateExisting: bool)
      returns (r: Result<ImportReport, WriteError>)
      requires Valid() && |ids| >= |FirstOccurrences(rows)| && FreshIds(ids, accounts)
      modifies this`accounts
      ensures Valid()
      ensures dryRun ==> r.Ok? && accounts == old(accounts)
      ensures !dryRun ==>
                var next := ApplyRows(charts.Keys, old(accounts), ConsolidationChart(charts), target,
                                      FirstOccurrences(rows), ids, updateExisting);
                if next.Ok? then r.Ok? && accounts == next.value else r == Err(next.error) && accounts == old(accounts)
      ensures !dryRun && r.Ok? ==>
                var unique := FirstOccurrences(rows);
                IsImported(old(accounts), accounts, ConsolidationChart(charts), target, unique, ids, |unique|,
                           updateExisting)
      ensures (r.Ok? <==> dryRun || rows == [] || target in charts) && (r.Err? ==> r.error == UnknownChart)
      ensures r.Ok? ==>
                var unique := FirstOccurrences(rows);
                && r.value.updated == |UpdatingRows(unique, old(accounts), target)|
                && r.value.inserted + r.value.updated == |unique|
                && r.value.processed == if dryRun then 0 else if updateExisting then |unique| else r.value.inserted
    {
      var unique := Deduplicate(rows);
      FirstOccurrencesAreDistinct(rows);
      var chartId := LockConsolidationChartId();
      var existing := LoadByNumber(target);
      var updated := CountUpdates(unique, existing, target);
      if dryRun {
        return Ok(ImportReport(|unique| - updated, updated, 0));
      }
      ImportFailsExactly(charts.Keys, accounts, chartId, target, unique, ids, updateExisting);
      assert rows != [] ==> HasNumber(rows, rows[0].number) && HasNumber(unique, rows[0].number);
      var error, processed := CommitImport(unique, target, ids, updateExisting, existing, chartId);
      if error.None? {
        ImportStoresRows(charts.Keys, old(accounts), chartId, target, unique, ids, updateExisting, accounts);
      }
      r := if error.Some? then Err(error.value) else Ok(ImportReport(|unique| - updated, updated, processed));
    }

    // ----- Charts -----

    /** `assignRole`: the role is taken from its holder first, then given. */
    method AssignRole(role: Role, holder: ChartId)
      modifies this`charts
      ensures charts == Assign(old(charts), role, holder)
    {
      charts := map c | c in charts ::
                  if Holds(charts[c], role) && c != holder then WithRole(charts[c], role, false) else charts[c];
      charts := map c | c in charts ::
                  if !Holds(charts[c], role) && c == holder then WithRole(charts[c], role, true) else charts[c];
    }

    method ClearRole(role: Role, id: ChartId) returns (cleared: bool)
      requires id in charts
      modifies this`charts
      ensures charts == Clear(old(charts), role, id) && cleared == Holds(old(charts)[id], role)
    {
      cleared := Holds(charts[id], role);
      charts := map c | c in charts ::
                  if Holds(charts[c], role) && c == id then WithRole(charts[c], role, false) else charts[c];
    }

    /**
     Makes `id` the consolidation chart and resyncs the tenant: returns how many accounts were
     rewritten, and how many of the other charts' accounts the chart does not have.
     */
    method SetConsolidation(id: ChartId) returns (r: Result<(nat, nat), WriteError>)
      requires Valid()
      modifies this
      ensures Valid()
      ensures id !in old(charts) ==> r == Err(NotFound) && charts == old(charts) && accounts == old(accounts)
      ensures id in old(charts) ==>
                && charts == Assign(old(charts), Consolidation, id) && ConsolidationChart(charts) == Some(id)
                && accounts == Resync(old(accounts), id)
                && r == Ok((|OutOfLineRows(old(accounts), id)|, ConsolidationImpact(accounts, id).outside))
    {
      if id !in charts {
        return Err(NotFound);
      }
      AssignMovesRole(charts, Consolidation, id);
      AssignRole(Consolidation, id);
      ResyncReachesFixpoint(accounts, id, Resync(accounts, id));
      var resynced := ResyncFromChart(id);
      r := Ok((resynced, ConsolidationImpact(accounts, id).outside));
    }

    method ClearConsolidation(id: ChartId) returns (r: Result<bool, WriteError>)
      requires Valid()
      modifies this`charts
      ensures Valid()
      ensures charts == Clear(old(charts), Consolidation, id)
      ensures r == if id in old(charts) then Ok(old(charts)[id].isConsolidation) else Err(NotFound)
    {
      ClearTakesRole(charts, Consolidation, id);
      if id !in charts {
        assert charts == Clear(charts, Consolidation, id);
        return Err(NotFound);
      }
      var cleared := ClearRole(Consolidation, id);
      r := Ok(cleared);
    }

    method SetGlobalDefault(id: ChartId) returns (r: Result<(), WriteError>)
      requires Valid()
      modifies this`charts
      ensures Valid()
      ensures r == if id !in old(charts) then Err(NotFound)
                   else if old(charts)[id].scope != Global then Err(InvalidScope) else Ok(())
      ensures charts == if r.Ok? then Assign(old(charts), GlobalDefault, id) else old(charts)
    {
      if id !in charts {
        return Err(NotFound);
      }
      if charts[id].scope != Global {
        return Err(InvalidScope);
      }
      AssignMovesRole(charts, GlobalDefault, id);
      AssignRole(GlobalDefault, id);
      r := Ok(());
    }

    method ClearGlobalDefault(id: ChartId) returns (r: Result<bool, WriteError>)
      requires Valid()
      modifies this`charts
      ensures Valid()
      ensures charts == Clear(old(charts), GlobalDefault, id)
      ensures r == if id in old(charts) then Ok(old(charts)[id].isGlobalDefault) else Err(NotFound)
    {
      ClearTakesRole(charts, GlobalDefault, id);
      if id !in charts {
        assert charts == Clear(charts, GlobalDefault, id);
        return Err(NotFound);
      }
      var cleared := ClearRole(GlobalDefault, id);
      r := Ok(cleared);
    }

    /** The chart with the fields of the body, scope transition first. */
    method AssignScope(chart: Chart, body: ChartBody) returns (r: Result<Chart, WriteError>)
      ensures r == Rescoped(chart, body)
    {
      var row := chart;
      if body.scope == Some(Global) {
        row := row.(scope := Global);
        row := row.(country := None);
        row := row.(isDefault := false);
      } else if body.scope == Some(Country) {
        row := row.(scope := Country);
        row := row.(isGlobalDefault := false);
        var next := CountryOr(body.country, row.country);
        if next.None? || |next.value| != 2 {
          return Err(InvalidCountry);
        }
        row := row.(country := next);
      }
      r := Ok(row);
    }

    method AssignChartFields(chart: Chart, body: ChartBody) returns (r: Result<Chart, WriteError>)
      ensures r == UpdatedChart(chart, body)
    {
      var row := chart;
      if body.code.Some? {
        row := row.(code := body.code.value);
      }
      if body.name.Some? {
        row := row.(name := body.name.value);
      }
      var rescoped := AssignScope(row, body);
      if rescoped.Err? {
        return rescoped;
      }
      row := rescoped.value;
      if body.country.Some? {
        if row.scope == Global {
          return Err(InvalidScope);
        }
        row := row.(country := Some(Upper(body.country.value)));
      }
      if body.isDefault.Some? {
        row := row.(isDefault := body.isDefault.value);
        if row.scope == Global && row.isDefault {
          return Err(InvalidScope);
        }
      }
      r := Ok(row);
    }

    method UpdateChartRow(id: ChartId, body: ChartBody) returns (r: Result<Chart, WriteError>)
      requires Valid()
      modifies this`charts
      ensures Valid()
      ensures var next := UpdateChart(old(charts), id, body);
              if next.Ok? then charts == next.value && r == Ok(charts[id])
              else r == Err(next.error) && charts == old(charts)
      ensures ConsolidationChart(charts) == old(ConsolidationChart(charts))
    {
      if id !in charts {
        return Err(NotFound);
      }
      UpdatedChartRoles(charts, id, body);
      var updated := AssignChartFields(charts[id], body);
      if updated.Err? {
        return updated;
      }
      r := SaveChartRow(id, updated.value, body.isDefault == Some(true));
    }

    method CreateChartRow(id: ChartId, body: ChartBody) returns (r: Result<Chart, WriteError>)
      requires Valid() && id !in charts
      modifies this`charts
      ensures Valid()
      ensures var next := CreateChart(old(charts), id, body);
              if next.Ok? then charts == next.value && r == Ok(charts[id])
              else r == Err(next.error) && charts == old(charts)
      ensures ConsolidationChart(charts) == old(ConsolidationChart(charts))
    {
      var created := CreatedChart(body);
      if created.Err? {
        return created;
      }
      if CreateChart(charts, id, body).Ok? {
        SaveChartKeepsRoles(charts, id, created.value, created.value.isDefault);
      }
      r := SaveChartRow(id, created.value, created.value.isDefault);
    }

    method SaveChartRow(id: ChartId, row: Chart, takesDefault: bool) returns (r: Result<Chart, WriteError>)
      modifies this`charts
      ensures var next := SaveChart(old(charts), id, row, takesDefault);
              if next.Ok? then charts == next.value && r == Ok(row) else r == Err(next.error) && charts == old(charts)
    {
      var start := charts;
      if takesDefault && row.country.Some? && row.country.value != "" {
        charts := WithoutDefault(charts, row.country.value);
      }
      if exists c :: c in start && c != id && start[c].code == row.code {
        charts := start;  // the save fails and the request's transaction rolls back
        return Err(DuplicateCode);
      }
      charts := charts[id := row];
      r := Ok(row);
    }

    /** Deletes a chart nothing refers to, its accounts first. */
    method DeleteChart(id: ChartId, inUse: bool) returns (r: Result<(), WriteError>)
      requires Valid()
      modifies this
      ensures Valid()
      ensures r == if id !in old(charts) then Err(NotFound) else if inUse then Err(InUse) else Ok(())
      ensures charts == if r.Ok? then old(charts) - {id} else old(charts)
      ensures accounts == if r.Ok? then old(accounts) - AccountsOf(old(accounts), id) else old(accounts)
    {
      if id !in charts {
        return Err(NotFound);
      }
      if inUse {
        return Err(InUse);
      }
      DeleteDropsRole(charts, id);
      RemovingKeepsConsistent(charts.Keys, accounts, ConsolidationChart(charts), AccountsOf(accounts, id));
      accounts := accounts - AccountsOf(accounts, id);
      charts := charts - {id};
      r := Ok(());
    }
  }

  lemma UpdatedChartRoles(charts: ChartTable, id: ChartId, body: ChartBody)
    requires ChartsValid(charts) && id in charts
    ensures UpdateChart(charts, id, body).Ok? ==>
              var after := UpdateChart(charts, id, body).value;
              ChartsValid(after) && after.Keys == charts.Keys && ConsolidationChart(after) == ConsolidationChart(charts)
  {
    if UpdateChart(charts, id, body).Ok? {
      UpdatedChartKeepsRoles(charts[id], body);
      SaveChartKeepsRoles(charts, id, UpdatedChart(charts[id], body).value, body.isDefault == Some(true));
    }
  }
}
