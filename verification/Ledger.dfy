/**
 The accounts of one tenant, and the set-oriented statements of
 `backend/src/accounts/consolidation.ts` over them.  A statement is one atomic step, so each is a
 function from the rows before to the rows after.
 */
module Ledger {
  import opened Wrappers

  // Both are uuids in the database; only their identity matters.
  type ChartId = nat
  type AccountId = nat

  datatype Account = Account(
    coaId: ChartId,
    number: int,
    name: string,
    description: Option<string>,
    consNumber: Option<int>,
    consName: Option<string>,
    consDescription: Option<string>)

  type Accounts = map<AccountId, Account>

  /** What an account of the consolidation chart gives the accounts mapped to its number. */
  datatype Source = Source(name: string, description: Option<string>)

  predicate SameKey(a: Account, b: Account) {
    a.coaId == b.coaId && a.number == b.number
  }

  /** The unique key (tenant, chart, account number). */
  ghost predicate UniqueNumbers(accounts: Accounts) {
    forall i, j {:trigger SameKey(accounts[i], accounts[j])}
      | i in accounts && j in accounts && SameKey(accounts[i], accounts[j]) :: i == j
  }

  function SourceOf(a: Account): Source {
    Source(a.name, a.description)
  }

  /** The accounts of chart `c`, by number. */
  function Sources(accounts: Accounts, c: ChartId): map<int, Source>
    requires UniqueNumbers(accounts)
  {
    assert forall i, j | i in accounts && j in accounts && accounts[i].coaId == c == accounts[j].coaId
             && accounts[i].number == accounts[j].number :: SameKey(accounts[i], accounts[j]);
    map i | i in accounts && accounts[i].coaId == c :: accounts[i].number := SourceOf(accounts[i])
  }

  /** `consolidationAccounts`: the accounts of `c` with one of these numbers, by number. */
  function ConsolidationAccounts(accounts: Accounts, c: ChartId, numbers: set<int>): map<int, Source>
    requires UniqueNumbers(accounts)
  {
    var sources := Sources(accounts, c);
    map n | n in numbers && n in sources :: sources[n]
  }

  predicate Mapped(a: Account, sources: map<int, Source>) {
    a.consNumber.Some? && a.consNumber.value in sources
  }

  predicate Carries(a: Account, s: Source) {
    a.consName == Some(s.name) && a.consDescription == s.description
  }

  function WithSource(a: Account, s: Source): Account {
    a.(consName := Some(s.name), consDescription := s.description)
  }

  predicate OutOfLine(a: Account, sources: map<int, Source>) {
    Mapped(a, sources) && !Carries(a, sources[a.consNumber.value])
  }

  predicate MapsTo(a: Account, s: Account) {
    a.consNumber == Some(s.number)
  }

  /**
   The derived columns agree with chart `c`: an account mapped to an account of `c` carries that
   account's name and description.
   */
  ghost predicate InLine(accounts: Accounts, c: ChartId) {
    forall a, s {:trigger MapsTo(accounts[a], accounts[s])} |
        a in accounts && s in accounts && accounts[s].coaId == c && MapsTo(accounts[a], accounts[s]) ::
      Carries(accounts[a], SourceOf(accounts[s]))
  }

  /** The rows the resync statement rewrites. */
  function OutOfLineRows(accounts: Accounts, c: ChartId): set<AccountId>
    requires UniqueNumbers(accounts)
  {
    var sources := Sources(accounts, c);
    set i | i in accounts && OutOfLine(accounts[i], sources)
  }

  /** The rows after the resync statement of chart `c`. */
  function Resync(accounts: Accounts, c: ChartId): Accounts
    requires UniqueNumbers(accounts)
  {
    var sources := Sources(accounts, c);
    var changed := OutOfLineRows(accounts, c);
    map i | i in accounts ::
      if i in changed then WithSource(accounts[i], sources[accounts[i].consNumber.value]) else accounts[i]
  }

  /** `remapToConsolidationAccount`: the rows mapped to `from`, other than `exclude`, now point at `number`. */
  function Remap(accounts: Accounts, from: set<int>, number: int, to: Source, exclude: AccountId): Accounts {
    map i | i in accounts ::
      if i != exclude && accounts[i].consNumber.Some? && accounts[i].consNumber.value in from
      then WithSource(accounts[i].(consNumber := Some(number)), to)
      else accounts[i]
  }

  /** The rows the remap statement rewrites: those not already pointing at `number` with its name and description. */
  function RemappedRows(accounts: Accounts, from: set<int>, number: int, to: Source, exclude: AccountId): set<AccountId>
  {
    set i | i in accounts && i != exclude && accounts[i].consNumber.Some? && accounts[i].consNumber.value in from
            && (accounts[i].consNumber != Some(number) || !Carries(accounts[i], to))
  }

  lemma RemapRewrites(accounts: Accounts, from: set<int>, number: int, to: Source, exclude: AccountId)
    ensures forall i | i in accounts ::
              Remap(accounts, from, number, to, exclude)[i] != accounts[i] <==>
                i in RemappedRows(accounts, from, number, to, exclude)
  {
  }

  /** Two tables with the same rows but for the consolidation columns. */
  ghost predicate SameButConsolidation(a: Accounts, b: Accounts) {
    a.Keys == b.Keys
    && forall i :: i in a ==> SameIdentity(a[i], b[i])
  }

  predicate SameIdentity(a: Account, b: Account) {
    a.coaId == b.coaId && a.number == b.number && a.name == b.name && a.description == b.description
  }

  /** Sources are keyed by number: under the unique key, a lookup returns exactly the account at that number. */
  lemma SourceAt(accounts: Accounts, c: ChartId, i: AccountId)
    requires UniqueNumbers(accounts) && i in accounts && accounts[i].coaId == c
    ensures accounts[i].number in Sources(accounts, c)
    ensures Sources(accounts, c)[accounts[i].number] == SourceOf(accounts[i])
  {
    var n := accounts[i].number;
    var j :| j in accounts && accounts[j].coaId == c && accounts[j].number == n
             && Sources(accounts, c)[n] == SourceOf(accounts[j]);
    assert SameKey(accounts[i], accounts[j]);
  }

  /** `m` is the chart's accounts by number: every account of the chart, and nothing else. */
  ghost predicate IsSources(m: map<int, Source>, accounts: Accounts, c: ChartId) {
    && (forall i | i in accounts && accounts[i].coaId == c ::
          accounts[i].number in m && m[accounts[i].number] == SourceOf(accounts[i]))
    && (forall n | n in m :: exists i :: i in accounts && accounts[i].coaId == c && accounts[i].number == n)
  }

  lemma SourcesAre(accounts: Accounts, c: ChartId)
    requires UniqueNumbers(accounts)
    ensures IsSources(Sources(accounts, c), accounts, c)
  {
    var sources := Sources(accounts, c);
    forall i | i in accounts && accounts[i].coaId == c
      ensures accounts[i].number in sources && sources[accounts[i].number] == SourceOf(accounts[i])
    {
      SourceAt(accounts, c, i);
    }
  }

  lemma SourcesUnique(m: map<int, Source>, m': map<int, Source>, accounts: Accounts, c: ChartId)
    requires IsSources(m, accounts, c) && IsSources(m', accounts, c)
    ensures m == m'
  {
    forall n | n in m
      ensures n in m' && m[n] == m'[n]
    {
      var i :| i in accounts && accounts[i].coaId == c && accounts[i].number == n;
    }
    forall n | n in m'
      ensures n in m
    {
      var i :| i in accounts && accounts[i].coaId == c && accounts[i].number == n;
    }
  }

  lemma SourcesWithin(a: Accounts, b: Accounts, c: ChartId)
    requires UniqueNumbers(a) && UniqueNumbers(b)
    requires forall i | i in a && a[i].coaId == c :: i in b && SameIdentity(a[i], b[i])
    ensures Sources(a, c).Keys <= Sources(b, c).Keys
    ensures forall n | n in Sources(a, c) :: Sources(a, c)[n] == Sources(b, c)[n]
  {
    forall n | n in Sources(a, c)
      ensures n in Sources(b, c) && Sources(a, c)[n] == Sources(b, c)[n]
    {
      var i :| i in a && a[i].coaId == c && a[i].number == n;
      SourceAt(a, c, i);
      SourceAt(b, c, i);
    }
  }

  lemma SameKeysUnique(a: Accounts, b: Accounts)
    requires SameButConsolidation(a, b) && UniqueNumbers(a)
    ensures UniqueNumbers(b)
  {
    forall i, j | i in b && j in b && SameKey(b[i], b[j])
      ensures i == j
    {
      assert SameKey(a[i], a[j]);
    }
  }

  lemma SourcesAgree(a: Accounts, b: Accounts, c: ChartId)
    requires SameButConsolidation(a, b) && UniqueNumbers(a)
    ensures UniqueNumbers(b) && Sources(a, c) == Sources(b, c)
  {
    SameKeysUnique(a, b);
    SourcesWithin(a, b, c);
    SourcesWithin(b, a, c);
  }

  lemma InLineMeansNoneOutOfLine(accounts: Accounts, c: ChartId)
    requires UniqueNumbers(accounts)
    ensures InLine(accounts, c) <==> OutOfLineRows(accounts, c) == {}
  {
    var sources := Sources(accounts, c);
    if InLine(accounts, c) {
      forall i | i in accounts
        ensures !OutOfLine(accounts[i], sources)
      {
        if Mapped(accounts[i], sources) {
          var s :| s in accounts && accounts[s].coaId == c && accounts[s].number == accounts[i].consNumber.value;
          SourceAt(accounts, c, s);
          assert MapsTo(accounts[i], accounts[s]);
        }
      }
    } else {
      var a, s :| a in accounts && s in accounts && accounts[s].coaId == c
                  && MapsTo(accounts[a], accounts[s]) && !Carries(accounts[a], SourceOf(accounts[s]));
      SourceAt(accounts, c, s);
      assert a in OutOfLineRows(accounts, c);
    }
  }

  /** What the statement makes of one row. */
  function ResyncedRow(a: Account, sources: map<int, Source>): Account {
    if Mapped(a, sources) then WithSource(a, sources[a.consNumber.value]) else a
  }

  /** Leaving alone the rows already in line is the same as setting every mapped row. */
  lemma ResyncIsByRow(accounts: Accounts, c: ChartId)
    requires UniqueNumbers(accounts)
    ensures Resync(accounts, c).Keys == accounts.Keys
    ensures forall i | i in accounts :: Resync(accounts, c)[i] == ResyncedRow(accounts[i], Sources(accounts, c))
  {
  }

  lemma ResyncKeepsIdentity(accounts: Accounts, c: ChartId)
    requires UniqueNumbers(accounts)
    ensures SameButConsolidation(accounts, Resync(accounts, c))
    ensures forall i :: i in accounts ==> Resync(accounts, c)[i].consNumber == accounts[i].consNumber
  {
  }

  /** The statement rewrites exactly the accounts out of line, and leaves none out of line. */
  lemma ResyncRewrites(accounts: Accounts, c: ChartId)
    requires UniqueNumbers(accounts)
    ensures forall i :: i in accounts ==>
              (Resync(accounts, c)[i] != accounts[i] <==> i in OutOfLineRows(accounts, c))
    ensures UniqueNumbers(Resync(accounts, c)) && OutOfLineRows(Resync(accounts, c), c) == {}
  {
    ResyncKeepsIdentity(accounts, c);
    SourcesAgree(accounts, Resync(accounts, c), c);
  }

  /**
   One resync pass is a fixpoint from any state, although the accounts of `c` are both sources and
   targets: it brings every account in line, rewrites exactly the accounts that were out of line
   (only their two derived columns), and leaves a second pass nothing to rewrite.
   */
  lemma ResyncReachesFixpoint(accounts: Accounts, c: ChartId, after: Accounts)
    requires UniqueNumbers(accounts) && after == Resync(accounts, c)
    ensures UniqueNumbers(after) && InLine(after, c) && SameButConsolidation(accounts, after)
    ensures forall i :: i in accounts ==> after[i].consNumber == accounts[i].consNumber
    ensures forall i :: i in accounts ==> (after[i] != accounts[i] <==> i in OutOfLineRows(accounts, c))
    ensures OutOfLineRows(after, c) == {} && Resync(after, c) == after
    ensures InLine(accounts, c) <==> after == accounts
  {
    ResyncKeepsIdentity(accounts, c);
    ResyncRewrites(accounts, c);
    InLineMeansNoneOutOfLine(after, c);
    InLineMeansNoneOutOfLine(accounts, c);
    if InLine(accounts, c) {
      assert forall i :: i in accounts ==> after[i] == accounts[i];
    }
  }
}
