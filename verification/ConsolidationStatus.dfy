/**
 How an account stands to the consolidation chart: the label of a lists' row, the SQL filter, and the
 counts per chart (`backend/src/accounts/consolidation.ts`, `chart-of-accounts.service.ts`).
 */
module ConsolidationStatus {
  import opened Wrappers
  import opened Ledger
  import opened Charts

  datatype Status = InChart | Outside | Unmapped

  /** The consolidation chart, when a number was asked for, and which of the numbers asked exist in it. */
  datatype Lookup = Lookup(chartId: Option<ChartId>, numbers: set<int>)

  ghost predicate Sound(charts: ChartTable, accounts: Accounts) {
    AtMostOneHolder(charts, Consolidation) && forall i | i in accounts :: accounts[i].coaId in charts
  }

  predicate ExistsIn(accounts: Accounts, c: ChartId, n: int) {
    exists i :: i in accounts && accounts[i].coaId == c && accounts[i].number == n
  }

  function NumbersOf(page: seq<Option<int>>): set<int> {
    set k | 0 <= k < |page| && page[k].Some? :: page[k].value
  }

  /** `consolidationLookup` over the consolidation numbers of one page of accounts. */
  function LookupFor(charts: ChartTable, accounts: Accounts, page: seq<Option<int>>): Lookup
    requires AtMostOneHolder(charts, Consolidation)
  {
    var wanted := NumbersOf(page);
    var holder := ConsolidationChart(charts);
    if wanted == {} then Lookup(None, {})
    else if holder.None? then Lookup(None, {})
    else Lookup(holder, set n | n in wanted && ExistsIn(accounts, holder.value, n))
  }

  /** The label of an account: none when it has a number but there is no consolidation chart. */
  function StatusOf(number: Option<int>, lookup: Lookup): Option<Status> {
    if number.None? then Some(Unmapped)
    else if lookup.chartId.None? then None
    else if number.value in lookup.numbers then Some(InChart)
    else Some(Outside)
  }

  /** The numbers selected by the SQL: those of the accounts whose chart holds the role. */
  function ConsolidationNumbers(charts: ChartTable, accounts: Accounts): set<int>
    requires forall i | i in accounts :: accounts[i].coaId in charts
  {
    set i | i in accounts && charts[accounts[i].coaId].isConsolidation :: accounts[i].number
  }

  /** The SQL condition of each status on the consolidation number (a NULL satisfies no IN and no NOT IN). */
  predicate Satisfies(charts: ChartTable, accounts: Accounts, number: Option<int>, status: Status)
    requires forall i | i in accounts :: accounts[i].coaId in charts
  {
    match status
    case Unmapped => number.None?
    case InChart => number.Some? && number.value in ConsolidationNumbers(charts, accounts)
    case Outside => number.Some? && (exists c :: c in charts && charts[c].isConsolidation)
                    && number.value !in ConsolidationNumbers(charts, accounts)
  }

  /**
   The filter and the label agree for every account of a page, although the lookup is built from that
   page's numbers only; so the statuses never overlap, and an account has none exactly when it has a
   number and the tenant no consolidation chart.
   */
  lemma FilterAgreesWithLabel(charts: ChartTable, accounts: Accounts, page: seq<Option<int>>, k: nat)
    requires Sound(charts, accounts) && k < |page|
    ensures forall status ::
              Satisfies(charts, accounts, page[k], status) <==>
                StatusOf(page[k], LookupFor(charts, accounts, page)) == Some(status)
    ensures StatusOf(page[k], LookupFor(charts, accounts, page)).None? <==>
              page[k].Some? && forall c | c in charts :: !charts[c].isConsolidation
    ensures StatusOf(page[k], LookupFor(charts, accounts, page)) == Some(InChart) <==>
              page[k].Some? && exists i :: i in accounts && accounts[i].number == page[k].value
                                           && charts[accounts[i].coaId].isConsolidation
    ensures StatusOf(page[k], LookupFor(charts, accounts, page)) == Some(Unmapped) <==> page[k].None?
  {
    if page[k].Some? {
      var n := page[k].value;
      assert n in NumbersOf(page);
      var holder := ConsolidationChart(charts);
      if holder.Some? {
        assert holder.value in charts && charts[holder.value].isConsolidation;
        if ExistsIn(accounts, holder.value, n) {
          var i :| i in accounts && accounts[i].coaId == holder.value && accounts[i].number == n;
          assert i in accounts && charts[accounts[i].coaId].isConsolidation;
        }
        if n in ConsolidationNumbers(charts, accounts) {
          var i :| i in accounts && charts[accounts[i].coaId].isConsolidation && accounts[i].number == n;
          assert holder == Some(accounts[i].coaId);
        }
      }
    }
  }

  // ----- Counts -----

  function AccountsOf(accounts: Accounts, c: ChartId): set<AccountId> {
    set i | i in accounts && accounts[i].coaId == c
  }

  /** The accounts of a chart the consolidation chart does not have (`accounts_outside_count`). */
  function OutsideOf(charts: ChartTable, accounts: Accounts, c: ChartId): set<AccountId>
    requires AtMostOneHolder(charts, Consolidation)
  {
    var holder := ConsolidationChart(charts);
    set i | i in accounts && accounts[i].coaId == c && accounts[i].consNumber.Some? && holder.Some?
            && !ExistsIn(accounts, holder.value, accounts[i].consNumber.value)
  }

  /** What making `c` the consolidation chart would mean for the accounts of the other charts. */
  datatype Impact = Impact(matched: nat, outside: nat, unmapped: nat)

  function MatchedBy(accounts: Accounts, c: ChartId): set<AccountId> {
    set i | i in accounts && accounts[i].coaId != c && accounts[i].consNumber.Some?
            && ExistsIn(accounts, c, accounts[i].consNumber.value)
  }

  function OutsideFrom(accounts: Accounts, c: ChartId): set<AccountId> {
    set i | i in accounts && accounts[i].coaId != c && accounts[i].consNumber.Some?
            && !ExistsIn(accounts, c, accounts[i].consNumber.value)
  }

  function UnmappedBeside(accounts: Accounts, c: ChartId): set<AccountId> {
    set i | i in accounts && accounts[i].coaId != c && accounts[i].consNumber.None?
  }

  function ConsolidationImpact(accounts: Accounts, c: ChartId): Impact {
    Impact(|MatchedBy(accounts, c)|, |OutsideFrom(accounts, c)|, |UnmappedBeside(accounts, c)|)
  }

  /** Every account of another chart is counted once. */
  lemma ImpactCountsEveryOtherAccount(accounts: Accounts, c: ChartId)
    ensures var impact := ConsolidationImpact(accounts, c);
            impact.matched + impact.outside + impact.unmapped == |accounts.Keys| - |AccountsOf(accounts, c)|
  {
    var matched, outside, unmapped := MatchedBy(accounts, c), OutsideFrom(accounts, c), UnmappedBeside(accounts, c);
    assert accounts.Keys == AccountsOf(accounts, c) + (matched + outside + unmapped);
    assert matched !! outside && (matched + outside) !! unmapped
           && AccountsOf(accounts, c) !! (matched + outside + unmapped);
  }

  /** The accounts of the other charts with this status, were `c` the consolidation chart. */
  ghost function Labelled(charts: ChartTable, accounts: Accounts, c: ChartId, status: Status): set<AccountId>
    requires forall i | i in accounts :: accounts[i].coaId in charts
  {
    set i | i in accounts && accounts[i].coaId != c
            && Satisfies(Assign(charts, Consolidation, c), accounts, accounts[i].consNumber, status)
  }

  /** The impact foretells how many accounts will have each status once `c` has the role. */
  lemma ImpactForetellsStatuses(charts: ChartTable, accounts: Accounts, c: ChartId)
    requires Sound(charts, accounts) && c in charts
    ensures ConsolidationImpact(accounts, c)
            == Impact(|Labelled(charts, accounts, c, InChart)|, |Labelled(charts, accounts, c, Outside)|,
                      |Labelled(charts, accounts, c, Unmapped)|)
  {
    var after := Assign(charts, Consolidation, c);
    assert after[c].isConsolidation;
    forall n
      ensures ExistsIn(accounts, c, n) <==> n in ConsolidationNumbers(after, accounts)
    {
      if i :| i in accounts && accounts[i].coaId == c && accounts[i].number == n {
        assert i in accounts && after[accounts[i].coaId].isConsolidation;
      }
    }
    assert MatchedBy(accounts, c) == Labelled(charts, accounts, c, InChart);
    assert OutsideFrom(accounts, c) == Labelled(charts, accounts, c, Outside);
    assert UnmappedBeside(accounts, c) == Labelled(charts, accounts, c, Unmapped);
  }

  ghost function SumOfOutside(charts: ChartTable, accounts: Accounts, among: set<ChartId>): nat
    requires AtMostOneHolder(charts, Consolidation)
  {
    if among == {} then 0
    else
      var c :| c in among;
      |OutsideOf(charts, accounts, c)| + SumOfOutside(charts, accounts, among - {c})
  }

  /** The accounts of these charts whose number chart `holder` does not have. */
  ghost function OutsideIn(accounts: Accounts, among: set<ChartId>, holder: ChartId): set<AccountId> {
    set i | i in accounts && accounts[i].coaId in among && accounts[i].consNumber.Some?
            && !ExistsIn(accounts, holder, accounts[i].consNumber.value)
  }

  lemma {:induction false} OutsideAmong(charts: ChartTable, accounts: Accounts, among: set<ChartId>, holder: ChartId)
    requires AtMostOneHolder(charts, Consolidation) && ConsolidationChart(charts) == Some(holder)
    ensures SumOfOutside(charts, accounts, among) == |OutsideIn(accounts, among, holder)|
    decreases |among|
  {
    if among == {} {
      assert OutsideIn(accounts, among, holder) == {};
    } else {
      var c :| c in among && SumOfOutside(charts, accounts, among)
                             == |OutsideOf(charts, accounts, c)| + SumOfOutside(charts, accounts, among - {c});
      OutsideAmong(charts, accounts, among - {c}, holder);
      OutsideSplits(charts, accounts, among, holder, c);
    }
  }

  lemma OutsideSplits(charts: ChartTable, accounts: Accounts, among: set<ChartId>, holder: ChartId, c: ChartId)
    requires AtMostOneHolder(charts, Consolidation) && ConsolidationChart(charts) == Some(holder) && c in among
    ensures OutsideIn(accounts, among, holder)
         == OutsideOf(charts, accounts, c) + OutsideIn(accounts, among - {c}, holder)
    ensures OutsideOf(charts, accounts, c) !! OutsideIn(accounts, among - {c}, holder)
  {
  }

  /** The outside counts shown per chart add up to the impact's count over the other charts. */
  lemma OutsideCountsSumToImpact(charts: ChartTable, accounts: Accounts, holder: ChartId)
    requires Sound(charts, accounts) && ConsolidationChart(charts) == Some(holder)
    ensures SumOfOutside(charts, accounts, charts.Keys - {holder}) == ConsolidationImpact(accounts, holder).outside
  {
    OutsideAmong(charts, accounts, charts.Keys - {holder}, holder);
    assert OutsideFrom(accounts, holder) == OutsideIn(accounts, charts.Keys - {holder}, holder);
  }
}
