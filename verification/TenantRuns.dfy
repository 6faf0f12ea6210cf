/**
 Whole runs of one tenant: any sequence of the requests module `Tenants` serves.  `Serve` is what each
 of its methods ensures of the tables.
 */
module TenantRuns {
  import opened Wrappers
  import opened Ledger
  import opened AccountWrites
  import opened AccountImport
  import opened Charts
  import opened ConsolidationStatus
  import opened Tenants

  datatype State = State(charts: ChartTable, accounts: Accounts)

  /** `inUse`: companies or budget lines refer to the row; ids of new rows are fresh uuids. */
  datatype Request =
    | CreateAccount(id: AccountId, body: AccountBody)
    | UpdateAccount(id: AccountId, body: AccountBody)
    | DeleteAccount(id: AccountId, inUse: bool)
    | ImportCsv(rows: seq<ImportRow>, target: ChartId, ids: seq<AccountId>, updateExisting: bool)
    | CreateChart(chart: ChartId, chartBody: ChartBody)
    | UpdateChart(chart: ChartId, chartBody: ChartBody)
    | DeleteChart(chart: ChartId, inUse: bool)
    | AssignRole(role: Role, chart: ChartId)
    | ClearRole(role: Role, chart: ChartId)

  ghost predicate Valid(s: State) {
    ChartsValid(s.charts) && Consistent(s.charts.Keys, s.accounts, ConsolidationChart(s.charts))
  }

  ghost predicate FreshIn(s: State, request: Request) {
    match request
    case CreateAccount(id, _) => id !in s.accounts
    case ImportCsv(rows, _, ids, _) => |ids| >= |FirstOccurrences(rows)| && FreshIds(ids, s.accounts)
    case CreateChart(id, _) => id !in s.charts
    case _ => true
  }

  function AccountsOr(s: State, r: Result<Accounts, WriteError>): State {
    if r.Ok? then s.(accounts := r.value) else s
  }

  function ChartsOr(s: State, r: Result<ChartTable, WriteError>): State {
    if r.Ok? then s.(charts := r.value) else s
  }

  /** The tables after a request; one that fails leaves them as they were. */
  ghost function Serve(s: State, request: Request): State
    requires Valid(s) && FreshIn(s, request)
  {
    var keys, holder := s.charts.Keys, ConsolidationChart(s.charts);
    match request
    case CreateAccount(id, body) => AccountsOr(s, Create(keys, s.accounts, holder, id, body))
    case UpdateAccount(id, body) => AccountsOr(s, Update(keys, s.accounts, holder, id, body))
    case DeleteAccount(id, inUse) => if inUse then s else s.(accounts := s.accounts - {id})
    case ImportCsv(rows, target, ids, updateExisting) =>
      AccountsOr(s, ApplyRows(keys, s.accounts, holder, target, FirstOccurrences(rows), ids, updateExisting))
    case CreateChart(id, body) => ChartsOr(s, Charts.CreateChart(s.charts, id, body))
    case UpdateChart(id, body) => ChartsOr(s, Charts.UpdateChart(s.charts, id, body))
    case DeleteChart(id, inUse) => if inUse || id !in s.charts then s
                                   else State(s.charts - {id}, s.accounts - AccountsOf(s.accounts, id))
    case AssignRole(role, id) =>
      if id !in s.charts || (role == GlobalDefault && s.charts[id].scope != Global) then s
      else State(Assign(s.charts, role, id), if role == Consolidation then Resync(s.accounts, id) else s.accounts)
    case ClearRole(role, id) => s.(charts := Clear(s.charts, role, id))
  }

  lemma ServeKeepsValid(s: State, request: Request)
    requires Valid(s) && FreshIn(s, request)
    ensures Valid(Serve(s, request))
  {
    var keys, holder := s.charts.Keys, ConsolidationChart(s.charts);
    match request
    case CreateAccount(id, body) =>
      if Create(keys, s.accounts, holder, id, body).Ok? {
        CreateKeepsConsistent(keys, s.accounts, holder, id, body);
      }
    case UpdateAccount(id, body) =>
      if Update(keys, s.accounts, holder, id, body).Ok? {
        UpdateKeepsConsistent(keys, s.accounts, holder, id, body);
      }
    case DeleteAccount(id, _) => RemovingKeepsConsistent(keys, s.accounts, holder, {id});
    case ImportCsv(_, _, _, _) =>
    case CreateChart(id, body) =>
      var created := CreatedChart(body);
      if created.Ok? && Charts.CreateChart(s.charts, id, body).Ok? {
        SaveChartKeepsRoles(s.charts, id, created.value, created.value.isDefault);
      }
    case UpdateChart(id, body) =>
      if id in s.charts {
        UpdatedChartRoles(s.charts, id, body);
      }
    case DeleteChart(id, _) =>
      DeleteDropsRole(s.charts, id);
      RemovingKeepsConsistent(keys, s.accounts, holder, AccountsOf(s.accounts, id));
    case AssignRole(role, id) =>
      if id in s.charts && (role == GlobalDefault ==> s.charts[id].scope == Global) {
        AssignMovesRole(s.charts, role, id);
        ResyncReachesFixpoint(s.accounts, id, Resync(s.accounts, id));
      }
    case ClearRole(role, id) => ClearTakesRole(s.charts, role, id);
  }

  function StateOf(tenant: Tenant): State
    reads tenant
  {
    State(tenant.charts, tenant.accounts)
  }

  /** The services do what `Serve` says, so what holds of every run of `Serve` holds of every run of theirs. */
  method Handle(tenant: Tenant, request: Request)
    requires tenant.Valid() && FreshIn(StateOf(tenant), request)
    modifies tenant
    ensures tenant.Valid() && StateOf(tenant) == old(Serve(StateOf(tenant), request))
  {
    match request
    case CreateAccount(id, body) => var _ := tenant.CreateOne(id, body);
    case UpdateAccount(id, body) => var _ := tenant.UpdateOne(id, body);
    case DeleteAccount(id, inUse) => var _ := tenant.DeleteOne(id, inUse);
    case ImportCsv(rows, target, ids, updateExisting) =>
      var _ := tenant.ImportCsv(rows, target, ids, false, updateExisting);
    case CreateChart(id, body) => var _ := tenant.CreateChartRow(id, body);
    case UpdateChart(id, body) => var _ := tenant.UpdateChartRow(id, body);
    case DeleteChart(id, inUse) => var _ := tenant.DeleteChart(id, inUse);
    case AssignRole(role, id) =>
      if role == Consolidation {
        var _ := tenant.SetConsolidation(id);
      } else {
        var _ := tenant.SetGlobalDefault(id);
      }
    case ClearRole(role, id) =>
      if role == Consolidation {
        var _ := tenant.ClearConsolidation(id);
      } else {
        var _ := tenant.ClearGlobalDefault(id);
      }
  }

  /** `to` is where the requests lead from `from`. */
  ghost predicate Leads(from: State, requests: seq<Request>, to: State)
    requires Valid(from)
    decreases |requests|
  {
    if requests == [] then to == from
    else
      FreshIn(from, requests[0])
      && (ServeKeepsValid(from, requests[0]); Leads(Serve(from, requests[0]), requests[1..], to))
  }

  /**
   In every state any sequence of requests leads to: each role has at most one holder, a GLOBAL chart has no
   country and no country's default and a COUNTRY chart is not the global default, no two accounts of a chart
   have the same number, and every account whose consolidation number is an account number of the
   consolidation chart carries exactly that account's name and description.
   */
  lemma {:induction false} EveryRunKeepsAccountsInLine(from: State, requests: seq<Request>, to: State)
    requires Valid(from) && Leads(from, requests, to)
    ensures Valid(to)
    ensures forall c, d | c in to.charts && d in to.charts && c != d ::
              && !(to.charts[c].isConsolidation && to.charts[d].isConsolidation)
              && !(to.charts[c].isGlobalDefault && to.charts[d].isGlobalDefault)
    ensures forall c | c in to.charts ::
              if to.charts[c].scope == Global then to.charts[c].country == None && !to.charts[c].isDefault
              else !to.charts[c].isGlobalDefault
    ensures forall a, b | a in to.accounts && b in to.accounts && a != b ::
              to.accounts[a].coaId != to.accounts[b].coaId || to.accounts[a].number != to.accounts[b].number
    ensures forall a, s | a in to.accounts && s in to.accounts
                          && to.accounts[a].consNumber == Some(to.accounts[s].number)
                          && to.accounts[s].coaId in to.charts && to.charts[to.accounts[s].coaId].isConsolidation ::
              && to.accounts[a].consName == Some(to.accounts[s].name)
              && to.accounts[a].consDescription == to.accounts[s].description
    ensures forall a | a in to.accounts :: to.accounts[a].coaId in to.charts
    decreases |requests|
  {
    if requests != [] {
      ServeKeepsValid(from, requests[0]);
      EveryRunKeepsAccountsInLine(Serve(from, requests[0]), requests[1..], to);
    } else {
      ValidMeansInLine(to);
    }
  }

  lemma ValidMeansInLine(s: State)
    requires Valid(s)
    ensures forall c, d | c in s.charts && d in s.charts && c != d ::
              && !(s.charts[c].isConsolidation && s.charts[d].isConsolidation)
              && !(s.charts[c].isGlobalDefault && s.charts[d].isGlobalDefault)
    ensures forall c | c in s.charts ::
              if s.charts[c].scope == Global then s.charts[c].country == None && !s.charts[c].isDefault
              else !s.charts[c].isGlobalDefault
    ensures forall a, b | a in s.accounts && b in s.accounts && a != b ::
              s.accounts[a].coaId != s.accounts[b].coaId || s.accounts[a].number != s.accounts[b].number
    ensures forall a, source | a in s.accounts && source in s.accounts
                               && s.accounts[a].consNumber == Some(s.accounts[source].number)
                               && s.accounts[source].coaId in s.charts
                               && s.charts[s.accounts[source].coaId].isConsolidation ::
              && s.accounts[a].consName == Some(s.accounts[source].name)
              && s.accounts[a].consDescription == s.accounts[source].description
  {
    forall c, d | c in s.charts && d in s.charts && c != d
      ensures !(s.charts[c].isConsolidation && s.charts[d].isConsolidation)
      ensures !(s.charts[c].isGlobalDefault && s.charts[d].isGlobalDefault)
    {
      assert forall role :: !(Holds(s.charts[c], role) && Holds(s.charts[d], role));
      assert !(Holds(s.charts[c], Consolidation) && Holds(s.charts[d], Consolidation));
      assert !(Holds(s.charts[c], GlobalDefault) && Holds(s.charts[d], GlobalDefault));
    }
    forall a, b | a in s.accounts && b in s.accounts && a != b
      ensures s.accounts[a].coaId != s.accounts[b].coaId || s.accounts[a].number != s.accounts[b].number
    {
      assert !SameKey(s.accounts[a], s.accounts[b]);
    }
    forall a, source | a in s.accounts && source in s.accounts
                       && s.accounts[a].consNumber == Some(s.accounts[source].number)
                       && s.accounts[source].coaId in s.charts && s.charts[s.accounts[source].coaId].isConsolidation
      ensures s.accounts[a].consName == Some(s.accounts[source].name)
              && s.accounts[a].consDescription == s.accounts[source].description
    {
      assert ConsolidationChart(s.charts) == Some(s.accounts[source].coaId);
      assert MapsTo(s.accounts[a], s.accounts[source]);
    }
  }
}
