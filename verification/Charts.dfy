/**
 The charts of accounts of one tenant and their roles (`backend/src/accounts/chart-of-accounts.service.ts`).
 */
module Charts {
  import opened Wrappers
  import opened Ledger
  import opened AccountWrites

  datatype Scope = Global | Country

  datatype Chart = Chart(
    code: string,
    name: string,
    scope: Scope,
    country: Option<string>,
    isDefault: bool,
    isGlobalDefault: bool,
    isConsolidation: bool)

  type ChartTable = map<ChartId, Chart>

  /** The two roles with one holder per tenant at most (partial unique indexes). */
  datatype Role = GlobalDefault | Consolidation

  predicate Holds(chart: Chart, role: Role) {
    match role
    case GlobalDefault => chart.isGlobalDefault
    case Consolidation => chart.isConsolidation
  }

  function WithRole(chart: Chart, role: Role, value: bool): Chart {
    match role
    case GlobalDefault => chart.(isGlobalDefault := value)
    case Consolidation => chart.(isConsolidation := value)
  }

  ghost predicate AtMostOneHolder(charts: ChartTable, role: Role) {
    forall c, d | c in charts && d in charts && Holds(charts[c], role) && Holds(charts[d], role) :: c == d
  }

  /** The tenant's consolidation chart, or none. */
  function ConsolidationChart(charts: ChartTable): (r: Option<ChartId>)
    requires AtMostOneHolder(charts, Consolidation)
    ensures forall c :: r == Some(c) <==> c in charts && charts[c].isConsolidation
  {
    if exists c :: c in charts && charts[c].isConsolidation then
      assert forall c | c in charts && charts[c].isConsolidation :: Holds(charts[c], Consolidation);
      var c :| c in charts && charts[c].isConsolidation;
      Some(c)
    else None
  }

  /** `assignRole`: the role goes to `holder` and leaves every other chart. */
  function Assign(charts: ChartTable, role: Role, holder: ChartId): ChartTable {
    map c | c in charts :: WithRole(charts[c], role, c == holder)
  }

  /** `clearRole`: the role leaves this chart. */
  function Clear(charts: ChartTable, role: Role, id: ChartId): ChartTable {
    map c | c in charts :: if c == id then WithRole(charts[c], role, false) else charts[c]
  }

  /** Body of a chart write; undefined and null are read alike. */
  datatype ChartBody = ChartBody(
    code: Option<string>,
    name: Option<string>,
    scope: Option<Scope>,
    country: Option<string>,
    isDefault: Option<bool>)

  function Upper(s: string): string {
    seq(|s|, i requires 0 <= i < |s| => if 'a' <= s[i] <= 'z' then 'A' + (s[i] - 'a') else s[i])
  }

  /** Each letter a to z becomes the one 32 places before it, every other character stays. */
  lemma UpperIsExact(s: string)
    ensures |Upper(s)| == |s| && Upper(Upper(s)) == Upper(s)
    ensures forall k | 0 <= k < |s| ::
              Upper(s)[k] as int == if 97 <= s[k] as int <= 122 then s[k] as int - 32 else s[k] as int
  {
  }

  /** The first truthy country: `a || b`, an empty text being falsy. */
  function CountryOr(a: Option<string>, b: Option<string>): Option<string> {
    if a.Some? && a.value != "" then Some(Upper(a.value))
    else if b.Some? then Some(Upper(b.value))
    else None
  }

  /** Scope transition: a GLOBAL chart has no country, "default for other countries" is for GLOBAL charts only. */
  function Rescoped(chart: Chart, body: ChartBody): Result<Chart, WriteError> {
    match body.scope
    case None => Ok(chart)
    case Some(Global) => Ok(chart.(scope := Global, country := None, isDefault := false))
    case Some(Country) =>
      var next := CountryOr(body.country, chart.country);
      if next.None? || |next.value| != 2 then Err(InvalidCountry)
      else Ok(chart.(scope := Country, isGlobalDefault := false, country := next))
  }

  function Relocated(chart: Chart, body: ChartBody): Result<Chart, WriteError> {
    if body.country.None? then Ok(chart)
    else if chart.scope == Global then Err(InvalidScope)
    else Ok(chart.(country := Some(Upper(body.country.value))))
  }

  function Defaulted(chart: Chart, body: ChartBody): Result<Chart, WriteError> {
    if body.isDefault.None? then Ok(chart)
    else if chart.scope == Global && body.isDefault.value then Err(InvalidScope)
    else Ok(chart.(isDefault := body.isDefault.value))
  }

  /** The chart an update saves. */
  function UpdatedChart(chart: Chart, body: ChartBody): Result<Chart, WriteError> {
    var named := chart.(code := if body.code.Some? then body.code.value else chart.code,
                        name := if body.name.Some? then body.name.value else chart.name);
    var rescoped := Rescoped(named, body);
    if rescoped.Err? then rescoped
    else
      var relocated := Relocated(rescoped.value, body);
      if relocated.Err? then relocated else Defaulted(relocated.value, body)
  }

  /** The chart a create saves. */
  function CreatedChart(body: ChartBody): Result<Chart, WriteError> {
    if body.code.None? || body.code.value == "" || body.name.None? || body.name.value == "" then Err(MissingValue)
    else
      var scope := if body.scope.Some? then body.scope.value
                   else if body.country.Some? && Upper(body.country.value) == "ZZ" then Global else Country;
      if scope == Global then Ok(Chart(body.code.value, body.name.value, Global, None, false, false, false))
      else if body.country.None? || |body.country.value| != 2 then Err(InvalidCountry)
      else Ok(Chart(body.code.value, body.name.value, Country, Some(Upper(body.country.value)),
                    body.isDefault == Some(true), false, false))
  }

  /** `ensureUniqueDefault`: no chart of this country is its default any more. */
  function WithoutDefault(charts: ChartTable, country: string): ChartTable {
    map c | c in charts :: if charts[c].country == Some(country) then charts[c].(isDefault := false) else charts[c]
  }

  /** Saves a chart under the unique key on its code, the country's previous default cleared when it takes over. */
  function SaveChart(charts: ChartTable, id: ChartId, row: Chart, takesDefault: bool): Result<ChartTable, WriteError> {
    if exists c :: c in charts && c != id && charts[c].code == row.code then Err(DuplicateCode)
    else
      var base := if takesDefault && row.country.Some? && row.country.value != ""
                  then WithoutDefault(charts, row.country.value) else charts;
      Ok(base[id := row])
  }

  function UpdateChart(charts: ChartTable, id: ChartId, body: ChartBody): Result<ChartTable, WriteError> {
    if id !in charts then Err(NotFound)
    else
      var row := UpdatedChart(charts[id], body);
      if row.Err? then Err(row.error) else SaveChart(charts, id, row.value, body.isDefault == Some(true))
  }

  function CreateChart(charts: ChartTable, id: ChartId, body: ChartBody): Result<ChartTable, WriteError> {
    var row := CreatedChart(body);
    if row.Err? then Err(row.error) else SaveChart(charts, id, row.value, row.value.isDefault)
  }

  /** A GLOBAL chart has no country and is no country's default; a COUNTRY chart is no global default. */
  predicate WellScoped(chart: Chart) {
    && (chart.scope == Global ==> chart.country.None? && !chart.isDefault)
    && (chart.scope == Country ==> !chart.isGlobalDefault)
  }

  ghost predicate ChartsValid(charts: ChartTable) {
    && AtMostOneHolder(charts, GlobalDefault) && AtMostOneHolder(charts, Consolidation)
    && forall c | c in charts :: WellScoped(charts[c])
  }

  /** Every scope transition keeps charts well scoped, takes no role but the global default, and gives none. */
  lemma UpdatedChartKeepsRoles(chart: Chart, body: ChartBody)
    requires WellScoped(chart) && UpdatedChart(chart, body).Ok?
    ensures WellScoped(UpdatedChart(chart, body).value)
    ensures UpdatedChart(chart, body).value.isConsolidation == chart.isConsolidation
    ensures UpdatedChart(chart, body).value.isGlobalDefault <==> chart.isGlobalDefault && body.scope != Some(Country)
  {
    var named := chart.(code := if body.code.Some? then body.code.value else chart.code,
                        name := if body.name.Some? then body.name.value else chart.name);
    var rescoped := Rescoped(named, body).value;
    assert WellScoped(rescoped) && rescoped.isConsolidation == chart.isConsolidation;
  }

  lemma SaveChartKeepsRoles(charts: ChartTable, id: ChartId, row: Chart, takesDefault: bool)
    requires ChartsValid(charts) && WellScoped(row) && SaveChart(charts, id, row, takesDefault).Ok?
    requires if id in charts
             then row.isConsolidation == charts[id].isConsolidation
                  && (row.isGlobalDefault ==> charts[id].isGlobalDefault)
             else !row.isConsolidation && !row.isGlobalDefault
    ensures var after := SaveChart(charts, id, row, takesDefault).value;
            && ChartsValid(after) && after.Keys == charts.Keys + {id}
            && ConsolidationChart(after) == ConsolidationChart(charts)
  {
    var base := if takesDefault && row.country.Some? && row.country.value != ""
                then WithoutDefault(charts, row.country.value) else charts;
    assert base.Keys == charts.Keys;
    assert forall c | c in charts :: base[c] == charts[c] || base[c] == charts[c].(isDefault := false);
    RowKeepsRoles(charts, base, id, row);
  }

  lemma RowKeepsRoles(charts: ChartTable, base: ChartTable, id: ChartId, row: Chart)
    requires ChartsValid(charts) && WellScoped(row) && base.Keys == charts.Keys
    requires forall c | c in charts :: base[c] == charts[c] || base[c] == charts[c].(isDefault := false)
    requires if id in charts
             then row.isConsolidation == charts[id].isConsolidation
                  && (row.isGlobalDefault ==> charts[id].isGlobalDefault)
             else !row.isConsolidation && !row.isGlobalDefault
    ensures ChartsValid(base[id := row])
    ensures ConsolidationChart(base[id := row]) == ConsolidationChart(charts)
  {
    var after := base[id := row];
    forall role: Role, c | c in after && Holds(after[c], role)
      ensures c in charts && Holds(charts[c], role)
    {
    }
    assert forall c | c in charts && charts[c].isConsolidation :: after[c].isConsolidation;
    match ConsolidationChart(charts)
    case Some(c) => assert after[c].isConsolidation;
    case None =>
  }

  lemma AssignMovesRole(charts: ChartTable, role: Role, holder: ChartId)
    requires ChartsValid(charts) && holder in charts && (role == GlobalDefault ==> charts[holder].scope == Global)
    ensures ChartsValid(Assign(charts, role, holder)) && Assign(charts, role, holder).Keys == charts.Keys
    ensures ConsolidationChart(Assign(charts, role, holder))
            == if role == Consolidation then Some(holder) else ConsolidationChart(charts)
    ensures forall c | c in charts ::
              Assign(charts, role, holder)[c]
              == if role == Consolidation then charts[c].(isConsolidation := c == holder)
                 else charts[c].(isGlobalDefault := c == holder)
  {
    var after := Assign(charts, role, holder);
    forall other: Role, c | c in after && Holds(after[c], other) && other != role
      ensures Holds(charts[c], other)
    {
    }
    assert after[holder].isConsolidation || role == GlobalDefault;
    if role == GlobalDefault && ConsolidationChart(charts).Some? {
      assert after[ConsolidationChart(charts).value].isConsolidation;
    }
  }

  lemma ClearTakesRole(charts: ChartTable, role: Role, id: ChartId)
    requires ChartsValid(charts)
    ensures ChartsValid(Clear(charts, role, id)) && Clear(charts, role, id).Keys == charts.Keys
    ensures ConsolidationChart(Clear(charts, role, id))
            == if role == Consolidation && ConsolidationChart(charts) == Some(id) then None
               else ConsolidationChart(charts)
    ensures forall c | c in charts ::
              Clear(charts, role, id)[c] == if c != id then charts[c]
                                            else if role == Consolidation then charts[c].(isConsolidation := false)
                                            else charts[c].(isGlobalDefault := false)
  {
    var after := Clear(charts, role, id);
    forall other: Role, c | c in after && Holds(after[c], other)
      ensures Holds(charts[c], other)
    {
    }
    if ConsolidationChart(charts).Some? {
      var c := ConsolidationChart(charts).value;
      assert after[c].isConsolidation <==> !(role == Consolidation && c == id);
    }
  }

  lemma DeleteDropsRole(charts: ChartTable, id: ChartId)
    requires ChartsValid(charts)
    ensures ChartsValid(charts - {id})
    ensures ConsolidationChart(charts - {id})
         == if ConsolidationChart(charts) == Some(id) then None else ConsolidationChart(charts)
  {
    var after := charts - {id};
    if ConsolidationChart(charts).Some? && ConsolidationChart(charts).value != id {
      assert after[ConsolidationChart(charts).value].isConsolidation;
    }
  }

  // ----- When a chart write succeeds, and what it stores -----

  /** Another chart has this code. */
  ghost predicate CodeTaken(charts: ChartTable, id: ChartId, code: string) {
    exists c :: c in charts && c != id && charts[c].code == code
  }

  ghost predicate IsLetterPair(country: Option<string>) {
    country.Some? && |country.value| == 2
  }

  /** The scope a chart has after an update. */
  ghost function ScopeAfter(chart: Chart, body: ChartBody): Scope {
    if body.scope.Some? then body.scope.value else chart.scope
  }

  /** The country a chart that becomes, or stays told to be, a country's is given: what was sent, unless empty. */
  ghost function CountryFor(chart: Chart, body: ChartBody): Option<string> {
    if body.country.Some? && body.country.value != "" then body.country else chart.country
  }

  /**
   When an update of a chart is refused: a country's chart without a two-letter country, a GLOBAL chart with a
   country or as a country's default, or a code another chart has.
   */
  lemma UpdateChartAnswers(charts: ChartTable, id: ChartId, body: ChartBody)
    ensures var r := UpdateChart(charts, id, body);
            if id !in charts then r == Err(NotFound)
            else
              var chart, scope := charts[id], ScopeAfter(charts[id], body);
              var noCountry := body.scope == Some(Country) && !IsLetterPair(CountryFor(chart, body));
              var misplaced := scope == Global && (body.country.Some? || body.isDefault == Some(true));
              var code := if body.code.Some? then body.code.value else chart.code;
              && (r == Err(InvalidCountry) <==> noCountry) && (r == Err(InvalidScope) <==> !noCountry && misplaced)
              && (r == Err(DuplicateCode) <==> !noCountry && !misplaced && CodeTaken(charts, id, code))
              && (r.Ok? <==> !noCountry && !misplaced && !CodeTaken(charts, id, code))
  {
  }

  /** What a scope transition makes of the columns it may change. */
  lemma RescopedColumns(chart: Chart, body: ChartBody, row: Chart)
    requires Rescoped(chart, body) == Ok(row)
    ensures row == chart.(scope := ScopeAfter(chart, body), country := row.country,
                          isDefault := chart.isDefault && body.scope != Some(Global),
                          isGlobalDefault := chart.isGlobalDefault && body.scope != Some(Country))
    ensures body.scope == Some(Global) ==> row.country == None
    ensures body.scope == None ==> row.country == chart.country
    ensures body.scope == Some(Country) && body.country.None? ==>
              chart.country.Some? && row.country == Some(Upper(chart.country.value))
  {
  }

  /** What an update makes of a chart's columns. */
  lemma UpdatedChartColumns(before: Chart, body: ChartBody, row: Chart)
    requires UpdatedChart(before, body) == Ok(row)
    ensures row.code == (if body.code.Some? then body.code.value else before.code)
    ensures row.name == (if body.name.Some? then body.name.value else before.name)
    ensures row.scope == ScopeAfter(before, body) && row.isConsolidation == before.isConsolidation
    ensures row.isGlobalDefault == (before.isGlobalDefault && body.scope != Some(Country))
    ensures row.isDefault
         == if body.isDefault.Some? then body.isDefault.value else before.isDefault && body.scope != Some(Global)
    ensures body.scope == Some(Global) ==> row.country == None
    ensures body.scope != Some(Global) && body.country.Some? ==> row.country == Some(Upper(body.country.value))
    ensures body.scope == None && body.country.None? ==> row.country == before.country
    ensures body.scope == Some(Country) && body.country.None? ==>
              before.country.Some? && row.country == Some(Upper(before.country.value))
  {
    var named := before.(code := if body.code.Some? then body.code.value else before.code,
                         name := if body.name.Some? then body.name.value else before.name);
    var rescoped := Rescoped(named, body).value;
    RescopedColumns(named, body, rescoped);
    var relocated := Relocated(rescoped, body).value;
    assert relocated == rescoped.(country := if body.country.Some? then Some(Upper(body.country.value))
                                             else rescoped.country);
    assert row == Defaulted(relocated, body).value;
  }

  /**
   The table after an update: the chart's new columns, and of the others exactly those of a country whose
   default the chart becomes are its default no more.
   */
  lemma UpdateChartStores(charts: ChartTable, id: ChartId, body: ChartBody, after: ChartTable)
    requires UpdateChart(charts, id, body) == Ok(after)
    ensures after.Keys == charts.Keys && UpdatedChart(charts[id], body) == Ok(after[id])
    ensures forall c | c in charts && c != id ::
              if body.isDefault == Some(true) && after[id].country.Some? && after[id].country.value != ""
                 && charts[c].country == after[id].country
              then after[c] == charts[c].(isDefault := false) else after[c] == charts[c]
  {
    var row := UpdatedChart(charts[id], body).value;
    assert SaveChart(charts, id, row, body.isDefault == Some(true)) == Ok(after);
  }

  /** When a create of a chart is refused, and what it stores. */
  lemma CreateChartAnswers(charts: ChartTable, id: ChartId, body: ChartBody)
    requires id !in charts
    ensures var r := CreateChart(charts, id, body);
            var unnamed := body.code.None? || body.code == Some("") || body.name.None? || body.name == Some("");
            var global := body.scope == Some(Global)
                          || (body.scope.None? && body.country.Some? && Upper(body.country.value) == "ZZ");
            var noCountry := !global && !IsLetterPair(body.country);
            && (r == Err(MissingValue) <==> unnamed) && (r == Err(InvalidCountry) <==> !unnamed && noCountry)
            && (r == Err(DuplicateCode) <==> !unnamed && !noCountry && CodeTaken(charts, id, body.code.value))
            && (r.Ok? <==> !unnamed && !noCountry && !CodeTaken(charts, id, body.code.value))
            && (r.Ok? ==>
                  && r.value.Keys == charts.Keys + {id}
                  && r.value[id] == Chart(body.code.value, body.name.value, if global then Global else Country,
                                          if global then None else Some(Upper(body.country.value)),
                                          !global && body.isDefault == Some(true), false, false)
                  && forall c | c in charts ::
                       if r.value[id].isDefault && charts[c].country == r.value[id].country
                       then r.value[c] == charts[c].(isDefault := false) else r.value[c] == charts[c])
  {
  }
}
