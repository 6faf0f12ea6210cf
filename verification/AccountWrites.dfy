/**
 What one account write does to the rows: `createAccount`, `updateAccount`,
 `deriveConsolidationFields` and `followConsolidationAccount` of
 `backend/src/accounts/accounts.service.ts`, as functions.  The methods of module `Tenants` are
 proved against them.
 */
module AccountWrites {
  import opened Wrappers
  import opened Ledger

  /** A field of a request body: left undefined, or sent (null is `Given(None)`). */
  datatype Field<+T> = Absent | Given(value: T)

  datatype AccountBody = AccountBody(
    coaId: Field<Option<ChartId>>,
    number: Field<Option<int>>,
    name: Field<Option<string>>,
    description: Field<Option<string>>,
    consNumber: Field<Option<int>>,
    consName: Field<Option<string>>,
    consDescription: Field<Option<string>>)

  datatype WriteError =
    | CoaIdRequired | MissingValue | UnknownChart | DuplicateNumber
    | NotFound | InUse
    | InvalidCountry | InvalidScope | DuplicateCode

  /** What the caller of `deriveConsolidationFields` says about the body. */
  datatype GivenFields = GivenFields(numberGiven: bool, numberChanged: bool, nameGiven: bool, descriptionGiven: bool)

  function GivenOr<T>(f: Field<T>, current: T): T {
    match f
    case Absent => current
    case Given(v) => v
  }

  /** The consolidation account a row takes its derived fields from, when there is one. */
  function FindSource(e: Account, chartId: Option<ChartId>, known: map<int, Source>): Option<Source>
    requires e.consNumber.Some?
  {
    if chartId.None? then None
    else if e.coaId == chartId.value && e.number == e.consNumber.value then Some(SourceOf(e))
    else if e.consNumber.value in known then Some(known[e.consNumber.value])
    else None
  }

  function Derived(e: Account, given: GivenFields, chartId: Option<ChartId>, known: map<int, Source>): Account {
    if e.consNumber.None? then
      if given.numberGiven then e.(consName := None, consDescription := None) else e
    else
      match FindSource(e, chartId, known)
      case Some(s) => WithSource(e, s)
      case None =>
        if given.numberChanged then
          e.(consName := if given.nameGiven then e.consName else None,
             consDescription := if given.descriptionGiven then e.consDescription else None)
        else e
  }

  predicate IsIn(a: Account, chartId: Option<ChartId>) {
    chartId == Some(a.coaId)
  }

  /** The row with the fields of the body; a null in a column that refuses it is an error. */
  function Assigned(before: Account, body: AccountBody): Result<Account, WriteError> {
    if body.coaId == Given(None) || body.name == Given(None) then Err(MissingValue)
    else Ok(Account(
      if body.coaId.Given? then body.coaId.value.value else before.coaId,
      if body.number.Given? && body.number.value.Some? then body.number.value.value else before.number,
      if body.name.Given? then body.name.value.value else before.name,
      GivenOr(body.description, before.description),
      GivenOr(body.consNumber, before.consNumber),
      GivenOr(body.consName, before.consName),
      GivenOr(body.consDescription, before.consDescription)))
  }

  /** The account's own self-reference follows a renumbering within the consolidation chart. */
  function SelfFollowed(before: Account, e: Account, body: AccountBody, chartId: Option<ChartId>): Account {
    if IsIn(before, chartId) && IsIn(e, chartId) && e.number != before.number
       && body.consNumber.Absent? && before.consNumber == Some(before.number)
    then e.(consNumber := Some(e.number))
    else e
  }

  function UpdateFlags(before: Account, e: Account, body: AccountBody): GivenFields {
    GivenFields(body.consNumber.Given?, e.consNumber != before.consNumber, body.consName.Given?,
                body.consDescription.Given?)
  }

  /** The row an update saves. */
  function UpdatedRow(before: Account, body: AccountBody, chartId: Option<ChartId>, known: map<int, Source>)
    : Result<Account, WriteError>
  {
    match Assigned(before, body)
    case Err(e) => Err(e)
    case Ok(e) =>
      var followed := SelfFollowed(before, e, body, chartId);
      Ok(Derived(followed, UpdateFlags(before, followed, body), chartId, known))
  }

  function CreatedEntity(body: AccountBody): Account
    requires GivenOr(body.coaId, None).Some? && GivenOr(body.name, None).Some? && GivenOr(body.number, None).Some?
  {
    Account(body.coaId.value.value, body.number.value.value, body.name.value.value, GivenOr(body.description, None),
            GivenOr(body.consNumber, None), GivenOr(body.consName, None), GivenOr(body.consDescription, None))
  }

  /** The row a create saves. */
  function CreatedRow(body: AccountBody, chartId: Option<ChartId>, known: map<int, Source>): Result<Account, WriteError>
  {
    if GivenOr(body.coaId, None).None? then Err(CoaIdRequired)
    else if GivenOr(body.name, None).None? || GivenOr(body.number, None).None? then Err(MissingValue)
    else
      Ok(Derived(CreatedEntity(body), GivenFields(true, true, body.consName.Given?, body.consDescription.Given?),
                 chartId, known))
  }

  /** The numbers whose mapped accounts follow an updated account. */
  function Followers(before: Account, after: Account, chartId: Option<ChartId>): set<int> {
    if !IsIn(after, chartId) then {}
    else if !IsIn(before, chartId) then {after.number}
    else if after.number != before.number || SourceOf(after) != SourceOf(before) then {before.number, after.number}
    else {}
  }

  function CreateFollowers(after: Account, chartId: Option<ChartId>): set<int> {
    if IsIn(after, chartId) then {after.number} else {}
  }

  /** Saves a row under the foreign key on the chart and the unique key (chart, number). */
  function Save(charts: set<ChartId>, accounts: Accounts, id: AccountId, row: Account): Result<Accounts, WriteError> {
    if row.coaId !in charts then Err(UnknownChart)
    else if exists i :: i in accounts && i != id && SameKey(accounts[i], row) then Err(DuplicateNumber)
    else Ok(accounts[id := row])
  }

  function Follow(accounts: Accounts, id: AccountId, from: set<int>): Accounts
    requires id in accounts
  {
    if from == {} then accounts
    else Remap(accounts, from, accounts[id].number, SourceOf(accounts[id]), id)
  }

  /** The preloaded consolidation accounts after a followed write (a CSV import keeps them in line). */
  function FollowKnown(known: map<int, Source>, row: Account, from: set<int>): map<int, Source> {
    if from == {} then known else (known - from)[row.number := SourceOf(row)]
  }

  function SaveAndFollow(charts: set<ChartId>, accounts: Accounts, id: AccountId, row: Account, from: set<int>)
    : Result<Accounts, WriteError>
  {
    match Save(charts, accounts, id, row)
    case Err(e) => Err(e)
    case Ok(saved) => Ok(Follow(saved, id, from))
  }

  /** The consolidation accounts a single write can look up: all of the chart's, or none without one. */
  function KnownTo(accounts: Accounts, chartId: Option<ChartId>): map<int, Source>
    requires UniqueNumbers(accounts)
  {
    if chartId.Some? then Sources(accounts, chartId.value) else map[]
  }

  predicate OnlyDerivedDiffers(a: Account, b: Account) {
    SameIdentity(a, b) && a.consNumber == b.consNumber
  }

  /** The rows after a single update (`update`). */
  function Update(charts: set<ChartId>, accounts: Accounts, chartId: Option<ChartId>, id: AccountId, body: AccountBody)
    : Result<Accounts, WriteError>
    requires UniqueNumbers(accounts)
  {
    if id !in accounts then Err(NotFound)
    else
      match UpdatedRow(accounts[id], body, chartId, KnownTo(accounts, chartId))
      case Err(e) => Err(e)
      case Ok(row) => SaveAndFollow(charts, accounts, id, row, Followers(accounts[id], row, chartId))
  }

  /** The rows after a single create (`create`); `id` is the uuid the database gives the row. */
  function Create(charts: set<ChartId>, accounts: Accounts, chartId: Option<ChartId>, id: AccountId, body: AccountBody)
    : Result<Accounts, WriteError>
    requires UniqueNumbers(accounts) && id !in accounts
  {
    match CreatedRow(body, chartId, KnownTo(accounts, chartId))
    case Err(e) => Err(e)
    case Ok(row) => SaveAndFollow(charts, accounts, id, row, CreateFollowers(row, chartId))
  }

  /** What every write keeps: the keys, and the derived columns in line with the consolidation chart. */
  ghost predicate Consistent(charts: set<ChartId>, accounts: Accounts, chartId: Option<ChartId>) {
    && UniqueNumbers(accounts)
    && (forall i :: i in accounts ==> accounts[i].coaId in charts)
    && (chartId.Some? ==> InLine(accounts, chartId.value))
  }

  // ----- The saved row is in line -----

  /** A row is in line with the table it is about to be saved into. */
  ghost predicate RowInLine(row: Account, accounts: Accounts, id: AccountId, c: ChartId) {
    && (row.coaId == c && MapsTo(row, row) ==> Carries(row, SourceOf(row)))
    && (forall s | s in accounts && s != id && accounts[s].coaId == c && MapsTo(row, accounts[s]) ::
          Carries(row, SourceOf(accounts[s])))
  }

  /** `known` holds what a row mapped to `e.consNumber` must carry, as far as other accounts say. */
  ghost predicate KnowsSourceFor(known: map<int, Source>, e: Account, accounts: Accounts, id: AccountId, c: ChartId) {
    forall s | s in accounts && s != id && accounts[s].coaId == c && MapsTo(e, accounts[s]) ::
      accounts[s].number in known && known[accounts[s].number] == SourceOf(accounts[s])
  }

  lemma DerivedIsInLine(e: Account, given: GivenFields, known: map<int, Source>, accounts: Accounts, id: AccountId,
                        c: ChartId)
    requires KnowsSourceFor(known, e, accounts, id, c)
    requires forall i | i in accounts && i != id :: !SameKey(accounts[i], e)
    ensures RowInLine(Derived(e, given, Some(c), known), accounts, id, c)
    ensures SameIdentity(e, Derived(e, given, Some(c), known))
  {
    var row := Derived(e, given, Some(c), known);
    forall s | s in accounts && s != id && accounts[s].coaId == c && MapsTo(row, accounts[s])
      ensures Carries(row, SourceOf(accounts[s]))
    {
      assert MapsTo(e, accounts[s]);
      assert !SameKey(accounts[s], e);
    }
  }

  lemma SourcesKnow(e: Account, accounts: Accounts, id: AccountId, c: ChartId)
    requires UniqueNumbers(accounts)
    ensures KnowsSourceFor(Sources(accounts, c), e, accounts, id, c)
  {
    forall s | s in accounts && accounts[s].coaId == c
      ensures accounts[s].number in Sources(accounts, c)
              && Sources(accounts, c)[accounts[s].number] == SourceOf(accounts[s])
    {
      SourceAt(accounts, c, s);
    }
  }

  lemma UpdatedRowIsInLine(before: Account, body: AccountBody, known: map<int, Source>, accounts: Accounts,
                           id: AccountId, c: ChartId, row: Account)
    requires UpdatedRow(before, body, Some(c), known) == Ok(row)
    requires KnowsSourceFor(known, row, accounts, id, c)
    requires forall i | i in accounts && i != id :: !SameKey(accounts[i], row)
    ensures RowInLine(row, accounts, id, c)
  {
    var followed := SelfFollowed(before, Assigned(before, body).value, body, Some(c));
    assert SameIdentity(followed, row) && followed.consNumber == row.consNumber;
    DerivedIsInLine(followed, UpdateFlags(before, followed, body), known, accounts, id, c);
  }

  lemma CreatedRowIsInLine(body: AccountBody, known: map<int, Source>, accounts: Accounts, id: AccountId, c: ChartId,
                           row: Account)
    requires CreatedRow(body, Some(c), known) == Ok(row)
    requires KnowsSourceFor(known, row, accounts, id, c)
    requires forall i | i in accounts && i != id :: !SameKey(accounts[i], row)
    ensures RowInLine(row, accounts, id, c)
  {
    var e := CreatedEntity(body);
    assert SameIdentity(e, row) && e.consNumber == row.consNumber;
    DerivedIsInLine(e, GivenFields(true, true, body.consName.Given?, body.consDescription.Given?),
                    known, accounts, id, c);
  }

  /**
   No stale name survives an update: the row carries the name and description of its consolidation
   account when there is one; without one, what the caller sent, and what was stored only for an
   unchanged number.  A number set to null clears both.
   */
  lemma NoStaleNameSurvives(before: Account, body: AccountBody, chartId: Option<ChartId>, known: map<int, Source>,
                            row: Account)
    requires UpdatedRow(before, body, chartId, known) == Ok(row)
    ensures body.consNumber == Given(None) ==> row.consNumber.None? && row.consName.None? && row.consDescription.None?
    ensures chartId.Some? && row.consNumber.Some? && row.consNumber.value in known
            && !(IsIn(row, chartId) && MapsTo(row, row)) ==>
              Carries(row, known[row.consNumber.value])
    ensures IsIn(row, chartId) && MapsTo(row, row) ==> Carries(row, SourceOf(row))
    ensures row.consNumber.Some?
            && (chartId.None? || (row.consNumber.value !in known && !(IsIn(row, chartId) && MapsTo(row, row)))) ==>
              && row.consName == GivenOr(body.consName,
                                         if row.consNumber == before.consNumber then before.consName else None)
              && row.consDescription
                == GivenOr(body.consDescription,
                           if row.consNumber == before.consNumber then before.consDescription else None)
  {
    var followed := SelfFollowed(before, Assigned(before, body).value, body, chartId);
    assert SameIdentity(followed, row) && followed.consNumber == row.consNumber;
    assert MapsTo(row, row) <==> MapsTo(followed, followed);
  }

  // ----- A write keeps the table consistent -----

  lemma SaveKeepsKeys(charts: set<ChartId>, accounts: Accounts, id: AccountId, row: Account, from: set<int>)
    requires Consistent(charts, accounts, None)
    requires SaveAndFollow(charts, accounts, id, row, from).Ok?
    ensures Consistent(charts, SaveAndFollow(charts, accounts, id, row, from).value, None)
    ensures SameButConsolidation(accounts[id := row], SaveAndFollow(charts, accounts, id, row, from).value)
  {
    var saved := accounts[id := row];
    forall i, j | i in saved && j in saved && SameKey(saved[i], saved[j])
      ensures i == j
    {
    }
  }

  /**
   The heart of the invariant.  A saved row that is in line with the table, and whose followers are
   told of every change the chart's accounts can see, leaves the whole table in line.
   */
  lemma SaveAndFollowKeepsInLine(charts: set<ChartId>, accounts: Accounts, id: AccountId, row: Account, from: set<int>,
                                 c: ChartId)
    requires Consistent(charts, accounts, Some(c)) && RowInLine(row, accounts, id, c)
    requires SaveAndFollow(charts, accounts, id, row, from).Ok?
    // Followers are told: either the row is in the chart and its number is among those told, or nothing they
    // see changed.
    requires from != {} ==> row.coaId == c && row.number in from
    requires from == {} && row.coaId == c ==>
               id in accounts && accounts[id].coaId == c && accounts[id].number == row.number
               && SourceOf(accounts[id]) == SourceOf(row)
    ensures Consistent(charts, SaveAndFollow(charts, accounts, id, row, from).value, Some(c))
  {
    SaveKeepsKeys(charts, accounts, id, row, from);
    var saved := accounts[id := row];
    var after := Follow(saved, id, from);
    forall a, s | a in after && s in after && after[s].coaId == c && MapsTo(after[a], after[s])
      ensures Carries(after[a], SourceOf(after[s]))
    {
      assert SameIdentity(saved[s], after[s]);
      if a == id {
        assert after[a] == row;
      } else if after[a] == accounts[a] {
        var n := accounts[a].consNumber.value;
        if s == id && from != {} {
          // Told, yet not rewritten: it already carried the row's values.
          assert n in from;
        } else if s == id {
          assert MapsTo(accounts[a], accounts[id]);
        } else {
          assert MapsTo(accounts[a], accounts[s]);
        }
      } else {
        // Rewritten: it points at the row's number, which only the row has in the chart.
        assert after[a].consNumber == Some(row.number);
        assert SameKey(after[s], after[id]);
        assert s == id;
      }
    }
  }

  /** An update keeps the keys and, from an in-line table, the derived columns. */
  lemma UpdateKeepsConsistent(charts: set<ChartId>, accounts: Accounts, chartId: Option<ChartId>, id: AccountId,
                              body: AccountBody)
    requires Consistent(charts, accounts, chartId)
    requires Update(charts, accounts, chartId, id, body).Ok?
    ensures Consistent(charts, Update(charts, accounts, chartId, id, body).value, chartId)
  {
    var before := accounts[id];
    var row := UpdatedRow(before, body, chartId, KnownTo(accounts, chartId)).value;
    var from := Followers(before, row, chartId);
    SaveKeepsKeys(charts, accounts, id, row, from);
    if chartId.Some? {
      SourcesKnow(row, accounts, id, chartId.value);
      UpdatedRowIsInLine(before, body, KnownTo(accounts, chartId), accounts, id, chartId.value, row);
      SaveAndFollowKeepsInLine(charts, accounts, id, row, from, chartId.value);
    }
  }

  lemma CreateKeepsConsistent(charts: set<ChartId>, accounts: Accounts, chartId: Option<ChartId>, id: AccountId,
                              body: AccountBody)
    requires Consistent(charts, accounts, chartId) && id !in accounts
    requires Create(charts, accounts, chartId, id, body).Ok?
    ensures Consistent(charts, Create(charts, accounts, chartId, id, body).value, chartId)
  {
    var row := CreatedRow(body, chartId, KnownTo(accounts, chartId)).value;
    var from := CreateFollowers(row, chartId);
    SaveKeepsKeys(charts, accounts, id, row, from);
    if chartId.Some? {
      SourcesKnow(row, accounts, id, chartId.value);
      CreatedRowIsInLine(body, KnownTo(accounts, chartId), accounts, id, chartId.value, row);
      SaveAndFollowKeepsInLine(charts, accounts, id, row, from, chartId.value);
    }
  }

  // ----- Renumbering, joining and leaving the consolidation chart -----

  /** The account `a` as it is after following account `s` of the consolidation chart. */
  function PointedAt(a: Account, s: Account): Account {
    WithSource(a.(consNumber := Some(s.number)), SourceOf(s))
  }

  /**
   Renumbering an account of the consolidation chart from `p` to `q`: every other account formerly
   at `p` or `q` is now at `q` with its name and description, and no other account changes.  Its own
   self-reference follows unless the caller gave a number.
   */
  lemma RenumberingMovesFollowers(charts: set<ChartId>, accounts: Accounts, c: ChartId, id: AccountId,
                                  body: AccountBody, after: Accounts)
    requires Consistent(charts, accounts, Some(c)) && Update(charts, accounts, Some(c), id, body) == Ok(after)
    requires accounts[id].coaId == c == after[id].coaId && after[id].number != accounts[id].number
    ensures after.Keys == accounts.Keys
    ensures forall a :: a in accounts && a != id ==>
              after[a] == if accounts[a].consNumber in {Some(accounts[id].number), Some(after[id].number)}
                          then PointedAt(accounts[a], after[id]) else accounts[a]
    ensures body.consNumber.Given? ==> after[id].consNumber == body.consNumber.value
    ensures body.consNumber.Absent? && MapsTo(accounts[id], accounts[id]) ==>
              after[id] == PointedAt(after[id], after[id])
    ensures body.consNumber.Absent? && !MapsTo(accounts[id], accounts[id]) ==>
              after[id].consNumber == accounts[id].consNumber
  {
    UpdateKeepsConsistent(charts, accounts, Some(c), id, body);
    var row := UpdatedRow(accounts[id], body, Some(c), Sources(accounts, c)).value;
    assert after[id] == row;
    assert Followers(accounts[id], row, Some(c)) == {accounts[id].number, row.number};
    if body.consNumber.Absent? && MapsTo(accounts[id], accounts[id]) {
      assert MapsTo(row, row);
    }
  }

  /** An account that leaves the consolidation chart, or was never in it, changes no other account. */
  lemma OutsideWritesChangeNoOther(charts: set<ChartId>, accounts: Accounts, chartId: Option<ChartId>, id: AccountId,
                                   body: AccountBody, after: Accounts)
    requires Consistent(charts, accounts, chartId) && Update(charts, accounts, chartId, id, body) == Ok(after)
    requires !IsIn(after[id], chartId)
    ensures after.Keys == accounts.Keys && forall a :: a in accounts && a != id ==> after[a] == accounts[a]
  {
    var row := UpdatedRow(accounts[id], body, chartId, KnownTo(accounts, chartId)).value;
    assert after[id] == row by {
      SaveKeepsKeys(charts, accounts, id, row, Followers(accounts[id], row, chartId));
    }
  }

  /** An account that joins the consolidation chart takes along exactly the accounts mapped to its number. */
  lemma JoiningTakesMappedAccounts(charts: set<ChartId>, accounts: Accounts, c: ChartId, id: AccountId,
                                   body: AccountBody, after: Accounts)
    requires Consistent(charts, accounts, Some(c)) && Update(charts, accounts, Some(c), id, body) == Ok(after)
    requires accounts[id].coaId != c == after[id].coaId
    ensures after.Keys == accounts.Keys
    ensures forall a :: a in accounts && a != id ==>
              after[a] == if MapsTo(accounts[a], after[id]) then WithSource(accounts[a], SourceOf(after[id]))
                          else accounts[a]
  {
    var row := UpdatedRow(accounts[id], body, Some(c), Sources(accounts, c)).value;
    assert after[id] == row;
  }

  // ----- When a write succeeds, and what it stores -----

  predicate HasValue<T(==)>(f: Field<Option<T>>) {
    f.Given? && f.value.Some?
  }

  /** Another account of the chart has this number. */
  ghost predicate NumberTaken(accounts: Accounts, id: AccountId, chart: ChartId, number: int) {
    exists i :: i in accounts && i != id && accounts[i].coaId == chart && accounts[i].number == number
  }

  /** A write into a chart is refused exactly for an unknown chart, or a number another of its accounts has. */
  ghost predicate AnswersForKey<T>(r: Result<T, WriteError>, charts: set<ChartId>, accounts: Accounts,
                                id: AccountId, chart: ChartId, number: int)
  {
    && (r.Ok? <==> chart in charts && !NumberTaken(accounts, id, chart, number))
    && (r == Err(UnknownChart) <==> chart !in charts)
    && (r == Err(DuplicateNumber) <==> NumberTaken(accounts, id, chart, number))
  }

  lemma SaveAnswers(charts: set<ChartId>, accounts: Accounts, id: AccountId, row: Account, from: set<int>)
    requires forall i | i in accounts :: accounts[i].coaId in charts
    ensures AnswersForKey(SaveAndFollow(charts, accounts, id, row, from), charts, accounts, id, row.coaId, row.number)
  {
    if NumberTaken(accounts, id, row.coaId, row.number) {
      var i :| i in accounts && i != id && accounts[i].coaId == row.coaId && accounts[i].number == row.number;
      assert SameKey(accounts[i], row);
    }
  }

  /** The answer of a create: the chart, the name and the number are required, and decide the rest. */
  lemma CreateAnswers(charts: set<ChartId>, accounts: Accounts, chartId: Option<ChartId>, id: AccountId,
                      body: AccountBody)
    requires Consistent(charts, accounts, chartId) && id !in accounts
    ensures var r := Create(charts, accounts, chartId, id, body);
            && (r == Err(CoaIdRequired) <==> !HasValue(body.coaId))
            && (r == Err(MissingValue) <==> HasValue(body.coaId) && !(HasValue(body.name) && HasValue(body.number)))
            && (HasValue(body.coaId) && HasValue(body.name) && HasValue(body.number) ==>
                  AnswersForKey(r, charts, accounts, id, body.coaId.value.value, body.number.value.value))
  {
    var row := CreatedRow(body, chartId, KnownTo(accounts, chartId));
    if row.Ok? {
      SaveAnswers(charts, accounts, id, row.value, CreateFollowers(row.value, chartId));
    }
  }

  /** The answer of an update: a field left undefined counts with its stored value. */
  lemma UpdateAnswers(charts: set<ChartId>, accounts: Accounts, chartId: Option<ChartId>, id: AccountId,
                      body: AccountBody)
    requires Consistent(charts, accounts, chartId)
    ensures var r := Update(charts, accounts, chartId, id, body);
            && (r == Err(NotFound) <==> id !in accounts)
            && (id in accounts ==>
                  && (r == Err(MissingValue) <==> body.coaId == Given(None) || body.name == Given(None))
                  && (body.coaId != Given(None) && body.name != Given(None) ==>
                        AnswersForKey(r, charts, accounts, id,
                                      if HasValue(body.coaId) then body.coaId.value.value else accounts[id].coaId,
                                      if HasValue(body.number) then body.number.value.value else accounts[id].number)))
  {
    if id in accounts {
      var row := UpdatedRow(accounts[id], body, chartId, KnownTo(accounts, chartId));
      if row.Ok? {
        SaveAnswers(charts, accounts, id, row.value, Followers(accounts[id], row.value, chartId));
      }
    }
  }

  /**
   The consolidation columns are those of the account of the consolidation chart with the row's consolidation
   number; without such an account they are the given ones.
   */
  ghost predicate DerivesOr(a: Account, accounts: Accounts, chartId: Option<ChartId>, name: Option<string>,
                            description: Option<string>)
  {
    && (forall s | s in accounts && chartId == Some(accounts[s].coaId) && a.consNumber == Some(accounts[s].number) ::
          a.consName == Some(accounts[s].name) && a.consDescription == accounts[s].description)
    && ((forall s | s in accounts :: chartId != Some(accounts[s].coaId) || a.consNumber != Some(accounts[s].number)) ==>
          a.consName == name && a.consDescription == description)
  }

  /** An account points at account `s` of the consolidation chart. */
  ghost predicate PointsTo(a: Account, before: Account, s: Account) {
    && a.coaId == before.coaId && a.number == before.number && a.name == before.name
    && a.description == before.description
    && a.consNumber == Some(s.number) && a.consName == Some(s.name) && a.consDescription == s.description
  }

  /** The chart account before the write that the row maps to, but that the write takes from its place. */
  ghost predicate MapsToOldSelf(row: Account, accounts: Accounts, id: AccountId, chartId: Option<ChartId>) {
    && id in accounts && chartId == Some(accounts[id].coaId) && row.consNumber == Some(accounts[id].number)
    && !(row.coaId == accounts[id].coaId && row.number == accounts[id].number)
  }

  /** A number set to null, or a new number without the column, drops the column's stored value. */
  ghost predicate Drops(e: Account, given: GivenFields, columnGiven: bool) {
    if e.consNumber.None? then given.numberGiven else given.numberChanged && !columnGiven
  }

  lemma DerivedStores(e: Account, given: GivenFields, accounts: Accounts, chartId: Option<ChartId>, id: AccountId,
                      after: Accounts, charts: set<ChartId>)
    requires UniqueNumbers(accounts) && Consistent(charts, after, chartId) && id in after
    requires after[id] == Derived(e, given, chartId, KnownTo(accounts, chartId))
    requires forall a | a in accounts && a != id :: a in after && SameIdentity(accounts[a], after[a])
    ensures OnlyDerivedDiffers(e, after[id])
    ensures if MapsToOldSelf(after[id], accounts, id, chartId) then Carries(after[id], SourceOf(accounts[id]))
            else
              DerivesOr(after[id], after, chartId,
                        if Drops(e, given, given.nameGiven) then None else e.consName,
                        if Drops(e, given, given.descriptionGiven) then None else e.consDescription)
  {
    if chartId.Some? {
      SourcesAre(accounts, chartId.value);
    }
    if MapsToOldSelf(after[id], accounts, id, chartId) {
      SourceAt(accounts, chartId.value, id);
    } else if e.consNumber.Some? && FindSource(e, chartId, KnownTo(accounts, chartId)).Some? {
      FoundIsThere(e, given, accounts, chartId, id, after);
    }
    CarriesItsSource(after, chartId, id);
  }

  /** In a table in line an account carries the columns of every account it maps to. */
  lemma CarriesItsSource(after: Accounts, chartId: Option<ChartId>, id: AccountId)
    requires id in after && (chartId.Some? ==> InLine(after, chartId.value))
    ensures forall s | s in after && chartId == Some(after[s].coaId) && after[id].consNumber == Some(after[s].number) ::
              after[id].consName == Some(after[s].name) && after[id].consDescription == after[s].description
  {
    forall s | s in after && chartId == Some(after[s].coaId) && after[id].consNumber == Some(after[s].number)
      ensures after[id].consName == Some(after[s].name) && after[id].consDescription == after[s].description
    {
      assert MapsTo(after[id], after[s]);
    }
  }

  /** The account a row derives from is one the table has afterwards. */
  lemma FoundIsThere(e: Account, given: GivenFields, accounts: Accounts, chartId: Option<ChartId>, id: AccountId,
                     after: Accounts)
    requires UniqueNumbers(accounts) && id in after
    requires after[id] == Derived(e, given, chartId, KnownTo(accounts, chartId))
    requires forall a | a in accounts && a != id :: a in after && SameIdentity(accounts[a], after[a])
    requires e.consNumber.Some? && FindSource(e, chartId, KnownTo(accounts, chartId)).Some?
    requires !MapsToOldSelf(after[id], accounts, id, chartId)
    ensures exists s :: s in after && chartId == Some(after[s].coaId) && after[id].consNumber == Some(after[s].number)
  {
    if IsIn(e, chartId) && e.number == e.consNumber.value {
      assert chartId == Some(after[id].coaId);
    } else {
      SourcesAre(accounts, chartId.value);
      var s :| s in accounts && accounts[s].coaId == chartId.value && accounts[s].number == e.consNumber.value;
      assert s in after;
    }
  }

  /** A saved row is stored as it is; of the others exactly those mapped to a number of `from` point at it. */
  lemma FollowReaches(accounts: Accounts, id: AccountId, row: Account, from: set<int>)
    ensures var after := Follow(accounts[id := row], id, from);
            && after.Keys == accounts.Keys + {id} && after[id] == row
            && (forall a | a in accounts && a != id :: SameIdentity(accounts[a], after[a]))
            && (forall a | a in accounts && a != id ::
                  if accounts[a].consNumber.Some? && accounts[a].consNumber.value in from
                  then PointsTo(after[a], accounts[a], row) else after[a] == accounts[a])
  {
  }

  lemma DerivedKeepsIdentity(e: Account, given: GivenFields, chartId: Option<ChartId>, known: map<int, Source>)
    ensures OnlyDerivedDiffers(e, Derived(e, given, chartId, known))
  {
  }

  /** What a create stores: the columns sent, and none for those left out. */
  lemma CreateStores(charts: set<ChartId>, accounts: Accounts, chartId: Option<ChartId>, id: AccountId,
                     body: AccountBody, after: Accounts)
    requires Consistent(charts, accounts, chartId) && id !in accounts
    requires Create(charts, accounts, chartId, id, body) == Ok(after)
    ensures after.Keys == accounts.Keys + {id}
    ensures body.coaId == Given(Some(after[id].coaId)) && body.number == Given(Some(after[id].number))
            && body.name == Given(Some(after[id].name))
    ensures after[id].description == if body.description.Given? then body.description.value else None
    ensures after[id].consNumber == if body.consNumber.Given? then body.consNumber.value else None
  {
    var row := CreatedRow(body, chartId, KnownTo(accounts, chartId)).value;
    var given := GivenFields(true, true, body.consName.Given?, body.consDescription.Given?);
    DerivedKeepsIdentity(CreatedEntity(body), given, chartId, KnownTo(accounts, chartId));
    FollowReaches(accounts, id, row, CreateFollowers(row, chartId));
    assert after[id] == row;
  }

  /**
   The consolidation columns a create stores: those of the consolidation account when there is one, otherwise
   what was sent; none for a row without a number.
   */
  lemma CreateDerives(charts: set<ChartId>, accounts: Accounts, chartId: Option<ChartId>, id: AccountId,
                      body: AccountBody, after: Accounts)
    requires Consistent(charts, accounts, chartId) && id !in accounts
    requires Create(charts, accounts, chartId, id, body) == Ok(after)
    ensures id in after
    ensures if after[id].consNumber.None? then after[id].consName.None? && after[id].consDescription.None?
            else
              DerivesOr(after[id], after, chartId,
                        if body.consName.Given? then body.consName.value else None,
                        if body.consDescription.Given? then body.consDescription.value else None)
  {
    CreateKeepsConsistent(charts, accounts, chartId, id, body);
    var given := GivenFields(true, true, body.consName.Given?, body.consDescription.Given?);
    var row := CreatedRow(body, chartId, KnownTo(accounts, chartId)).value;
    FollowReaches(accounts, id, row, CreateFollowers(row, chartId));
    DerivedStores(CreatedEntity(body), given, accounts, chartId, id, after, charts);
  }

  /** The other accounts after a create: exactly those mapped to a new account of the chart point at it. */
  lemma CreateMovesFollowers(charts: set<ChartId>, accounts: Accounts, chartId: Option<ChartId>, id: AccountId,
                             body: AccountBody, after: Accounts)
    requires Consistent(charts, accounts, chartId) && id !in accounts
    requires Create(charts, accounts, chartId, id, body) == Ok(after)
    ensures after.Keys == accounts.Keys + {id}
    ensures forall a | a in accounts ::
              if chartId == Some(after[id].coaId) && accounts[a].consNumber == Some(after[id].number)
              then PointsTo(after[a], accounts[a], after[id]) else after[a] == accounts[a]
  {
    var row := CreatedRow(body, chartId, KnownTo(accounts, chartId)).value;
    var from := CreateFollowers(row, chartId);
    FollowReaches(accounts, id, row, from);
    assert after == Follow(accounts[id := row], id, from);
    assert forall n :: n in from <==> IsIn(row, chartId) && n == row.number;
  }

  /**
   What an update stores: the columns sent, the stored ones for those left out; a self-reference follows its
   renumbering within the chart.
   */
  lemma UpdateStores(charts: set<ChartId>, accounts: Accounts, chartId: Option<ChartId>, id: AccountId,
                     body: AccountBody, after: Accounts)
    requires Consistent(charts, accounts, chartId) && Update(charts, accounts, chartId, id, body) == Ok(after)
    ensures after.Keys == accounts.Keys
    ensures if body.coaId.Given? then body.coaId.value == Some(after[id].coaId)
            else after[id].coaId == accounts[id].coaId
    ensures if HasValue(body.number) then body.number.value == Some(after[id].number)
            else after[id].number == accounts[id].number
    ensures if body.name.Given? then body.name.value == Some(after[id].name) else after[id].name == accounts[id].name
    ensures after[id].description
            == if body.description.Given? then body.description.value else accounts[id].description
    ensures var before := accounts[id];
            after[id].consNumber
            == if body.consNumber.Absent? && before.consNumber == Some(before.number)
                  && chartId == Some(before.coaId) && chartId == Some(after[id].coaId)
               then Some(after[id].number)
               else if body.consNumber.Given? then body.consNumber.value else before.consNumber
  {
    var row := UpdatedRow(accounts[id], body, chartId, KnownTo(accounts, chartId)).value;
    var e := SelfFollowed(accounts[id], Assigned(accounts[id], body).value, body, chartId);
    DerivedKeepsIdentity(e, UpdateFlags(accounts[id], e, body), chartId, KnownTo(accounts, chartId));
    FollowReaches(accounts, id, row, Followers(accounts[id], row, chartId));
    assert after[id] == row;
  }

  /**
   The consolidation columns an update stores: those of the consolidation account when there is one; otherwise
   what was sent, or what was stored for an unchanged number; none when the number is set to null.  One case
   is the exception: a row mapped to the place in the chart it leaves itself takes its own old name and
   description, whatever was sent.
   */
  lemma UpdateDerives(charts: set<ChartId>, accounts: Accounts, chartId: Option<ChartId>, id: AccountId,
                      body: AccountBody, after: Accounts)
    requires Consistent(charts, accounts, chartId) && Update(charts, accounts, chartId, id, body) == Ok(after)
    ensures id in accounts && id in after
    ensures var before, row := accounts[id], after[id];
            if MapsToOldSelf(row, accounts, id, chartId) then
              row.consName == Some(before.name) && row.consDescription == before.description
            else if body.consNumber == Given(None) then row.consName.None? && row.consDescription.None?
            else
              var same := row.consNumber == before.consNumber;
              DerivesOr(row, after, chartId,
                        if body.consName.Given? then body.consName.value
                        else if same then before.consName else None,
                        if body.consDescription.Given? then body.consDescription.value
                        else if same then before.consDescription else None)
  {
    UpdateKeepsConsistent(charts, accounts, chartId, id, body);
    var e := SelfFollowed(accounts[id], Assigned(accounts[id], body).value, body, chartId);
    var row := UpdatedRow(accounts[id], body, chartId, KnownTo(accounts, chartId)).value;
    FollowReaches(accounts, id, row, Followers(accounts[id], row, chartId));
    DerivedStores(e, UpdateFlags(accounts[id], e, body), accounts, chartId, id, after, charts);
  }

  /**
   The other accounts after an update: exactly those mapped to the old or the new place in the chart of an
   account that is in it afterwards point at it; all others are as they were.
   */
  lemma UpdateMovesFollowers(charts: set<ChartId>, accounts: Accounts, chartId: Option<ChartId>, id: AccountId,
                             body: AccountBody, after: Accounts)
    requires Consistent(charts, accounts, chartId) && Update(charts, accounts, chartId, id, body) == Ok(after)
    ensures after.Keys == accounts.Keys
    ensures forall a | a in accounts && a != id ::
              if chartId == Some(after[id].coaId)
                 && (accounts[a].consNumber == Some(after[id].number)
                     || (chartId == Some(accounts[id].coaId) && accounts[a].consNumber == Some(accounts[id].number)))
              then PointsTo(after[a], accounts[a], after[id]) else after[a] == accounts[a]
  {
    UpdateKeepsConsistent(charts, accounts, chartId, id, body);
    forall a | a in accounts && a != id && chartId == Some(after[id].coaId) && chartId == Some(accounts[id].coaId)
               && accounts[a].consNumber == Some(accounts[id].number)
      ensures Carries(accounts[a], SourceOf(accounts[id]))
    {
      assert MapsTo(accounts[a], accounts[id]);
    }
  }

  /** The exception does come up: account 512 moves to 600 and maps to 512, and the name sent is lost. */
  lemma OwnOldNumberKeepsOldName(after: Accounts)
    requires var bank := Account(1, 512, "Bank", None, None, None, None);
             var body := AccountBody(Absent, Given(Some(600)), Absent, Absent, Given(Some(512)), Given(Some("Cash")),
                                     Absent);
             UniqueNumbers(map[7 := bank]) && Update({1}, map[7 := bank], Some(1), 7, body) == Ok(after)
    ensures after == map[7 := Account(1, 600, "Bank", None, Some(512), Some("Bank"), None)]
  {
    var bank := Account(1, 512, "Bank", None, None, None, None);
    SourceAt(map[7 := bank], 1, 7);
  }
}
