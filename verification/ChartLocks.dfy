/**
 The chart row locks of `backend/src/accounts/consolidation.ts` as steps.  An account write locks every
 chart it saw FOR SHARE, in id order, and derives from the one that held the role when its row was
 locked; role changes, updates and deletes lock them FOR NO KEY UPDATE, in the same order, and may then
 still wait for a chart they write and did not see; clearing the role locks one chart; creating a chart
 does not lock the others.  Steps of different transactions interleave freely.
 */
module ChartLocks {
  import opened Wrappers

  type ChartId = nat
  type TxId = nat

  datatype Work =
    | AccountWrite
    | AssignRole(target: ChartId)
    | ClearRole(target: ChartId)
    | UpdateChart(writes: set<ChartId>)
    | DeleteChart(target: ChartId)

  /** The chart a request names. */
  function Named(work: Work): set<ChartId> {
    match work
    case AssignRole(c) => {c}
    case ClearRole(c) => {c}
    case DeleteChart(c) => {c}
    case _ => {}
  }

  /**
   An open transaction: the charts its locking statement saw, those it has still to lock, those it has
   locked, and the locked row that held the role.
   */
  datatype Tx = Tx(work: Work, snapshot: set<ChartId>, todo: seq<ChartId>, held: set<ChartId>, derived: Option<ChartId>)

  /** `used`: every id a chart ever had; an id is never given twice. */
  datatype State = State(charts: set<ChartId>, used: set<ChartId>, holder: Option<ChartId>, txs: map<TxId, Tx>)

  datatype Step =
    | CreateChart(chart: ChartId)
    | Begin(t: TxId, work: Work, order: seq<ChartId>)
    | LockNext(t: TxId)
    | Act(t: TxId)
    | Finish(t: TxId)

  predicate Shares(tx: Tx) {
    tx.work == AccountWrite
  }

  /** Another transaction holds this chart in a conflicting mode. */
  predicate Blocked(s: State, t: TxId, c: ChartId)
    requires t in s.txs
  {
    exists u :: u in s.txs && u != t && c in s.txs[u].held && !(Shares(s.txs[t]) && Shares(s.txs[u]))
  }

  ghost predicate Ascending(order: seq<ChartId>) {
    forall i, j | 0 <= i < j < |order| :: order[i] < order[j]
  }

  /** The charts a locking statement takes: all it sees, in id order; clearing the role takes one. */
  ghost predicate Orders(order: seq<ChartId>, work: Work, charts: set<ChartId>) {
    if work.ClearRole? then order == if work.target in charts then [work.target] else []
    else Ascending(order) && (set c | c in order) == charts
  }

  /**
   The charts an acting transaction writes, whose rows it must have to itself.  A role change reads the
   holder when it acts; one whose chart is gone, or has the role already, writes nothing.
   */
  function Written(s: State, work: Work): set<ChartId> {
    match work
    case AccountWrite => {}
    case UpdateChart(writes) => writes
    case AssignRole(c) =>
      if c !in s.charts || s.holder == Some(c) then {}
      else {c} + (if s.holder.Some? then {s.holder.value} else {})
    case ClearRole(c) => if s.holder == Some(c) then {c} else {}
    case DeleteChart(c) => {c}
  }

  /** Acting ends the transaction: the writes become visible with its commit. */
  function Acted(s: State, t: TxId): State
    requires t in s.txs
  {
    var open := s.(txs := s.txs - {t});
    match s.txs[t].work
    case AccountWrite => open
    case UpdateChart(_) => open
    case AssignRole(c) => if c in s.charts then open.(holder := Some(c)) else open
    case ClearRole(c) => if s.holder == Some(c) then open.(holder := None) else open
    case DeleteChart(c) => open.(charts := s.charts - {c}, holder := if s.holder == Some(c) then None else s.holder)
  }

  /** The next chart of a locking transaction is locked; one deleted meanwhile is no longer there to lock. */
  function Locked(s: State, t: TxId): State
    requires t in s.txs && s.txs[t].todo != []
  {
    var tx := s.txs[t];
    var c := tx.todo[0];
    var rest := tx.(todo := tx.todo[1..]);
    s.(txs := s.txs[t :=
      if c !in s.charts then rest
      else rest.(held := tx.held + {c}, derived := if s.holder == Some(c) then Some(c) else tx.derived)])
  }

  ghost predicate Enabled(s: State, step: Step) {
    match step
    case CreateChart(c) => c !in s.used
    // A request names a chart by an id that was given to some chart before.
    case Begin(t, work, order) => t !in s.txs && Orders(order, work, s.charts) && Named(work) <= s.used
    case LockNext(t) =>
      && t in s.txs && s.txs[t].todo != []
      && !(s.txs[t].todo[0] in s.charts && Blocked(s, t, s.txs[t].todo[0]))
    case Act(t) =>
      t in s.txs && s.txs[t].todo == [] && forall c | c in Written(s, s.txs[t].work) :: !Blocked(s, t, c)
    case Finish(t) => t in s.txs
  }

  ghost function Next(s: State, step: Step): State
    requires Enabled(s, step)
  {
    match step
    case CreateChart(c) => s.(charts := s.charts + {c}, used := s.used + {c})
    case Begin(t, work, order) => s.(txs := s.txs[t := Tx(work, s.charts, order, {}, None)])
    case LockNext(t) => Locked(s, t)
    case Act(t) => Acted(s, t)
    case Finish(t) => s.(txs := s.txs - {t})
  }

  /** The charts whose rows an acting transaction changes, as far as the role goes, or takes away. */
  ghost predicate Changes(s: State, after: State, c: ChartId) {
    (c in s.charts && c !in after.charts) || (c in after.charts && (s.holder == Some(c)) != (after.holder == Some(c)))
  }

  /**
   What an acting transaction writes: the charts an update names and the chart a delete names, and otherwise
   exactly the charts that gain or lose the role.
   */
  lemma WritesWhatChanges(s: State, t: TxId)
    requires Inv(s) && Enabled(s, Act(t))
    ensures var work, after := s.txs[t].work, Next(s, Act(t));
            && (work.UpdateChart? ==> Written(s, work) == work.writes)
            && (work.DeleteChart? ==> Written(s, work) == {work.target} && after.charts == s.charts - {work.target})
            && (!work.UpdateChart? && !work.DeleteChart? ==>
                  after.charts == s.charts && forall c :: c in Written(s, work) <==> Changes(s, after, c))
            && (forall c | Changes(s, after, c) :: c in Written(s, work))
  {
  }

  ghost predicate Initial(s: State) {
    s.charts <= s.used && s.txs == map[] && (s.holder.Some? ==> s.holder.value in s.charts)
  }

  ghost predicate Leads(from: State, steps: seq<Step>, to: State)
    decreases |steps|
  {
    if steps == [] then to == from
    else Enabled(from, steps[0]) && Leads(Next(from, steps[0]), steps[1..], to)
  }

  // ----- What every step keeps -----

  /**
   One transaction: it locks in id order what it saw, and what it saw, locks and still exists is locked
   or still to lock.
   */
  ghost predicate TxValid(s: State, tx: Tx) {
    && tx.held <= s.charts && tx.held <= tx.snapshot <= s.used
    && Named(tx.work) <= s.used && Named(tx.work) * s.charts <= tx.snapshot
    && Ascending(tx.todo)
    && (forall i | 0 <= i < |tx.todo| :: tx.todo[i] in tx.snapshot)
    && (tx.work.ClearRole? ==> tx.todo == [] || (tx.todo == [tx.work.target] && tx.held == {}))
    && (forall c, i | c in tx.held && 0 <= i < |tx.todo| :: c < tx.todo[i])
    && (forall c | c in tx.snapshot * s.charts && (tx.work.ClearRole? ==> c == tx.work.target) ::
          c in tx.held || c in tx.todo)
  }

  /** An account write knows the role of every row it holds. */
  ghost predicate KnowsRole(s: State, tx: Tx) {
    Shares(tx) ==>
      && (tx.derived.Some? ==> tx.derived == s.holder && tx.derived.value in tx.held)
      && (s.holder.Some? && s.holder.value in tx.held ==> tx.derived == s.holder)
  }

  ghost predicate Compatible(s: State) {
    forall t, u, c | t in s.txs && u in s.txs && t != u && c in s.txs[t].held && c in s.txs[u].held ::
      Shares(s.txs[t]) && Shares(s.txs[u])
  }

  /** Of two transactions, the one that began later saw every chart the other saw and that still exists. */
  ghost predicate SeeInOrder(s: State) {
    forall t, u | t in s.txs && u in s.txs :: SeesAlso(s, s.txs[t], s.txs[u]) || SeesAlso(s, s.txs[u], s.txs[t])
  }

  ghost predicate SeesAlso(s: State, tx: Tx, other: Tx) {
    other.snapshot * s.charts <= tx.snapshot
  }

  ghost predicate Inv(s: State) {
    && s.charts <= s.used && (s.holder.Some? ==> s.holder.value in s.charts)
    && (forall t | t in s.txs :: TxValid(s, s.txs[t]) && KnowsRole(s, s.txs[t]))
    && Compatible(s) && SeeInOrder(s)
  }

  lemma LockKeepsTxValid(s: State, t: TxId)
    requires Inv(s) && Enabled(s, LockNext(t))
    ensures TxValid(Locked(s, t), Locked(s, t).txs[t]) && KnowsRole(Locked(s, t), Locked(s, t).txs[t])
  {
    var tx, c := s.txs[t], s.txs[t].todo[0];
    assert TxValid(s, tx) && KnowsRole(s, tx);
    var tx' := Locked(s, t).txs[t];
    assert forall i | 0 <= i < |tx'.todo| :: tx'.todo[i] == tx.todo[i + 1];
    forall d | d in tx'.snapshot * s.charts && (tx.work.ClearRole? ==> d == tx.work.target)
      ensures d in tx'.held || d in tx'.todo
    {
      if d !in tx.held && d != c {
        var i :| 0 <= i < |tx.todo| && tx.todo[i] == d;
        assert tx'.todo[i - 1] == d;
      }
    }
  }

  lemma LockKeepsCompatible(s: State, t: TxId)
    requires Inv(s) && Enabled(s, LockNext(t))
    ensures Compatible(Locked(s, t)) && SeeInOrder(Locked(s, t))
  {
    var c, after := s.txs[t].todo[0], Locked(s, t);
    forall u, v, d | u in after.txs && v in after.txs && u != v && d in after.txs[u].held && d in after.txs[v].held
      ensures Shares(after.txs[u]) && Shares(after.txs[v])
    {
      if d !in s.txs[u].held {
        assert u == t && d == c && !Blocked(s, t, c);
      } else if d !in s.txs[v].held {
        assert v == t && d == c && !Blocked(s, t, c);
      }
    }
    forall u, v | u in after.txs && v in after.txs
      ensures SeesAlso(after, after.txs[u], after.txs[v]) || SeesAlso(after, after.txs[v], after.txs[u])
    {
      assert SeesAlso(s, s.txs[u], s.txs[v]) || SeesAlso(s, s.txs[v], s.txs[u]);
    }
  }

  lemma LockKeepsInv(s: State, t: TxId)
    requires Inv(s) && Enabled(s, LockNext(t))
    ensures Inv(Locked(s, t))
  {
    LockKeepsTxValid(s, t);
    LockKeepsCompatible(s, t);
    forall u | u in s.txs && u != t
      ensures TxValid(Locked(s, t), Locked(s, t).txs[u]) && KnowsRole(Locked(s, t), Locked(s, t).txs[u])
    {
      assert TxValid(s, s.txs[u]) && KnowsRole(s, s.txs[u]);
    }
  }

  lemma ActKeepsInv(s: State, t: TxId)
    requires Inv(s) && Enabled(s, Act(t))
    ensures Inv(Acted(s, t))
  {
    var after := Acted(s, t);
    forall w | w in after.txs
      ensures TxValid(after, after.txs[w]) && KnowsRole(after, after.txs[w])
    {
      assert after.txs[w] == s.txs[w];
      forall c | c in Written(s, s.txs[t].work)
        ensures c !in s.txs[w].held || (Shares(s.txs[t]) && Shares(s.txs[w]))
      {
        assert !Blocked(s, t, c);
      }
    }
    KeptSight(s, after);
  }

  lemma StepKeepsInv(s: State, step: Step)
    requires Inv(s) && Enabled(s, step)
    ensures Inv(Next(s, step))
  {
    match step
    case CreateChart(c) => CreateKeepsInv(s, c);
    case Begin(t, work, order) =>
      BegunTxIsValid(s, t, work, order);
      BeginKeepsSight(s, t, work, order);
    case LockNext(t) => LockKeepsInv(s, t);
    case Act(t) => ActKeepsInv(s, t);
    case Finish(t) => FinishKeepsInv(s, t);
  }

  lemma CreateKeepsInv(s: State, c: ChartId)
    requires Inv(s) && c !in s.used
    ensures Inv(Next(s, CreateChart(c)))
  {
    var after := Next(s, CreateChart(c));
    forall t | t in after.txs
      ensures TxValid(after, after.txs[t]) && KnowsRole(after, after.txs[t])
    {
      assert TxValid(s, s.txs[t]) && KnowsRole(s, s.txs[t]);
    }
    forall t, u | t in after.txs && u in after.txs
      ensures SeesAlso(after, after.txs[t], after.txs[u]) || SeesAlso(after, after.txs[u], after.txs[t])
    {
      assert TxValid(s, s.txs[t]) && TxValid(s, s.txs[u]);
      assert SeesAlso(s, s.txs[t], s.txs[u]) || SeesAlso(s, s.txs[u], s.txs[t]);
    }
  }

  lemma BegunTxIsValid(s: State, t: TxId, work: Work, order: seq<ChartId>)
    requires Inv(s) && Enabled(s, Begin(t, work, order))
    ensures TxValid(s, Tx(work, s.charts, order, {}, None))
  {
    var listed := set d | d in order;
    forall i | 0 <= i < |order|
      ensures order[i] in s.charts
    {
      assert order[i] in listed;
    }
    forall c | c in s.charts && (work.ClearRole? ==> c == work.target)
      ensures c in order
    {
      assert c in listed;
    }
  }

  lemma BeginKeepsSight(s: State, t: TxId, work: Work, order: seq<ChartId>)
    requires Inv(s) && Enabled(s, Begin(t, work, order))
    ensures SeeInOrder(Next(s, Begin(t, work, order)))
  {
    var after := Next(s, Begin(t, work, order));
    forall u, w | u in after.txs && w in after.txs
      ensures SeesAlso(after, after.txs[u], after.txs[w]) || SeesAlso(after, after.txs[w], after.txs[u])
    {
      if u != t && w != t {
        assert SeesAlso(s, s.txs[u], s.txs[w]) || SeesAlso(s, s.txs[w], s.txs[u]);
      }
    }
  }

  lemma FinishKeepsInv(s: State, t: TxId)
    requires Inv(s) && t in s.txs
    ensures Inv(Next(s, Finish(t)))
  {
    var after := Next(s, Finish(t));
    forall u | u in after.txs
      ensures TxValid(after, after.txs[u]) && KnowsRole(after, after.txs[u])
    {
      assert TxValid(s, s.txs[u]) && KnowsRole(s, s.txs[u]);
    }
    KeptSight(s, after);
  }

  /** Fewer transactions and charts leave the others in order. */
  lemma KeptSight(s: State, after: State)
    requires SeeInOrder(s) && after.charts <= s.charts
    requires forall u | u in after.txs :: u in s.txs && after.txs[u] == s.txs[u]
    ensures SeeInOrder(after)
  {
    forall u, w | u in after.txs && w in after.txs
      ensures SeesAlso(after, after.txs[u], after.txs[w]) || SeesAlso(after, after.txs[w], after.txs[u])
    {
      assert SeesAlso(s, s.txs[u], s.txs[w]) || SeesAlso(s, s.txs[w], s.txs[u]);
    }
  }

  lemma {:induction false} RunKeepsInv(from: State, steps: seq<Step>, to: State)
    requires Inv(from) && Leads(from, steps, to)
    ensures Inv(to)
    decreases |steps|
  {
    if steps != [] {
      StepKeepsInv(from, steps[0]);
      RunKeepsInv(Next(from, steps[0]), steps[1..], to);
    }
  }

  // ----- Account writes against role changes -----

  /** An account write that has its locks: from here to its commit it derives from `derived`. */
  predicate HasLocks(s: State, w: TxId) {
    w in s.txs && Shares(s.txs[w]) && s.txs[w].todo == []
  }

  /**
   While an account write is open, in every reachable state: the chart it derives from holds the role.
   When it found none, there is still none, except for a chart created after its locking statement.
   So it derives from the current role exactly when the holder, if any, is a chart its statement saw.
   */
  lemma DerivedIsCurrent(from: State, steps: seq<Step>, s: State, w: TxId)
    requires Initial(from) && Leads(from, steps, s) && HasLocks(s, w)
    ensures s.txs[w].derived.Some? ==> s.txs[w].derived == s.holder
    ensures s.txs[w].derived == s.holder <==> (s.holder.Some? ==> s.holder.value in s.txs[w].snapshot)
    ensures s.charts <= s.txs[w].snapshot ==> s.txs[w].derived == s.holder
  {
    RunKeepsInv(from, steps, s);
    assert TxValid(s, s.txs[w]) && KnowsRole(s, s.txs[w]);
  }

  lemma HeldLockFreezesRole(s: State, step: Step, w: TxId)
    requires Inv(s) && HasLocks(s, w) && s.txs[w].held != {} && s.txs[w].derived == s.holder
    requires Enabled(s, step) && step != Act(w) && step != Finish(w)
    ensures HasLocks(Next(s, step), w) && Next(s, step).txs[w] == s.txs[w]
    ensures Next(s, step).holder == s.holder
  {
    if step.Act? {
      ActorMovesNoRole(s, step.t, w);
    }
  }

  /** Whoever acts beside an account write that holds a chart leaves the role where it is. */
  lemma ActorMovesNoRole(s: State, t: TxId, w: TxId)
    requires Inv(s) && HasLocks(s, w) && s.txs[w].held != {} && s.txs[w].derived == s.holder
    requires Enabled(s, Act(t)) && t != w
    ensures Acted(s, t).holder == s.holder
  {
    var c :| c in s.txs[w].held;
    forall d | d in Written(s, s.txs[t].work)
      ensures d !in s.txs[w].held || Shares(s.txs[t])
    {
      assert !Blocked(s, t, d);
    }
    assert TxValid(s, s.txs[w]) && TxValid(s, s.txs[t]);
    assert SeesAlso(s, s.txs[t], s.txs[w]) || SeesAlso(s, s.txs[w], s.txs[t]);
    assert c in s.txs[w].snapshot && c in s.charts;
  }

  /**
   Once an account write that read the current role holds a single chart, no interleaving of other
   transactions makes what it derives from wrong before it ends: the role it read cannot be taken, and
   cannot be given either.
   */
  lemma DerivedStaysCurrentUntilCommit(from: State, before: seq<Step>, s: State, steps: seq<Step>, to: State, w: TxId)
    requires Initial(from) && Leads(from, before, s)
    requires HasLocks(s, w) && s.txs[w].held != {} && s.txs[w].derived == s.holder
    requires Leads(s, steps, to) && forall i | 0 <= i < |steps| :: steps[i] != Act(w) && steps[i] != Finish(w)
    ensures HasLocks(to, w) && to.txs[w] == s.txs[w] && to.txs[w].derived == to.holder
  {
    RunKeepsInv(from, before, s);
    RoleFrozen(s, steps, to, w);
  }

  lemma {:induction false} RoleFrozen(s: State, steps: seq<Step>, to: State, w: TxId)
    requires Inv(s) && HasLocks(s, w) && s.txs[w].held != {} && s.txs[w].derived == s.holder
    requires Leads(s, steps, to) && forall i | 0 <= i < |steps| :: steps[i] != Act(w) && steps[i] != Finish(w)
    ensures HasLocks(to, w) && to.txs[w] == s.txs[w] && to.txs[w].derived == to.holder
    decreases |steps|
  {
    if steps != [] {
      HeldLockFreezesRole(s, steps[0], w);
      StepKeepsInv(s, steps[0]);
      RoleFrozen(Next(s, steps[0]), steps[1..], to, w);
    }
  }

  /**
   The exception is real: with no chart to lock, nothing holds off the first chart's creation and its
   role.  The write derives from no chart while the tenant has a consolidation chart.
   */
  lemma WithoutChartsTheRoleCanAppear() returns (steps: seq<Step>, s: State)
    ensures Leads(State({}, {}, None, map[]), steps, s) && HasLocks(s, 0)
    ensures s.txs[0].derived == None && s.holder == Some(7)
  {
    var s0 := State({}, {}, None, map[]);
    var s1 := Next(s0, Begin(0, AccountWrite, []));
    var s2 := Next(s1, CreateChart(7));
    assert (set c | c in [7]) == {7};
    var s3 := Next(s2, Begin(1, AssignRole(7), [7]));
    var s4 := Next(s3, LockNext(1));
    s := Next(s4, Act(1));
    steps := [Act(1)];
    steps := LedFrom(s3, LockNext(1), steps, s);
    steps := LedFrom(s2, Begin(1, AssignRole(7), [7]), steps, s);
    steps := LedFrom(s1, CreateChart(7), steps, s);
    steps := LedFrom(s0, Begin(0, AccountWrite, []), steps, s);
  }

  /**
   So is it with a chart locked: a write that holds one derives from no chart while the role is at a chart
   its locking statement never saw.
   */
  lemma HeldLocksMissANewChart() returns (steps: seq<Step>, s: State)
    ensures Leads(State({5}, {5}, None, map[]), steps, s) && HasLocks(s, 0)
    ensures s.txs[0].held == {5} && s.txs[0].derived == None && s.holder == Some(7)
  {
    var s0 := State({5}, {5}, None, map[]);
    assert (set c | c in [5]) == {5} && (set c | c in [5, 7]) == {5, 7};
    var s1 := Next(s0, Begin(0, AccountWrite, [5]));
    var given;
    steps, given := RoleGoesToNewChart(s1, s1.txs[0], 7, [5, 7]);
    s := Next(given, LockNext(0));
    var last := LedFrom(given, LockNext(0), [], s);
    RunsJoin(s1, steps, given, last, s);
    steps := LedFrom(s0, Begin(0, AccountWrite, [5]), steps + last, s);
  }

  /** While transaction 0 has yet to lock chart 5, another chart is created and given the role. */
  lemma RoleGoesToNewChart(before: State, waiting: Tx, c: ChartId, order: seq<ChartId>)
    returns (steps: seq<Step>, given: State)
    requires before == State({5}, {5}, None, map[0 := waiting]) && waiting.held == {}
    requires c != 5 && |order| == 2 && Ascending(order) && (set d | d in order) == {5, c}
    ensures Leads(before, steps, given)
    ensures given == State({5, c}, {5, c}, Some(c), map[0 := waiting])
  {
    var created := Next(before, CreateChart(c));
    var begun := Next(created, Begin(1, AssignRole(c), order));
    assert order[0] in {5, c} && order[1] in {5, c};
    steps, given := LocksTwoAndGives(begun, waiting, c, order);
    steps := LedFrom(created, Begin(1, AssignRole(c), order), steps, given);
    steps := LedFrom(before, CreateChart(c), steps, given);
  }

  lemma LocksTwoAndGives(begun: State, waiting: Tx, c: ChartId, order: seq<ChartId>)
    returns (steps: seq<Step>, given: State)
    requires waiting.held == {} && |order| == 2 && order[0] in {5, c} && order[1] in {5, c}
    requires begun
          == State({5, c}, {5, c}, None, map[0 := waiting, 1 := Tx(AssignRole(c), {5, c}, order, {}, None)])
    ensures Leads(begun, steps, given)
    ensures given == State({5, c}, {5, c}, Some(c), map[0 := waiting])
  {
    var first := Next(begun, LockNext(1));
    var second := Next(first, LockNext(1));
    given := Next(second, Act(1));
    steps := LedFrom(second, Act(1), [], given);
    steps := LedFrom(first, LockNext(1), steps, given);
    steps := LedFrom(begun, LockNext(1), steps, given);
  }

  lemma LedFrom(from: State, step: Step, rest: seq<Step>, to: State) returns (steps: seq<Step>)
    requires Enabled(from, step) && Leads(Next(from, step), rest, to)
    ensures steps == [step] + rest && Leads(from, steps, to)
  {
    steps := [step] + rest;
    assert steps[1..] == rest;
  }

  lemma {:induction false} RunsJoin(from: State, steps: seq<Step>, middle: State, more: seq<Step>, to: State)
    requires Leads(from, steps, middle) && Leads(middle, more, to)
    ensures Leads(from, steps + more, to)
    decreases |steps|
  {
    if steps == [] {
      assert steps + more == more;
    } else {
      RunsJoin(Next(from, steps[0]), steps[1..], middle, more, to);
      assert (steps + more)[1..] == steps[1..] + more;
    }
  }

  // ----- Waiting in a circle -----

  /** The charts `t` needs next: the one to lock, or, with all its locks, those it writes. */
  function Needs(s: State, tx: Tx): set<ChartId> {
    if tx.todo != [] then {tx.todo[0]} * s.charts else Written(s, tx.work)
  }

  /** `t` waits for `u`: `u` holds, in a conflicting mode, a chart `t` needs next. */
  predicate WaitsFor(s: State, t: TxId, u: TxId) {
    && t in s.txs && u in s.txs && t != u
    && Needs(s, s.txs[t]) * s.txs[u].held != {}
    && !(Shares(s.txs[t]) && Shares(s.txs[u]))
  }

  /** Waiting, at a lock or at a write, is exactly what keeps a transaction from its next step. */
  lemma WaitsExactlyWhenBlocked(s: State, t: TxId)
    requires t in s.txs
    ensures Enabled(s, if s.txs[t].todo != [] then LockNext(t) else Act(t)) <==> forall u :: !WaitsFor(s, t, u)
  {
    var needs := Needs(s, s.txs[t]);
    if c :| c in needs && Blocked(s, t, c) {
      var u :| u in s.txs && u != t && c in s.txs[u].held && !(Shares(s.txs[t]) && Shares(s.txs[u]));
      assert c in needs * s.txs[u].held;
      assert WaitsFor(s, t, u);
    }
    if u :| WaitsFor(s, t, u) {
      var c :| c in needs * s.txs[u].held;
      assert Blocked(s, t, c);
    }
  }

  ghost predicate WaitsWithin(s: State, t: TxId, group: set<TxId>) {
    exists u :: u in group && WaitsFor(s, t, u)
  }

  /** Each of the group waits for one of the group. */
  ghost predicate InCircle(s: State, group: set<TxId>) {
    group != {} && forall t {:trigger WaitsWithin(s, t, group)} | t in group :: WaitsWithin(s, t, group)
  }

  /**
   `t` has its locks and is about to write chart `c`, which its locking statement did not see and whose
   id is smaller than that of every chart it holds.
   */
  ghost predicate WritesUnseen(s: State, t: TxId, c: ChartId) {
    && t in s.txs && s.txs[t].todo == [] && s.txs[t].held != {}
    && c in Written(s, s.txs[t].work) * s.charts && c !in s.txs[t].snapshot
    && forall d | d in s.txs[t].held :: c < d
  }

  /** With its locks, a transaction waits only for a chart its locking statement did not see. */
  lemma WaitingWriterHasNotSeen(s: State, t: TxId, u: TxId) returns (c: ChartId)
    requires Inv(s) && WaitsFor(s, t, u) && s.txs[t].todo == []
    ensures c in Written(s, s.txs[t].work) * s.charts && c in s.txs[u].held && c !in s.txs[t].snapshot
    ensures !s.txs[t].work.ClearRole?
  {
    c :| c in Written(s, s.txs[t].work) * s.txs[u].held;
    assert TxValid(s, s.txs[t]) && TxValid(s, s.txs[u]);
  }

  /**
   Who holds a chart `t` did not see began after `t`, saw every chart `t` holds, and so has still to lock
   them: they all come later in id order.
   */
  lemma UnseenIsLower(s: State, t: TxId, u: TxId, c: ChartId)
    requires Inv(s) && t in s.txs && u in s.txs && t != u && !Shares(s.txs[t])
    requires c in s.txs[u].held && c !in s.txs[t].snapshot && !s.txs[u].work.ClearRole?
    ensures forall d | d in s.txs[t].held :: d in s.txs[u].todo && c < d
  {
    assert TxValid(s, s.txs[t]) && TxValid(s, s.txs[u]);
    assert SeesAlso(s, s.txs[t], s.txs[u]) || SeesAlso(s, s.txs[u], s.txs[t]);
    forall d | d in s.txs[t].held
      ensures d in s.txs[u].todo && c < d
    {
      assert d in s.txs[u].snapshot;
    }
  }

  /** A transaction that clears a role locks one chart only, so it never holds a chart while it waits. */
  lemma ClearerHoldsNothing(s: State, u: TxId, v: TxId)
    requires Inv(s) && WaitsFor(s, u, v) && s.txs[u].work.ClearRole?
    ensures s.txs[u].held == {}
  {
    assert TxValid(s, s.txs[u]);
    if s.txs[u].todo == [] {
      var _ := WaitingWriterHasNotSeen(s, u, v);
    } else {
      assert s.txs[u].todo[0] == s.txs[u].work.target;
    }
  }

  lemma WaitedFor(s: State, group: set<TxId>, t: TxId) returns (u: TxId)
    requires InCircle(s, group) && t in group
    ensures u in group && WaitsFor(s, t, u)
  {
    assert WaitsWithin(s, t, group);
    u :| u in group && WaitsFor(s, t, u);
  }

  /** In a circle some member that has its locks holds a chart. */
  lemma SomeWriterHolds(s: State, group: set<TxId>, locking: set<TxId>) returns (t: TxId)
    requires Inv(s) && InCircle(s, group) && group <= s.txs.Keys
    requires locking == set u | u in group && s.txs[u].todo != []
    ensures t in group && s.txs[t].todo == [] && s.txs[t].held != {}
  {
    var waiting: TxId;
    if locking == {} {
      waiting :| waiting in group;
      t := WaitedFor(s, group, waiting);
      assert t !in locking;
    } else {
      waiting := LastToLock(s, locking);
      t := WaitedFor(s, group, waiting);
      if t in locking {
        LaterHolderLocksHigher(s, waiting, t);
      }
    }
  }

  /**
   In every reachable state: transactions wait for each other in a circle only when one of them, with
   its locks, is about to write a chart its locking statement did not see, with a smaller id than every
   chart it holds.  Waits for a lock and waits for a row to write both count.
   */
  lemma CircleNeedsUnseenWrite(from: State, steps: seq<Step>, s: State, group: set<TxId>)
    requires Initial(from) && Leads(from, steps, s) && InCircle(s, group)
    ensures exists t, c :: t in group && WritesUnseen(s, t, c)
  {
    RunKeepsInv(from, steps, s);
    forall t | t in group
      ensures t in s.txs
    {
      var _ := WaitedFor(s, group, t);
    }
    var t := SomeWriterHolds(s, group, set u | u in group && s.txs[u].todo != []);
    var u := WaitedFor(s, group, t);
    var v := WaitedFor(s, group, u);
    var c := WritesBelow(s, t, u, v);
  }

  /** A writer in a circle, and the two members after it. */
  lemma WritesBelow(s: State, t: TxId, u: TxId, v: TxId) returns (c: ChartId)
    requires Inv(s) && WaitsFor(s, t, u) && WaitsFor(s, u, v) && s.txs[t].todo == [] && s.txs[t].held != {}
    ensures WritesUnseen(s, t, c)
  {
    c := WaitingWriterHasNotSeen(s, t, u);
    if s.txs[u].work.ClearRole? {
      ClearerHoldsNothing(s, u, v);
    }
    UnseenIsLower(s, t, u, c);
  }

  /**
   So lockers that take the chart locks in id order cannot deadlock as long as each writes only charts
   its locking statement saw, as when no chart was created since.
   */
  lemma NoCircularWait(from: State, steps: seq<Step>, s: State, group: set<TxId>)
    requires Initial(from) && Leads(from, steps, s)
    requires forall t | t in group && t in s.txs && s.txs[t].todo == [] ::
               Written(s, s.txs[t].work) * s.charts <= s.txs[t].snapshot
    ensures !InCircle(s, group)
  {
    if InCircle(s, group) {
      CircleNeedsUnseenWrite(from, steps, s, group);
    }
  }

  /** Whoever is waited for has still to lock only higher charts. */
  lemma LaterHolderLocksHigher(s: State, t: TxId, u: TxId)
    requires Inv(s) && t in s.txs && u in s.txs && s.txs[t].todo != [] && s.txs[u].todo != []
    ensures WaitsFor(s, t, u) ==> s.txs[t].todo[0] < s.txs[u].todo[0]
  {
    assert TxValid(s, s.txs[u]);
  }

  /** The member waiting for the highest chart. */
  lemma {:induction false} LastToLock(s: State, group: set<TxId>) returns (t: TxId)
    requires group != {} && forall t | t in group :: t in s.txs && s.txs[t].todo != []
    ensures t in group && forall u | u in group :: s.txs[u].todo[0] <= s.txs[t].todo[0]
    decreases |group|
  {
    t :| t in group;
    if group != {t} {
      var last := LastToLock(s, group - {t});
      if s.txs[last].todo[0] > s.txs[t].todo[0] {
        t := last;
      }
    }
  }

  // ----- The circle can be reached -----

  /**
   The condition is exact: from any reachable state in which a transaction is about to write a chart it
   did not see, below every chart it holds, a circle can be reached; one account write closes it.
   */
  lemma UnseenWriteClosesCircle(from: State, before: seq<Step>, s: State, t: TxId, c: ChartId)
    returns (w: TxId, steps: seq<Step>, to: State)
    requires Initial(from) && Leads(from, before, s) && WritesUnseen(s, t, c)
    ensures Leads(s, steps, to) && InCircle(to, {t, w})
  {
    RunKeepsInv(from, before, s);
    var finished, alone := OthersFinish(s, t);
    RunKeepsInv(s, finished, alone);
    w := t + 1;
    var order := InOrder(alone.charts);
    steps, to := WriteBeginsBeside(alone, t, w, c, Begin(w, AccountWrite, order));
    RunsJoin(s, finished, alone, steps, to);
    steps := finished + steps;
    CircleOfTwo(to, t, w);
  }

  /** Any other transaction may come to its end first. */
  lemma {:induction false} OthersFinish(s: State, t: TxId) returns (steps: seq<Step>, to: State)
    requires t in s.txs
    ensures Leads(s, steps, to) && to == s.(txs := map[t := s.txs[t]])
    decreases |s.txs|
  {
    if s.txs.Keys == {t} {
      steps, to := [], s;
    } else {
      var u :| u in s.txs && u != t;
      steps, to := OthersFinish(Next(s, Finish(u)), t);
      steps := LedFrom(s, Finish(u), steps, to);
    }
  }

  lemma CircleOfTwo(s: State, t: TxId, u: TxId)
    requires WaitsFor(s, t, u) && WaitsFor(s, u, t)
    ensures InCircle(s, {t, u})
  {
    assert WaitsWithin(s, t, {t, u}) && WaitsWithin(s, u, {t, u});
  }

  lemma WriteBeginsBeside(s: State, t: TxId, w: TxId, c: ChartId, begin: Step) returns (steps: seq<Step>, to: State)
    requires Inv(s) && s.txs.Keys == {t} && w != t && WritesUnseen(s, t, c)
    requires begin.Begin? && begin.t == w && begin.work == AccountWrite && Orders(begin.order, AccountWrite, s.charts)
    ensures Leads(s, steps, to) && WaitsFor(to, t, w) && WaitsFor(to, w, t)
  {
    BeginsBeside(s, t, w, c, begin.order);
    StepKeepsInv(s, begin);
    steps, to := WriteLocksUpTo(Next(s, begin), t, w, c);
    steps := LedFrom(s, begin, steps, to);
  }

  lemma BeginsBeside(s: State, t: TxId, w: TxId, c: ChartId, order: seq<ChartId>)
    requires s.txs.Keys == {t} && w != t && WritesUnseen(s, t, c) && Orders(order, AccountWrite, s.charts)
    ensures Enabled(s, Begin(w, AccountWrite, order)) && LocksBeside(Next(s, Begin(w, AccountWrite, order)), t, w, c)
  {
    var begin := Begin(w, AccountWrite, order);
    assert s.txs[t].work != AccountWrite;
    assert Next(s, begin).txs[t] == s.txs[t] && Next(s, begin).txs.Keys == {t, w};
  }

  /** The charts in id order. */
  lemma {:induction false} InOrder(charts: set<ChartId>) returns (order: seq<ChartId>)
    ensures Ascending(order) && (set c | c in order) == charts
    decreases |charts|
  {
    if charts == {} {
      order := [];
    } else {
      var last := Highest(charts);
      var lower := InOrder(charts - {last});
      order := lower + [last];
      OneHigher(lower, charts - {last}, last);
      assert charts == (charts - {last}) + {last};
    }
  }

  lemma OneHigher(lower: seq<ChartId>, listed: set<ChartId>, last: ChartId)
    requires Ascending(lower) && (set c | c in lower) == listed && forall c | c in listed :: c < last
    ensures Ascending(lower + [last]) && (set c | c in lower + [last]) == listed + {last}
  {
    forall i | 0 <= i < |lower|
      ensures lower[i] < last
    {
      assert lower[i] in listed;
    }
  }

  lemma {:induction false} Highest(charts: set<ChartId>) returns (last: ChartId)
    requires charts != {}
    ensures last in charts && forall c | c in charts :: c <= last
    decreases |charts|
  {
    var some :| some in charts;
    var others := charts - {some};
    last := some;
    if others != {} {
      var other := Highest(others);
      last := if other > some then other else some;
    }
    forall c | c in charts
      ensures c <= last
    {
      assert c == some || c in others;
    }
  }

  /** An account write that locks beside `t`, which waits to write a chart it did not see. */
  ghost predicate LocksBeside(s: State, t: TxId, w: TxId, c: ChartId) {
    && s.txs.Keys == {t, w} && t != w && WritesUnseen(s, t, c) && !Shares(s.txs[t])
    && Shares(s.txs[w]) && s.charts <= s.txs[w].snapshot
  }

  lemma MeetsInCircle(s: State, t: TxId, w: TxId, c: ChartId)
    requires Inv(s) && LocksBeside(s, t, w, c) && s.txs[w].todo != [] && s.txs[w].todo[0] in s.txs[t].held
    ensures WaitsFor(s, t, w) && WaitsFor(s, w, t)
  {
    assert TxValid(s, s.txs[w]) && TxValid(s, s.txs[t]);
    assert c in Needs(s, s.txs[t]) * s.txs[w].held;
    assert s.txs[w].todo[0] in Needs(s, s.txs[w]) * s.txs[t].held;
  }

  lemma OneMoreLock(s: State, t: TxId, w: TxId, c: ChartId)
    requires LocksBeside(s, t, w, c) && s.txs[w].todo != [] && s.txs[w].todo[0] !in s.txs[t].held
    ensures Enabled(s, LockNext(w)) && LocksBeside(Locked(s, w), t, w, c)
  {
    var after := Locked(s, w);
    assert after.txs[t] == s.txs[t] && after.txs[w].snapshot == s.txs[w].snapshot && after.txs[w].work == s.txs[w].work;
    assert after.txs.Keys == {t, w};
  }

  lemma SomethingToLock(s: State, t: TxId, w: TxId, c: ChartId)
    requires Inv(s) && LocksBeside(s, t, w, c)
    ensures s.txs[w].todo != []
  {
    var d :| d in s.txs[t].held;
    assert TxValid(s, s.txs[w]) && TxValid(s, s.txs[t]);
    assert d !in s.txs[w].held;
  }

  /** The account write `w` locks chart after chart until the next is one `t` holds; by then it holds `c`. */
  lemma {:induction false} WriteLocksUpTo(s: State, t: TxId, w: TxId, c: ChartId) returns (steps: seq<Step>, to: State)
    requires Inv(s) && LocksBeside(s, t, w, c)
    ensures Leads(s, steps, to) && WaitsFor(to, t, w) && WaitsFor(to, w, t)
    decreases |s.txs[w].todo|
  {
    SomethingToLock(s, t, w, c);
    if s.txs[w].todo[0] in s.txs[t].held {
      MeetsInCircle(s, t, w, c);
      steps, to := [], s;
    } else {
      OneMoreLock(s, t, w, c);
      LockKeepsInv(s, w);
      steps, to := WriteLocksUpTo(Next(s, LockNext(w)), t, w, c);
      steps := LedFrom(s, LockNext(w), steps, to);
    }
  }

  /** Such a state can be reached: a role change to chart 5 now finds the role at chart 2, created since. */
  lemma UnseenWriteIsReachable() returns (steps: seq<Step>, s: State)
    ensures Leads(State({5}, {5}, None, map[]), steps, s) && s.txs.Keys == {0} && WritesUnseen(s, 0, 2)
  {
    var s0 := State({5}, {5}, None, map[]);
    assert (set c | c in [5]) == {5} && (set c | c in [2, 5]) == {2, 5};
    var s1 := Next(s0, Begin(0, AssignRole(5), [5]));
    var given;
    steps, given := RoleGoesToNewChart(s1, s1.txs[0], 2, [2, 5]);
    s := Next(given, LockNext(0));
    var last := LedFrom(given, LockNext(0), [], s);
    RunsJoin(s1, steps, given, last, s);
    steps := LedFrom(s0, Begin(0, AssignRole(5), [5]), steps + last, s);
  }

  /** And so can the circle: an account write then holds chart 2 and waits for chart 5. */
  lemma CircularWaitIsReachable() returns (w: TxId, steps: seq<Step>, s: State)
    ensures Leads(State({5}, {5}, None, map[]), steps, s) && InCircle(s, {0, w})
  {
    var before, waiting := UnseenWriteIsReachable();
    var rest: seq<Step>;
    w, rest, s := UnseenWriteClosesCircle(State({5}, {5}, None, map[]), before, waiting, 0, 2);
    steps := before + rest;
    RunsJoin(State({5}, {5}, None, map[]), before, waiting, rest, s);
  }
}
