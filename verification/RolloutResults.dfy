/**
 The guarantees of the rollout controller over every run from empty tables.
 */
module RolloutResults {
  import opened Counts
  import opened Options
  import opened Rollout
  import opened RolloutRuns

  // ----- The changelog and the reachable rollout states -----

  /** The changelog of a workflow is a word of the language, and replaying it gives the row's mode. */
  lemma ChangelogReplaysToRow(ops: seq<Op>, w: string)
    ensures var db := Run(EMPTY_DB, ops);
            var log := For(db.changelog, w);
            && InLanguage(Kinds(log))
            && Chained(log)
            && (if w in db.rollouts then Replay(log) == (db.rollouts[w].phase, db.rollouts[w].default) else log == [])
  {
    RunKeepsInv(ops);
    var db := Run(EMPTY_DB, ops);
    assert WorkflowOk(db, w);
    LanguageIsAlternation(Kinds(For(db.changelog, w)));
  }

  /** A workflow enters canary at most once, with its first changelog entry. */
  lemma CanaryEnteredOnce(ops: seq<Op>, w: string, i: nat)
    requires i < |For(Run(EMPTY_DB, ops).changelog, w)|
    ensures For(Run(EMPTY_DB, ops).changelog, w)[i].next.phase == Canary <==> i == 0
  {
    RunKeepsInv(ops);
    var db := Run(EMPTY_DB, ops);
    assert WorkflowOk(db, w);
    assert Kinds(For(db.changelog, w))[i] == For(db.changelog, w)[i].kind;
  }

  /** In particular shadow always serves the control variant, and no stored phase reaches the last arm. */
  lemma ReachableRolloutStates(ops: seq<Op>, w: string)
    ensures var db := Run(EMPTY_DB, ops);
            && (w in db.rollouts ==>
                var row := db.rollouts[w];
                && !row.phase.OtherPhase?
                && (row.phase == Full <==> row.default == B)
                && (row.phase == Canary ==> Exposures(db, w, A) >= 20)
                && (row.phase == Full ==>
                    Exposures(db, w, A) >= 20 && Exposures(db, w, B) >= 25 && TwiceApproved(db.approvals, w))
                && (row.phase == Shadow ==> forall prefix: Prefix :: Effective(row, prefix) == A)
                && (row.phase == Full ==> forall prefix: Prefix :: Effective(row, prefix) == B))
            && ((w, B) in db.metrics ==>
                For(db.changelog, w) != [] && For(db.changelog, w)[0].kind == PhaseAdvance)
  {
    RunKeepsInv(ops);
    var db := Run(EMPTY_DB, ops);
    assert WorkflowOk(db, w);
    var log := For(db.changelog, w);
    if log != [] {
      assert Kinds(log)[|log| - 1] == log[|log| - 1].kind;
      assert Kinds(log)[0] == log[0].kind;
    }
  }

  // ----- What an assignment row says -----

  /** The variant that the last serving of (run, workflow) got. */
  function LastServed(ops: seq<Op>, run: string, w: string): Option<Variant> {
    if ops == [] then None
    else
      var before, op := ops[..|ops| - 1], ops[|ops| - 1];
      if op.Assign? && op.run == run && op.workflow == w
      then Some(Effective(RowOf(Run(EMPTY_DB, before), w), op.prefix))
      else LastServed(before, run, w)
  }

  predicate RowIs(rows: seq<Assignment>, run: string, w: string, served: Option<Variant>) {
    var i := Position(rows, run, w);
    (if i < |rows| then served == Some(rows[i].effective) else served.None?) &&
    forall j :: i < j < |rows| ==> !(rows[j].run == run && rows[j].workflow == w)
  }

  lemma PositionIsUnique(rows: seq<Assignment>, run: string, w: string, i: nat)
    requires i < |rows| && rows[i].run == run && rows[i].workflow == w
    requires forall j :: 0 <= j < i ==> !(rows[j].run == run && rows[j].workflow == w)
    ensures Position(rows, run, w) == i
  {
    assert rows[i].run == run && rows[i].workflow == w;
  }

  /** Serving a (run, workflow) again rewrites its one row. */
  lemma UpsertServesOwn(rows: seq<Assignment>, row: Assignment, served: Option<Variant>)
    requires RowIs(rows, row.run, row.workflow, served)
    ensures RowIs(UpsertAssignment(rows, row), row.run, row.workflow, Some(row.effective))
  {
    var at := Position(rows, row.run, row.workflow);
    PositionIsUnique(UpsertAssignment(rows, row), row.run, row.workflow, at);
  }

  /** An upsert writes one position, that of the row it replaces or the end. */
  lemma UpsertWritesOne(rows: seq<Assignment>, row: Assignment)
    ensures var after, at := UpsertAssignment(rows, row), Position(rows, row.run, row.workflow);
            && |after| == (if at < |rows| then |rows| else |rows| + 1) && after[at] == row
            && forall j :: 0 <= j < |rows| && j != at ==> after[j] == rows[j]
  {
  }

  predicate IsOf(row: Assignment, run: string, w: string) {
    row.run == run && row.workflow == w
  }

  lemma PositionBeyondEnd(rows: seq<Assignment>, run: string, w: string)
    requires forall j :: 0 <= j < |rows| ==> !IsOf(rows[j], run, w)
    ensures Position(rows, run, w) == |rows|
  {
    if Position(rows, run, w) < |rows| { assert IsOf(rows[Position(rows, run, w)], run, w); }
  }

  lemma UpsertKeepsOther(rows: seq<Assignment>, row: Assignment, run: string, w: string, served: Option<Variant>)
    requires RowIs(rows, run, w, served) && !IsOf(row, run, w)
    ensures RowIs(UpsertAssignment(rows, row), run, w, served)
  {
    var after, at, i := UpsertAssignment(rows, row), Position(rows, row.run, row.workflow), Position(rows, run, w);
    UpsertWritesOne(rows, row);
    hide UpsertAssignment, Position;
    forall j | 0 <= j < |after| && j != i ensures !IsOf(after[j], run, w) {
      if j != at { assert after[j] == rows[j]; }
    }
    if i < |rows| {
      assert after[i] == rows[i];
      PositionIsUnique(after, run, w, i);
    } else {
      if i < |after| { assert at == i; }
      PositionBeyondEnd(after, run, w);
    }
  }

  lemma OnlyAssignChangesRows(db: Db, op: Op)
    requires !op.Assign?
    ensures Step(db, op).assignments == db.assignments
  {
  }

  /** A (run, workflow) has one assignment row, for the variant that its last serving got. */
  lemma {:induction false} RowIsLastServed(ops: seq<Op>, run: string, w: string)
    ensures RowIs(Run(EMPTY_DB, ops).assignments, run, w, LastServed(ops, run, w))
  {
    if ops != [] {
      var before, op := ops[..|ops| - 1], ops[|ops| - 1];
      RowIsLastServed(before, run, w);
      var db := Run(EMPTY_DB, before);
      if op.Assign? {
        var row := RowOf(db, op.workflow);
        var assignment := Assignment(op.run, op.workflow, Bucket(op.prefix), Effective(row, op.prefix), row.phase);
        if op.run == run && op.workflow == w {
          UpsertServesOwn(db.assignments, assignment, LastServed(before, run, w));
        } else {
          UpsertKeepsOther(db.assignments, assignment, run, w, LastServed(before, run, w));
        }
      } else {
        OnlyAssignChangesRows(db, op);
      }
    }
  }

  /** The row that serves a workflow: the stored one, or the seed of a workflow that is new. */
  function ServingRow(db: Db, w: string): Row {
    if w in db.rollouts then db.rollouts[w] else Row(Shadow, 0.1, 0.05, 0.03, 0.05, 0.05, A, "", "", "unversioned")
  }

  predicate FirstOf(rows: seq<Assignment>, run: string, w: string, i: int) {
    0 <= i < |rows| && IsOf(rows[i], run, w) && forall j :: 0 <= j < i ==> !IsOf(rows[j], run, w)
  }

  /** The row goes where the run's row of that workflow is, or to the end if there is none. */
  ghost predicate Stored(rows: seq<Assignment>, row: Assignment, after: seq<Assignment>) {
    && (forall i :: FirstOf(rows, row.run, row.workflow, i) ==> after == rows[i := row])
    && ((forall i :: 0 <= i < |rows| ==> !IsOf(rows[i], row.run, row.workflow)) ==> after == rows + [row])
  }

  lemma UpsertStores(rows: seq<Assignment>, after: seq<Assignment>, row: Assignment)
    requires after == UpsertAssignment(rows, row)
    ensures Stored(rows, row, after)
  {
    forall i | FirstOf(rows, row.run, row.workflow, i) ensures after == rows[i := row] {
      PositionIsUnique(rows, row.run, row.workflow, i);
    }
    if forall i :: 0 <= i < |rows| ==> !IsOf(rows[i], row.run, row.workflow) {
      PositionBeyondEnd(rows, row.run, row.workflow);
    }
  }

  /**
   The whole effect of a serving: the row is seeded, the variant follows from phase, default and digest
   prefix, one exposure is counted, and the assignment replaces that of the same run and workflow.
   */
  lemma ServingExactly(db: Db, run: string, w: string, prefix: Prefix)
    ensures var row, after := ServingRow(db, w), AssignVariant(db, run, w, prefix);
            var served :=
              match row.phase
              case Shadow => row.default
              case Canary => if prefix as real < row.canaryPercent * 4294967295.0 then B else A
              case Full => B
              case OtherPhase(_) => A;
            var assignment := Assignment(run, w, if 2 * prefix < 4294967295 then A else B, served, row.phase);
            && after.rollouts == db.rollouts[w := row]
            && after.metrics == db.metrics[(w, served) := if (w, served) !in db.metrics then Metrics(1, 0, 0, 0, 0)
                                           else var m := db.metrics[(w, served)]; m.(exposures := m.exposures + 1)]
            && Stored(db.assignments, assignment, after.assignments)
            && after.releases == db.releases && after.approvals == db.approvals
            && after.changelog == db.changelog && after.actions == db.actions
  {
    ServedExactly(ServingRow(db, w), prefix);
    hide Effective, Bucket, UpsertAssignment, Stored;
    UpsertStores(db.assignments, AssignVariant(db, run, w, prefix).assignments, Assignment(run, w, Bucket(prefix),
        Effective(ServingRow(db, w), prefix), ServingRow(db, w).phase));
  }

  lemma ServedExactly(row: Row, prefix: Prefix)
    ensures Bucket(prefix) == if 2 * prefix < 4294967295 then A else B
    ensures Effective(row, prefix)
         == match row.phase
            case Shadow => row.default
            case Canary => if prefix as real < row.canaryPercent * 4294967295.0 then B else A
            case Full => B
            case OtherPhase(_) => A
  {
  }

  // ----- Whom an outcome or a rejection is about -----

  predicate Serving(op: Op, run: string, w: string) {
    op.Assign? && op.run == run && op.workflow == w
  }

  ghost predicate FirstServing(ops: seq<Op>, run: string, w: string, i: int) {
    0 <= i < |ops| && Serving(ops[i], run, w) && forall j :: 0 <= j < i ==> !Serving(ops[j], run, w)
  }

  /** The workflow that was the last to be served in the run for the first time. */
  function NewestWorkflow(ops: seq<Op>, run: string): Option<string> {
    if ops == [] then None
    else
      var before, op := ops[..|ops| - 1], ops[|ops| - 1];
      if op.Assign? && op.run == run && forall i :: 0 <= i < |before| ==> !Serving(before[i], run, op.workflow)
      then Some(op.workflow)
      else NewestWorkflow(before, run)
  }

  /** Its first serving comes after that of every other workflow in the run; there is none without a serving. */
  lemma {:induction false} NewestWorkflowExactly(ops: seq<Op>, run: string)
    ensures NewestWorkflow(ops, run).None? <==> forall i :: 0 <= i < |ops| ==> !(ops[i].Assign? && ops[i].run == run)
    ensures NewestWorkflow(ops, run).Some? ==>
              exists i :: FirstServing(ops, run, NewestWorkflow(ops, run).value, i)
                          && forall x, j :: FirstServing(ops, run, x, j) ==> j <= i
  {
    if ops != [] {
      var n := |ops| - 1;
      var before := ops[..n];
      NewestWorkflowExactly(before, run);
      forall x, j | FirstServing(ops, run, x, j) && j < n ensures FirstServing(before, run, x, j) {
        assert before[j] == ops[j];
      }
      if ops[n].Assign? && ops[n].run == run && forall i :: 0 <= i < n ==> !Serving(before[i], run, ops[n].workflow) {
        assert FirstServing(ops, run, ops[n].workflow, n);
      } else if NewestWorkflow(before, run).Some? {
        var w := NewestWorkflow(before, run).value;
        var i :| FirstServing(before, run, w, i) && forall x, j :: FirstServing(before, run, x, j) ==> j <= i;
        assert FirstServing(ops, run, w, i);
      }
    }
  }

  predicate Stores(op: Op, action: string) {
    op.NewAction? && op.action == action
  }

  /** The run that the first action row of that id was stored with. */
  function FirstRun(ops: seq<Op>, action: string): Option<string> {
    if ops == [] then None
    else
      var earlier, op := FirstRun(ops[..|ops| - 1], action), ops[|ops| - 1];
      if earlier.None? && Stores(op, action) then Some(op.run) else earlier
  }

  ghost predicate FirstStoring(ops: seq<Op>, action: string, i: int) {
    0 <= i < |ops| && Stores(ops[i], action) && forall j :: 0 <= j < i ==> !Stores(ops[j], action)
  }

  lemma {:induction false} FirstRunExactly(ops: seq<Op>, action: string)
    ensures FirstRun(ops, action).None? <==> forall i :: 0 <= i < |ops| ==> !Stores(ops[i], action)
    ensures FirstRun(ops, action).Some? ==>
              exists i :: FirstStoring(ops, action, i) && ops[i].run == FirstRun(ops, action).value
  {
    if ops != [] {
      var n := |ops| - 1;
      FirstRunExactly(ops[..n], action);
      if FirstRun(ops[..n], action).Some? {
        var i :| FirstStoring(ops[..n], action, i) && ops[..n][i].run == FirstRun(ops[..n], action).value;
        assert FirstStoring(ops, action, i);
      } else if Stores(ops[n], action) {
        assert FirstStoring(ops, action, n);
      }
    }
  }

  lemma CreditLeavesActions(db: Db, a: Assignment, gain: Metrics)
    ensures Credit(db, a, gain).actions == db.actions
  {
  }

  lemma OnlyNewActionChangesActions(db: Db, op: Op)
    requires !op.NewAction?
    ensures Step(db, op).actions == db.actions
  {
    hide Credit, UpsertAssignment, LatestAssignment, Without, LastActive;
    match op
    case Outcome(run, reply, meeting, success) =>
      var a := LatestAssignment(db.assignments, run);
      if a.Some? { CreditLeavesActions(db, a.value, OutcomeGain(reply, meeting, success)); }
    case Rejection(action) =>
      if action in db.actions && LatestAssignment(db.assignments, db.actions[action]).Some? {
        CreditLeavesActions(db, LatestAssignment(db.assignments, db.actions[action]).value, REJECTION_GAIN);
      }
    case _ =>
  }

  /** The actions table maps an action to the run it was first stored with. */
  lemma {:induction false} ActionsKeepFirstRun(ops: seq<Op>, action: string)
    ensures Lookup(Run(EMPTY_DB, ops), action) == FirstRun(ops, action)
  {
    if ops != [] {
      ActionsKeepFirstRun(ops[..|ops| - 1], action);
      if !ops[|ops| - 1].NewAction? { OnlyNewActionChangesActions(Run(EMPTY_DB, ops[..|ops| - 1]), ops[|ops| - 1]); }
    }
  }

  function Lookup(db: Db, action: string): Option<string> {
    if action in db.actions then Some(db.actions[action]) else None
  }

  lemma LatestIsAt(rows: seq<Assignment>, run: string, i: nat)
    requires i < |rows| && rows[i].run == run && forall j :: i < j < |rows| ==> rows[j].run != run
    ensures LatestAssignment(rows, run) == Some(rows[i])
  {
  }

  /** An upsert moves the newest row of a run only if it appends one of that run. */
  lemma UpsertLatest(rows: seq<Assignment>, row: Assignment, run: string)
    ensures var after, at := UpsertAssignment(rows, row), Position(rows, row.run, row.workflow);
            var a, b := LatestAssignment(rows, run), LatestAssignment(after, run);
            if row.run == run && at == |rows| then b == Some(row)
            else a.None? == b.None? && (b.Some? ==> b.value.workflow == a.value.workflow)
  {
    var after, at := UpsertAssignment(rows, row), Position(rows, row.run, row.workflow);
    var a := LatestAssignment(rows, run);
    UpsertWritesOne(rows, row);
    if row.run == run && at == |rows| {
      LatestIsAt(after, run, at);
    } else if a.Some? {
      var i :| 0 <= i < |rows| && rows[i] == a.value && forall j :: i < j < |rows| ==> rows[j].run != run;
      LatestIsAt(after, run, i);
    }
  }

  lemma {:induction false} ServedIfServing(ops: seq<Op>, run: string, w: string)
    ensures LastServed(ops, run, w).None? <==> forall i :: 0 <= i < |ops| ==> !Serving(ops[i], run, w)
  {
    if ops != [] { ServedIfServing(ops[..|ops| - 1], run, w); }
  }

  /** The newest assignment row of a run is of the newest workflow. */
  lemma {:induction false} LatestIsOfNewest(ops: seq<Op>, run: string)
    ensures var a := LatestAssignment(Run(EMPTY_DB, ops).assignments, run);
            NewestWorkflow(ops, run) == if a.Some? then Some(a.value.workflow) else None
  {
    if ops != [] {
      var before, op := ops[..|ops| - 1], ops[|ops| - 1];
      LatestIsOfNewest(before, run);
      var db := Run(EMPTY_DB, before);
      if op.Assign? {
        var row := RowOf(db, op.workflow);
        var assignment := Assignment(op.run, op.workflow, Bucket(op.prefix), Effective(row, op.prefix), row.phase);
        UpsertLatest(db.assignments, assignment, run);
        RowIsLastServed(before, op.run, op.workflow);
        ServedIfServing(before, op.run, op.workflow);
      } else {
        OnlyAssignChangesRows(db, op);
      }
    }
  }

  /** And names the variant that this workflow was last served there. */
  lemma LatestIsNewest(ops: seq<Op>, run: string)
    ensures var a, w := LatestAssignment(Run(EMPTY_DB, ops).assignments, run), NewestWorkflow(ops, run);
            && (a.None? <==> w.None?)
            && (a.Some? ==> a.value.workflow == w.value && LastServed(ops, run, w.value) == Some(a.value.effective))
  {
    LatestIsOfNewest(ops, run);
    var rows := Run(EMPTY_DB, ops).assignments;
    var a := LatestAssignment(rows, run);
    if a.Some? {
      RowIsLastServed(ops, run, a.value.workflow);
      var i :| 0 <= i < |rows| && rows[i] == a.value;
      assert Position(rows, run, a.value.workflow) == i;
    }
  }

  // ----- Where exposures come from -----

  datatype Ledger = Ledger(served: nat, attributed: nat, rejected: nat, replies: nat, meetings: nat, successes: nat)

  const NOTHING := Ledger(0, 0, 0, 0, 0, 0)

  function Add(x: Ledger, y: Ledger): Ledger {
    Ledger(x.served + y.served, x.attributed + y.attributed, x.rejected + y.rejected,
           x.replies + y.replies, x.meetings + y.meetings, x.successes + y.successes)
  }

  predicate Serves(a: Option<Assignment>, w: string, v: Variant) {
    a.Some? && a.value.workflow == w && a.value.effective == v
  }

  /** What an operation on these tables is worth to (workflow, variant). */
  function WorthIn(db: Db, op: Op, w: string, v: Variant): Ledger {
    match op
    case Assign(_, x, prefix) =>
      if x == w && Effective(RowOf(db, w), prefix) == v then NOTHING.(served := 1) else NOTHING
    case Outcome(run, reply, meeting, success) =>
      if Serves(LatestAssignment(db.assignments, run), w, v)
      then Ledger(0, 1, 0, One(reply), One(meeting), One(success)) else NOTHING
    case Rejection(action) =>
      if action in db.actions && Serves(LatestAssignment(db.assignments, db.actions[action]), w, v)
      then NOTHING.(rejected := 1) else NOTHING
    case _ => NOTHING
  }

  /** What a run's outcomes are about: its newest workflow, and the variant that this was last served there. */
  predicate Credits(ops: seq<Op>, run: string, w: string, v: Variant) {
    NewestWorkflow(ops, run) == Some(w) && LastServed(ops, run, w) == Some(v)
  }

  /** What an operation that follows `ops` is worth to (workflow, variant), read from the operations. */
  function Worth(ops: seq<Op>, op: Op, w: string, v: Variant): Ledger {
    match op
    case Assign(run, _, _) =>
      if op.workflow == w && LastServed(ops + [op], run, w) == Some(v) then NOTHING.(served := 1) else NOTHING
    case Outcome(run, reply, meeting, success) =>
      if Credits(ops, run, w, v) then Ledger(0, 1, 0, One(reply), One(meeting), One(success)) else NOTHING
    case Rejection(action) =>
      if FirstRun(ops, action).Some? && Credits(ops, FirstRun(ops, action).value, w, v)
      then NOTHING.(rejected := 1) else NOTHING
    case _ => NOTHING
  }

  lemma LatestServesNewest(ops: seq<Op>, run: string, w: string, v: Variant)
    ensures Serves(LatestAssignment(Run(EMPTY_DB, ops).assignments, run), w, v) <==> Credits(ops, run, w, v)
  {
    LatestIsNewest(ops, run);
  }

  /** The two accounts agree on the tables that the operations lead to. */
  lemma WorthOfOperations(ops: seq<Op>, op: Op, w: string, v: Variant)
    ensures WorthIn(Run(EMPTY_DB, ops), op, w, v) == Worth(ops, op, w, v)
  {
    hide Credits, Serves, Effective;
    match op
    case Assign(run, x, prefix) =>
      assert (ops + [op])[..|ops|] == ops;
    case Outcome(run, _, _, _) => LatestServesNewest(ops, run, w, v);
    case Rejection(action) =>
      ActionsKeepFirstRun(ops, action);
      if FirstRun(ops, action).Some? { LatestServesNewest(ops, FirstRun(ops, action).value, w, v); }
    case _ =>
  }

  function History(ops: seq<Op>, w: string, v: Variant): Ledger {
    if ops == [] then NOTHING
    else
      var before := ops[..|ops| - 1];
      Add(History(before, w, v), Worth(before, ops[|ops| - 1], w, v))
  }

  function MetricsOf(db: Db, w: string, v: Variant): Metrics {
    if (w, v) in db.metrics then db.metrics[(w, v)] else ZERO
  }

  function AsMetrics(h: Ledger): Metrics {
    Metrics(h.served + h.attributed + h.rejected, h.replies, h.meetings, h.successes, h.rejected)
  }

  lemma CreditCounts(db: Db, a: Assignment, gain: Metrics, w: string, v: Variant)
    requires (a.workflow, a.effective) in db.metrics
    ensures Credit(db, a, gain).metrics.Keys == db.metrics.Keys
    ensures MetricsOf(Credit(db, a, gain), w, v)
         == if a.workflow == w && a.effective == v then Plus(MetricsOf(db, w, v), gain) else MetricsOf(db, w, v)
  {
    assert Credit(db, a, gain).metrics
        == UpsertMetrics(db.metrics, (a.workflow, a.effective), gain.(exposures := 0), gain);
  }

  /**
   The metrics of (workflow, variant) are what its ledger says: the row exists exactly when the
   variant was served, and counts its servings, outcomes and rejections and nothing else.
   */
  ghost predicate Conserved(db: Db, h: Ledger, w: string, v: Variant) {
    && ((w, v) in db.metrics <==> h.served > 0)
    && MetricsOf(db, w, v) == AsMetrics(h)
    && h.replies <= h.attributed && h.meetings <= h.attributed && h.successes <= h.attributed
  }

  lemma AssignConserves(db: Db, h: Ledger, run: string, x: string, prefix: Prefix, w: string, v: Variant)
    requires Conserved(db, h, w, v)
    ensures var serves := x == w && Effective(RowOf(db, w), prefix) == v;
            Conserved(AssignVariant(db, run, x, prefix),
                      Add(h, if serves then NOTHING.(served := 1) else NOTHING), w, v)
  {
    var key, one := (x, Effective(RowOf(db, x), prefix)), ZERO.(exposures := 1);
    assert AssignVariant(db, run, x, prefix).metrics == UpsertMetrics(db.metrics, key, one, one);
  }

  lemma CreditConserves(db: Db, h: Ledger, a: Assignment, gain: Ledger, m: Metrics, w: string, v: Variant)
    requires Conserved(db, h, w, v) && (a.workflow, a.effective) in db.metrics
    requires gain.served == 0 && m == AsMetrics(gain)
    requires gain.replies <= gain.attributed && gain.meetings <= gain.attributed && gain.successes <= gain.attributed
    ensures Conserved(Credit(db, a, m),
                      Add(h, if a.workflow == w && a.effective == v then gain else NOTHING), w, v)
  {
    CreditCounts(db, a, m, w, v);
  }

  lemma OutcomeConserves(db: Db, h: Ledger, run: string, gain: Ledger, m: Metrics, w: string, v: Variant)
    requires AssignmentsOk(db) && Conserved(db, h, w, v)
    requires gain.served == 0 && m == AsMetrics(gain)
    requires gain.replies <= gain.attributed && gain.meetings <= gain.attributed && gain.successes <= gain.attributed
    ensures var a := LatestAssignment(db.assignments, run);
            Conserved(if a.Some? then Credit(db, a.value, m) else db,
                      Add(h, if Serves(a, w, v) then gain else NOTHING), w, v)
  {
    var a := LatestAssignment(db.assignments, run);
    if a.Some? { CreditConserves(db, h, a.value, gain, m, w, v); }
  }

  lemma QuietOpConserves(db: Db, h: Ledger, op: Op, w: string, v: Variant)
    requires !op.Assign? && !op.Outcome? && !op.Rejection? && Conserved(db, h, w, v)
    ensures Conserved(Step(db, op), Add(h, WorthIn(db, op, w, v)), w, v)
  {
    assert Step(db, op).metrics == db.metrics;
    assert Add(h, WorthIn(db, op, w, v)) == h;
  }

  lemma RejectionConserves(db: Db, h: Ledger, action: string, w: string, v: Variant)
    requires AssignmentsOk(db) && Conserved(db, h, w, v)
    ensures Conserved(Step(db, Rejection(action)), Add(h, WorthIn(db, Rejection(action), w, v)), w, v)
  {
    if action in db.actions {
      OutcomeConserves(db, h, db.actions[action], NOTHING.(rejected := 1), REJECTION_GAIN, w, v);
    } else {
      assert Add(h, NOTHING) == h;
    }
  }

  lemma OutcomeOpConserves(db: Db, h: Ledger, op: Op, w: string, v: Variant)
    requires op.Outcome? && AssignmentsOk(db) && Conserved(db, h, w, v)
    ensures Conserved(Step(db, op), Add(h, WorthIn(db, op, w, v)), w, v)
  {
    var gain := Ledger(0, 1, 0, One(op.reply), One(op.meeting), One(op.success));
    OutcomeConserves(db, h, op.run, gain, OutcomeGain(op.reply, op.meeting, op.success), w, v);
  }

  lemma StepConserves(db: Db, h: Ledger, op: Op, w: string, v: Variant)
    requires AssignmentsOk(db) && Conserved(db, h, w, v)
    ensures Conserved(Step(db, op), Add(h, WorthIn(db, op, w, v)), w, v)
  {
    match op
    case Assign(run, workflow, prefix) => AssignConserves(db, h, run, workflow, prefix, w, v);
    case Outcome(_, _, _, _) => OutcomeOpConserves(db, h, op, w, v);
    case Rejection(action) => RejectionConserves(db, h, action, w, v);
    case _ => QuietOpConserves(db, h, op, w, v);
  }

  /** Exposures are conserved over every run, and credited to whom the operations before say. */
  lemma {:induction false} ExposuresAreConserved(ops: seq<Op>, w: string, v: Variant)
    ensures Conserved(Run(EMPTY_DB, ops), History(ops, w, v), w, v)
  {
    if ops != [] {
      var before := ops[..|ops| - 1];
      ExposuresAreConserved(before, w, v);
      RunKeepsInv(before);
      WorthOfOperations(before, ops[|ops| - 1], w, v);
      StepConserves(Run(EMPTY_DB, before), History(before, w, v), ops[|ops| - 1], w, v);
    }
  }

  /** The metrics row of (workflow, variant) counts one more exposure and what came of it. */
  function Counted(m: Metrics, reply: bool, meeting: bool, success: bool, rejection: bool): Metrics {
    Metrics(m.exposures + 1, m.replies + One(reply), m.meetings + One(meeting), m.successes + One(success),
            m.rejections + One(rejection))
  }

  /** Nothing happens for an unknown run; else one metrics row counts, and its workflow is evaluated. */
  predicate Credited(ops: seq<Op>, run: Option<string>, reply: bool, meeting: bool, success: bool, rejection: bool,
      after: Db)
  {
    var db := Run(EMPTY_DB, ops);
    if run.None? || NewestWorkflow(ops, run.value).None? then after == db
    else
      var w := NewestWorkflow(ops, run.value).value;
      var served := LastServed(ops, run.value, w);
      && served.Some? && (w, served.value) in db.metrics
      && var key := (w, served.value);
         var counted := Counted(db.metrics[key], reply, meeting, success, rejection);
         after == Evaluate(db.(metrics := db.metrics[key := counted]), w)
  }

  /** A credit counts in the metrics row of the assignment; a row that it has to insert would have no exposure. */
  lemma CreditIsCounted(db: Db, a: Assignment, reply: bool, meeting: bool, success: bool, rejection: bool)
    ensures var gain := Metrics(1, One(reply), One(meeting), One(success), One(rejection));
            var key := (a.workflow, a.effective);
            var counted := if key in db.metrics then Counted(db.metrics[key], reply, meeting, success, rejection)
                           else Metrics(0, One(reply), One(meeting), One(success), One(rejection));
            Credit(db, a, gain) == Evaluate(db.(metrics := db.metrics[key := counted]), a.workflow)
  {
    hide Evaluate;
  }

  lemma LatestIsCredited(ops: seq<Op>, run: string, reply: bool, meeting: bool, success: bool, rejection: bool)
    ensures var db := Run(EMPTY_DB, ops);
            var a := LatestAssignment(db.assignments, run);
            var gain := Metrics(1, One(reply), One(meeting), One(success), One(rejection));
            var after := if a.Some? then Credit(db, a.value, gain) else db;
            Credited(ops, Some(run), reply, meeting, success, rejection, after)
  {
    hide Evaluate, Credit, NewestWorkflow, LastServed;
    var db := Run(EMPTY_DB, ops);
    var a := LatestAssignment(db.assignments, run);
    LatestIsNewest(ops, run);
    RunKeepsInv(ops);
    if a.Some? { CreditIsCounted(db, a.value, reply, meeting, success, rejection); }
  }

  /** An outcome counts one exposure with its reply, meeting and success, and then its workflow is evaluated. */
  lemma OutcomeExactly(ops: seq<Op>, run: string, reply: bool, meeting: bool, success: bool)
    ensures Credited(ops, Some(run), reply, meeting, success, false,
                     Step(Run(EMPTY_DB, ops), Outcome(run, reply, meeting, success)))
  {
    hide Evaluate, Credit, Credited;
    LatestIsCredited(ops, run, reply, meeting, success, false);
  }

  /** A rejection counts one exposure and itself, for the run that the action was first stored with. */
  lemma RejectionExactly(ops: seq<Op>, action: string)
    ensures Credited(ops, FirstRun(ops, action), false, false, false, true,
                     Step(Run(EMPTY_DB, ops), Rejection(action)))
  {
    hide Evaluate, Credit;
    ActionsKeepFirstRun(ops, action);
    if FirstRun(ops, action).Some? { LatestIsCredited(ops, FirstRun(ops, action).value, false, false, false, true); }
  }

  lemma RateBelowOne(count: nat, exposures: nat)
    requires count < exposures
    ensures 0.0 <= Rate(count, exposures) < 1.0
  {
  }

  /** Replies and rejections together stay below exposures, so every rate is in [0, 1). */
  lemma RatesAreProper(ops: seq<Op>, w: string, v: Variant)
    requires (w, v) in Run(EMPTY_DB, ops).metrics
    ensures var m := Run(EMPTY_DB, ops).metrics[(w, v)];
            && m.replies + m.rejections < m.exposures
            && 0.0 <= Rate(m.replies, m.exposures) < 1.0
            && 0.0 <= Rate(m.meetings, m.exposures) < 1.0
            && 0.0 <= Rate(m.successes, m.exposures) < 1.0
            && 0.0 <= Rate(m.rejections, m.exposures) < 1.0
  {
    ExposuresAreConserved(ops, w, v);
    var m := Run(EMPTY_DB, ops).metrics[(w, v)];
    RateBelowOne(m.replies, m.exposures);
    RateBelowOne(m.meetings, m.exposures);
    RateBelowOne(m.successes, m.exposures);
    RateBelowOne(m.rejections, m.exposures);
  }

  // ----- The canary split -----

  const LAST_PREFIX := 0xFFFF_FFFF

  function ServedCandidate(p: real): set<int> {
    set h: int | 0 <= h <= LAST_PREFIX && Score(h) < p
  }

  function Ceiling(x: real): int {
    -((-x).Floor)
  }

  function Below(n: nat): (r: set<int>)
    ensures forall h :: h in r <==> 0 <= h < n
  {
    if n == 0 then {} else Below(n - 1) + {n - 1}
  }

  lemma {:induction false} RangeSize(n: nat)
    ensures |Below(n)| == n
  {
    if n > 0 {
      RangeSize(n - 1);
      assert n - 1 !in Below(n - 1);
    }
  }

  /** A canary row serves the candidate to exactly ceil(p * (2^32 - 1)) prefixes, within one of p * 2^32. */
  lemma CanaryShare(row: Row, p: real)
    requires 0.0 <= p <= 1.0 && row.phase == Canary && row.canaryPercent == p
    ensures |ServedCandidate(p)| == Ceiling(p * LAST_PREFIX as real)
    ensures -1.0 <= |ServedCandidate(p)| as real - p * 4294967296.0 <= 1.0
    ensures forall prefix: Prefix :: Effective(row, prefix) == B <==> prefix in ServedCandidate(p)
  {
    var n := Ceiling(p * LAST_PREFIX as real);
    assert 0 <= n <= LAST_PREFIX;
    forall h: int | 0 <= h <= LAST_PREFIX ensures Score(h) < p <==> h < n {
      assert Score(h) < p <==> h as real < p * LAST_PREFIX as real;
    }
    assert ServedCandidate(p) == Below(n);
    RangeSize(n);
  }

  /** Raising the share only moves prefixes from the control to the candidate. */
  lemma RaisingShareOnlyAdds(p: real, q: real)
    requires p <= q
    ensures ServedCandidate(p) <= ServedCandidate(q)
  {
  }
}
