/**
 What every run of the rollout operations keeps, started from empty tables: the changelog
 language, the reachable rollout states, where exposures come from, and the release pointers.
 */
module RolloutRuns {
  import opened Options
  import opened Rollout

  datatype Op =
    | Assign(run: string, workflow: string, prefix: Prefix)
    | Outcome(run: string, reply: bool, meeting: bool, success: bool)
    | Rejection(action: string)
    | NewAction(action: string, run: string)
    | Register(id: string, workflow: string, version: string, status: ReleaseStatus, note: string)
    | Approve(workflow: string, release: string, approver: string, verdict: Verdict)

  function Step(db: Db, op: Op): Db {
    match op
    case Assign(run, w, prefix) => AssignVariant(db, run, w, prefix)
    case Outcome(run, reply, meeting, success) => RecordOutcome(db, run, reply, meeting, success)
    case Rejection(action) => RecordRejection(db, action)
    case NewAction(action, run) => UpsertAction(db, action, run)
    case Register(id, w, version, status, note) => RegisterRelease(db, id, w, version, status, note)
    case Approve(w, release, approver, verdict) => RecordApproval(db, w, release, approver, verdict)
  }

  function Run(db: Db, ops: seq<Op>): Db {
    if ops == [] then db else Step(Run(db, ops[..|ops| - 1]), ops[|ops| - 1])
  }

  // ----- The changelog of one workflow -----

  function For(log: seq<Change>, w: string): (r: seq<Change>)
    ensures forall c :: c in r ==> c.workflow == w
  {
    if log == [] then []
    else
      var last := log[|log| - 1];
      For(log[..|log| - 1], w) + (if last.workflow == w then [last] else [])
  }

  lemma ForAppend(log: seq<Change>, c: Change, w: string)
    ensures For(log + [c], w) == For(log, w) + (if c.workflow == w then [c] else [])
  {
    assert (log + [c])[..|log|] == log;
  }

  function Kinds(log: seq<Change>): (r: seq<ChangeKind>)
    ensures |r| == |log| && forall i :: 0 <= i < |log| ==> r[i] == log[i].kind
  {
    seq(|log|, i requires 0 <= i < |log| => log[i].kind)
  }

  /** The words `PhaseAdvance AutoRollback? (Promotion AutoRollback)* Promotion?` and their prefixes. */
  predicate InLanguage(word: seq<ChangeKind>) {
    word == [] ||
    (word[0] == PhaseAdvance &&
     (Loop(word[1..]) || (|word| > 1 && word[1] == AutoRollback && Loop(word[2..]))))
  }

  predicate Loop(word: seq<ChangeKind>) {
    word == [] || (word[0] == Promotion && (|word| == 1 || (word[1] == AutoRollback && Loop(word[2..]))))
  }

  /** The same words without recursion: one phase advance, first, and after it the two others in turn. */
  predicate Alternates(word: seq<ChangeKind>) {
    && (word != [] ==> word[0] == PhaseAdvance)
    && (forall i :: 0 < i < |word| ==> word[i] != PhaseAdvance && word[i] != word[i - 1])
  }

  predicate Turns(word: seq<ChangeKind>) {
    && (forall i :: 0 <= i < |word| ==> word[i] != PhaseAdvance)
    && (forall i :: 0 < i < |word| ==> word[i] != word[i - 1])
  }

  lemma {:induction false} LoopIsTurns(word: seq<ChangeKind>)
    ensures Loop(word) <==> Turns(word) && (word != [] ==> word[0] == Promotion)
  {
    if |word| >= 2 {
      LoopIsTurns(word[2..]);
      assert forall i :: 0 <= i < |word[2..]| ==> word[2..][i] == word[i + 2];
      if Loop(word) {
        forall i | 0 <= i < |word| ensures word[i] != PhaseAdvance && (i > 0 ==> word[i] != word[i - 1]) {
          if i >= 2 {
            assert word[i] == word[2..][i - 2];
            if i > 2 { assert word[i - 1] == word[2..][i - 3]; }
          }
        }
      }
    }
  }

  lemma LanguageIsAlternation(word: seq<ChangeKind>)
    ensures InLanguage(word) <==> Alternates(word)
  {
    if word != [] {
      LoopIsTurns(word[1..]);
      if |word| > 1 { LoopIsTurns(word[2..]); }
      if Alternates(word) && |word| > 1 {
        var k := if word[1] == Promotion then 1 else 2;
        forall i | 0 <= i < |word[k..]|
          ensures word[k..][i] != PhaseAdvance && (i > 0 ==> word[k..][i] != word[k..][i - 1])
        {
          assert word[k..][i] == word[i + k];
        }
      }
      if InLanguage(word) {
        var k := if Loop(word[1..]) then 1 else 2;
        forall i | 0 < i < |word| ensures word[i] != PhaseAdvance && word[i] != word[i - 1] {
          if i >= k {
            assert word[i] == word[k..][i - k];
            if i > k { assert word[i - 1] == word[k..][i - k - 1]; }
          }
        }
      }
    }
  }

  /** The (phase, default) that the entries lead to from the seed row's. */
  function Replay(log: seq<Change>): (Phase, Variant) {
    if log == [] then (SEED_ROW.phase, SEED_ROW.default)
    else
      var next := log[|log| - 1].next;
      (next.phase, if next.default.Some? then next.default.value else Replay(log[..|log| - 1]).1)
  }

  /** Each entry's previous value is what the entries before it lead to. */
  predicate Chained(log: seq<Change>) {
    forall i :: 0 <= i < |log| ==>
      var before, previous := Replay(log[..i]), log[i].previous;
      previous.phase == before.0 && (previous.default.Some? ==> previous.default.value == before.1)
  }

  lemma ReplayAppend(log: seq<Change>, c: Change)
    ensures Replay(log + [c]) == (c.next.phase, if c.next.default.Some? then c.next.default.value else Replay(log).1)
    ensures Chained(log) && c.previous.phase == Replay(log).0
         && (c.previous.default.Some? ==> c.previous.default.value == Replay(log).1)
         ==> Chained(log + [c])
  {
    var all := log + [c];
    assert all[..|log|] == log;
    forall i | 0 <= i < |log| ensures all[..i] == log[..i] { }
  }

  // ----- The invariant -----

  function Exposures(db: Db, w: string, v: Variant): nat {
    if (w, v) in db.metrics then db.metrics[(w, v)].exposures else 0
  }

  function RowOf(db: Db, w: string): Row {
    if w in db.rollouts then db.rollouts[w] else SEED_ROW
  }

  /** The columns that no operation but a health evaluation changes. */
  predicate SameMode(row: Row, other: Row) {
    row == other.(active := row.active, previousStable := row.previousStable, version := row.version)
  }

  predicate SeededLimits(row: Row) {
    SameMode(row, SEED_ROW.(phase := row.phase, default := row.default))
  }

  function PhaseAfter(kind: ChangeKind): Phase {
    match kind
    case PhaseAdvance => Canary
    case AutoRollback => Shadow
    case Promotion => Full
  }

  ghost predicate TwiceApproved(approvals: seq<Approval>, w: string) {
    exists r :: r != "" && Tally(approvals, w, r, Approved) >= 2
  }

  /** What holds between a workflow's row, its changelog, its two exposure counts and the ledger. */
  ghost predicate Consistent(row: Row, log: seq<Change>, control: nat, candidate: nat, approved: bool) {
    var word := Kinds(log);
    && Alternates(word)
    && Chained(log)
    && (forall i :: 0 <= i < |log| ==> log[i].next.phase == PhaseAfter(log[i].kind))
    && SeededLimits(row)
    && Replay(log) == (row.phase, row.default)
    && row.phase == (if log == [] then Shadow else PhaseAfter(log[|log| - 1].kind))
    && row.default == (if row.phase == Full then B else A)
    && (log == [] ==> candidate == 0)
    && (log != [] ==> control >= 20)
    && (|log| > 1 ==> candidate >= 10)
    && (Promotion in word ==> candidate >= 25 && approved)
  }

  ghost predicate WorkflowOk(db: Db, w: string) {
    && Consistent(RowOf(db, w), For(db.changelog, w), Exposures(db, w, A), Exposures(db, w, B),
                  TwiceApproved(db.approvals, w))
    && (w !in db.rollouts ==> Exposures(db, w, A) == Exposures(db, w, B) == 0)
  }

  /** Every assignment has a rollout row and a metrics row, and no metrics row is at zero exposures. */
  ghost predicate AssignmentsOk(db: Db) {
    && (forall a :: a in db.assignments ==> a.workflow in db.rollouts && (a.workflow, a.effective) in db.metrics)
    && (forall key :: key in db.metrics ==> db.metrics[key].exposures > 0)
  }

  ghost predicate Inv(db: Db) {
    AssignmentsOk(db) && forall w :: WorkflowOk(db, w)
  }

  /** Counting more, approving more and moving release pointers keep a workflow consistent. */
  lemma GrowthKeepsConsistent(row: Row, next: Row, log: seq<Change>, c0: nat, c1: nat, t0: nat, t1: nat, p0: bool,
          p1: bool)
    requires Consistent(row, log, c0, t0, p0)
    requires SameMode(next, row)
    requires c0 <= c1 && t0 <= t1 && (p0 ==> p1)
    requires log == [] ==> t1 == 0
    ensures Consistent(next, log, c1, t1, p1)
  {
  }

  lemma AlternatesAppend(word: seq<ChangeKind>, kind: ChangeKind)
    requires Alternates(word)
    requires if word == [] then kind == PhaseAdvance else kind != PhaseAdvance && kind != word[|word| - 1]
    ensures Alternates(word + [kind])
  {
  }

  /** A decided change extends the changelog within the language. */
  lemma ChangeKeepsConsistent(row: Row, w: string, log: seq<Change>, control: nat, candidate: nat, p: bool,
          kind: ChangeKind)
    requires Consistent(row, log, control, candidate, p)
    requires kind == PhaseAdvance ==> row.phase == Shadow && control >= 20 && candidate < 10
    requires kind == AutoRollback ==> row.phase != Shadow && candidate >= 10
    requires kind == Promotion ==> row.default == A && candidate >= 25 && p
    ensures Consistent(Changed(row, kind), log + [Entry(w, row, kind)], control, candidate, p)
  {
    var entry := Entry(w, row, kind);
    ReplayAppend(log, entry);
    var word := Kinds(log);
    if log != [] { assert word[|word| - 1] == log[|log| - 1].kind; }
    AlternatesAppend(word, kind);
    assert Kinds(log + [entry]) == word + [kind];
  }

  lemma TallyGrows(approvals: seq<Approval>, a: Approval, w: string, r: string, verdict: Verdict)
    ensures Tally(approvals + [a], w, r, verdict) >= Tally(approvals, w, r, verdict)
  {
    assert (approvals + [a])[..|approvals|] == approvals;
  }

  /** What a decision says about the row and the counts, whatever the rates are. */
  ghost predicate Warranted(db: Db, w: string, kind: ChangeKind)
    requires w in db.rollouts
  {
    var row, control, candidate := db.rollouts[w], Exposures(db, w, A), Exposures(db, w, B);
    match kind
    case PhaseAdvance => row.phase == Shadow && control >= 20 && candidate < 10
    case AutoRollback => row.phase != Shadow && candidate >= 10
    case Promotion => row.default == A && candidate >= 25 && TwiceApproved(db.approvals, w)
  }

  lemma DecisionIsWarranted(db: Db, w: string)
    requires Decide(db, w).Some?
    ensures Warranted(db, w, Decide(db, w).value)
  {
  }

  lemma ViewDecides(db: Db, w: string, row: Row, log: seq<Change>, control: nat, candidate: nat, approved: bool)
    requires w in db.rollouts && db.rollouts[w] == row && For(db.changelog, w) == log
    requires Exposures(db, w, A) == control && Exposures(db, w, B) == candidate
        && TwiceApproved(db.approvals, w) == approved
    requires Consistent(row, log, control, candidate, approved)
    ensures WorkflowOk(db, w)
  {
  }

  lemma ApplyKeepsItsWorkflow(db: Db, w: string, kind: ChangeKind)
    requires WorkflowOk(db, w) && w in db.rollouts && Warranted(db, w, kind)
    ensures WorkflowOk(Apply(db, w, kind), w)
  {
    var row, log := db.rollouts[w], For(db.changelog, w);
    var control, candidate, approved := Exposures(db, w, A), Exposures(db, w, B), TwiceApproved(db.approvals, w);
    ChangeKeepsConsistent(row, w, log, control, candidate, approved, kind);
    ForAppend(db.changelog, Entry(w, row, kind), w);
    ViewDecides(Apply(db, w, kind), w, Changed(row, kind), log + [Entry(w, row, kind)], control, candidate, approved);
  }

  lemma SameViewKeepsWorkflow(db: Db, after: Db, x: string)
    requires WorkflowOk(db, x)
    requires RowOf(after, x) == RowOf(db, x) && For(after.changelog, x) == For(db.changelog, x)
    requires after.metrics == db.metrics && after.approvals == db.approvals && db.rollouts.Keys <= after.rollouts.Keys
    ensures WorkflowOk(after, x)
  {
    assert Exposures(after, x, A) == Exposures(db, x, A) && Exposures(after, x, B) == Exposures(db, x, B);
  }

  lemma ApplyKeepsOthers(db: Db, w: string, kind: ChangeKind, x: string)
    requires WorkflowOk(db, x) && w in db.rollouts && x != w
    ensures WorkflowOk(Apply(db, w, kind), x)
  {
    ForAppend(db.changelog, Entry(w, db.rollouts[w], kind), x);
    assert For(db.changelog, x) + [] == For(db.changelog, x);
    SameViewKeepsWorkflow(db, Apply(db, w, kind), x);
  }

  lemma ApplyKeepsInv(db: Db, w: string, kind: ChangeKind)
    requires Inv(db) && w in db.rollouts && Warranted(db, w, kind)
    ensures Inv(Apply(db, w, kind))
  {
    forall x ensures WorkflowOk(Apply(db, w, kind), x) {
      if x == w { ApplyKeepsItsWorkflow(db, w, kind); } else { ApplyKeepsOthers(db, w, kind, x); }
    }
  }

  lemma EvaluateKeepsInv(db: Db, w: string)
    requires Inv(db)
    ensures Inv(Evaluate(db, w))
  {
    if Decide(db, w).Some? {
      DecisionIsWarranted(db, w);
      ApplyKeepsInv(db, w, Decide(db, w).value);
    }
  }

  /** Counting exposures keeps the invariant; a first B row needs a changelog that is not empty. */
  lemma UpsertKeepsInv(db: Db, key: (string, Variant), first: Metrics, more: Metrics)
    requires Inv(db) && key.0 in db.rollouts
    requires more.exposures > 0 && (key !in db.metrics ==> first.exposures > 0)
    requires key.1 == B && key !in db.metrics ==> For(db.changelog, key.0) != []
    ensures Inv(db.(metrics := UpsertMetrics(db.metrics, key, first, more)))
  {
    var after := db.(metrics := UpsertMetrics(db.metrics, key, first, more));
    forall x ensures WorkflowOk(after, x) {
      assert WorkflowOk(db, x);
      assert Exposures(after, x, A) >= Exposures(db, x, A) && Exposures(after, x, B) >= Exposures(db, x, B);
      GrowthKeepsConsistent(RowOf(db, x), RowOf(after, x), For(db.changelog, x),
                            Exposures(db, x, A), Exposures(after, x, A), Exposures(db, x, B), Exposures(after, x, B),
                            TwiceApproved(db.approvals, x), TwiceApproved(after.approvals, x));
    }
  }

  lemma CreditKeepsInv(db: Db, a: Assignment, gain: Metrics)
    requires Inv(db) && a in db.assignments && gain.exposures > 0
    ensures Inv(Credit(db, a, gain))
  {
    var key := (a.workflow, a.effective);
    UpsertKeepsInv(db, key, gain.(exposures := 0), gain);
    EvaluateKeepsInv(db.(metrics := UpsertMetrics(db.metrics, key, gain.(exposures := 0), gain)), a.workflow);
  }

  lemma SeedKeepsInv(db: Db, w: string)
    requires Inv(db)
    ensures Inv(GetOrCreate(db, w))
  {
    forall x ensures WorkflowOk(GetOrCreate(db, w), x) { assert WorkflowOk(db, x); }
  }

  lemma AssignmentKeepsInv(db: Db, row: Assignment)
    requires Inv(db) && row.workflow in db.rollouts && (row.workflow, row.effective) in db.metrics
    ensures Inv(db.(assignments := UpsertAssignment(db.assignments, row)))
  {
    forall x ensures WorkflowOk(db.(assignments := UpsertAssignment(db.assignments, row)), x) {
      assert WorkflowOk(db, x);
    }
  }

  lemma AssignKeepsInv(db: Db, run: string, w: string, prefix: Prefix)
    requires Inv(db)
    ensures Inv(AssignVariant(db, run, w, prefix))
  {
    SeedKeepsInv(db, w);
    var created := GetOrCreate(db, w);
    var row := created.rollouts[w];
    var v, one := Effective(row, prefix), ZERO.(exposures := 1);
    assert v == B ==> For(created.changelog, w) != [] by { assert WorkflowOk(created, w); }
    UpsertKeepsInv(created, (w, v), one, one);
    AssignmentKeepsInv(created.(metrics := UpsertMetrics(created.metrics, (w, v), one, one)),
                       Assignment(run, w, Bucket(prefix), v, row.phase));
  }

  lemma RegisterKeepsInv(db: Db, id: string, w: string, version: string, status: ReleaseStatus, note: string)
    requires Inv(db)
    ensures Inv(RegisterRelease(db, id, w, version, status, note))
  {
    if ReleaseAccepted(status, note) {
      SeedKeepsInv(db, w);
      var created, after := GetOrCreate(db, w), RegisterRelease(db, id, w, version, status, note);
      forall x ensures WorkflowOk(after, x) {
        assert WorkflowOk(created, x);
        PointersKeepWorkflow(created, after, x);
      }
    }
  }

  lemma PointersKeepWorkflow(db: Db, after: Db, x: string)
    requires WorkflowOk(db, x)
    requires after.metrics == db.metrics && after.changelog == db.changelog && after.approvals == db.approvals
    requires SameMode(RowOf(after, x), RowOf(db, x)) && db.rollouts.Keys <= after.rollouts.Keys
    ensures WorkflowOk(after, x)
  {
    GrowthKeepsConsistent(RowOf(db, x), RowOf(after, x), For(db.changelog, x),
                          Exposures(db, x, A), Exposures(after, x, A), Exposures(db, x, B), Exposures(after, x, B),
                          TwiceApproved(db.approvals, x), TwiceApproved(after.approvals, x));
  }

  lemma ApproveKeepsInv(db: Db, w: string, release: string, approver: string, verdict: Verdict)
    requires Inv(db)
    ensures Inv(RecordApproval(db, w, release, approver, verdict))
  {
    var after := RecordApproval(db, w, release, approver, verdict);
    forall x ensures WorkflowOk(after, x) {
      assert WorkflowOk(db, x);
      if TwiceApproved(db.approvals, x) && !verdict.OtherVerdict? {
        var r :| r != "" && Tally(db.approvals, x, r, Approved) >= 2;
        TallyGrows(db.approvals, Approval(w, release, approver, verdict), x, r, Approved);
      }
    }
  }

  lemma StepKeepsInv(db: Db, op: Op)
    requires Inv(db)
    ensures Inv(Step(db, op))
  {
    match op
    case Assign(run, w, prefix) => AssignKeepsInv(db, run, w, prefix);
    case Outcome(run, reply, meeting, success) =>
      var a := LatestAssignment(db.assignments, run);
      if a.Some? { CreditKeepsInv(db, a.value, OutcomeGain(reply, meeting, success)); }
    case Rejection(action) =>
      if action in db.actions {
        var a := LatestAssignment(db.assignments, db.actions[action]);
        if a.Some? { CreditKeepsInv(db, a.value, REJECTION_GAIN); }
      }
    case NewAction(action, run) =>
      forall w ensures WorkflowOk(Step(db, op), w) { assert WorkflowOk(db, w); }
    case Register(id, w, version, status, note) => RegisterKeepsInv(db, id, w, version, status, note);
    case Approve(w, release, approver, verdict) => ApproveKeepsInv(db, w, release, approver, verdict);
  }

  lemma {:induction false} RunKeepsInv(ops: seq<Op>)
    ensures Inv(Run(EMPTY_DB, ops))
  {
    if ops != [] {
      RunKeepsInv(ops[..|ops| - 1]);
      StepKeepsInv(Run(EMPTY_DB, ops[..|ops| - 1]), ops[|ops| - 1]);
    }
  }
}
