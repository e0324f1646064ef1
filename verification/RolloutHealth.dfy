/**
 What a health evaluation of a workflow does, in terms of the columns of its row, its two metrics
 rows and the approvals, and that it neither flaps nor promotes what it should not.
 */
module RolloutHealth {
  import opened Options
  import opened Rollout
  import opened RolloutRuns

  // ----- The three changes, exactly -----

  /** By how much `x` of `n` exposures are more often than `y` of `m`; no exposure counts as one. */
  function Lead(x: nat, n: nat, y: nat, m: nat): real {
    x as real / (if n == 0 then 1.0 else n as real) - y as real / (if m == 0 then 1.0 else m as real)
  }

  /** Some rate of the candidate `b` falls short of the control `a` by more than its own threshold column. */
  predicate FallsShort(row: Row, a: Metrics, b: Metrics) {
    || Lead(a.replies, a.exposures, b.replies, b.exposures) > row.replyLimit
    || Lead(a.meetings, a.exposures, b.meetings, b.exposures) > row.meetingLimit
    || Lead(a.successes, a.exposures, b.successes, b.exposures) > row.executionLimit
    || Lead(b.rejections, b.exposures, a.rejections, a.exposures) > row.rejectionLimit
  }

  /** No rate of the candidate `b` is worse than that of the control `a`. */
  predicate NowhereWorse(a: Metrics, b: Metrics) {
    && Lead(a.replies, a.exposures, b.replies, b.exposures) <= 0.0
    && Lead(a.meetings, a.exposures, b.meetings, b.exposures) <= 0.0
    && Lead(a.successes, a.exposures, b.successes, b.exposures) <= 0.0
    && Lead(b.rejections, b.exposures, a.rejections, a.exposures) <= 0.0
  }

  /** The approvals of a release of a workflow with that verdict, by their positions in the ledger. */
  function Votes(approvals: seq<Approval>, w: string, release: string, verdict: Verdict): set<int> {
    set i | 0 <= i < |approvals| && approvals[i].workflow == w && approvals[i].release == release
            && approvals[i].verdict == verdict
  }

  /** Two approvals and no rejection. */
  predicate Endorsed(approvals: seq<Approval>, w: string, release: string) {
    |Votes(approvals, w, release, Approved)| >= 2 && Votes(approvals, w, release, Rejected) == {}
  }

  lemma LastVote(approvals: seq<Approval>, w: string, release: string, verdict: Verdict)
    requires approvals != []
    ensures var n, last := |approvals| - 1, approvals[|approvals| - 1];
            var earlier, own := Votes(approvals[..n], w, release, verdict),
                                last.workflow == w && last.release == release && last.verdict == verdict;
            |Votes(approvals, w, release, verdict)| == if own then |earlier| + 1 else |earlier|
  {
    var n := |approvals| - 1;
    var earlier, all := Votes(approvals[..n], w, release, verdict), Votes(approvals, w, release, verdict);
    forall i ensures i in earlier <==> i in all && i != n {
      if 0 <= i < n { assert approvals[..n][i] == approvals[i]; }
    }
    assert earlier == all - {n};
  }

  lemma {:induction false} TallyCountsVotes(approvals: seq<Approval>, w: string, release: string, verdict: Verdict)
    ensures Tally(approvals, w, release, verdict) == |Votes(approvals, w, release, verdict)|
  {
    if approvals != [] {
      TallyCountsVotes(approvals[..|approvals| - 1], w, release, verdict);
      LastVote(approvals, w, release, verdict);
    }
  }

  /** B has been exposed often enough to be judged. */
  predicate Judged(db: Db, w: string) {
    (w, A) in db.metrics && (w, B) in db.metrics && db.metrics[(w, B)].exposures >= 10
  }

  predicate Advances(db: Db, w: string)
    requires w in db.rollouts
  {
    && db.rollouts[w].phase == Shadow
    && (w, A) in db.metrics && db.metrics[(w, A)].exposures >= 20
    && ((w, B) in db.metrics ==> db.metrics[(w, B)].exposures < 10)
  }

  predicate RollsBack(db: Db, w: string)
    requires w in db.rollouts
  {
    && Judged(db, w) && db.rollouts[w].phase != Shadow
    && FallsShort(db.rollouts[w], db.metrics[(w, A)], db.metrics[(w, B)])
  }

  predicate Promotes(db: Db, w: string)
    requires w in db.rollouts
  {
    var row := db.rollouts[w];
    && Judged(db, w) && db.metrics[(w, B)].exposures >= 25
    && !RollsBack(db, w) && NowhereWorse(db.metrics[(w, A)], db.metrics[(w, B)])
    && row.default == A && row.active != "" && Endorsed(db.approvals, w, row.active)
  }

  /** A changed row and its changelog entry, and nothing else. */
  predicate Becomes(db: Db, after: Db, w: string, row: Row, change: Change) {
    after == db.(rollouts := db.rollouts[w := row], changelog := db.changelog + [change])
  }

  lemma JudgedRatesAreLeads(row: Row, a: Metrics, b: Metrics)
    ensures Degraded(row, a, b) <==> FallsShort(row, a, b)
    ensures Better(a, b) <==> NowhereWorse(a, b)
  {
  }

  lemma EndorsedByTally(approvals: seq<Approval>, w: string, release: string)
    ensures Endorsed(approvals, w, release)
       <==> Tally(approvals, w, release, Approved) >= 2 && Tally(approvals, w, release, Rejected) == 0
  {
    TallyCountsVotes(approvals, w, release, Approved);
    TallyCountsVotes(approvals, w, release, Rejected);
  }

  /** The whole effect of an evaluation: one of three changes, each with its entry, or none. */
  lemma EvaluationExactly(db: Db, w: string)
    requires w in db.rollouts
    ensures var row, after := db.rollouts[w], Evaluate(db, w);
            if Advances(db, w) then
              Becomes(db, after, w, row.(phase := Canary),
                      Change(w, PhaseAdvance, Mark(Shadow, None), Mark(Canary, None)))
            else if RollsBack(db, w) then
              Becomes(db, after, w,
                      row.(phase := Shadow, default := A,
                           active := if row.previousStable != "" then row.previousStable else row.active),
                      Change(w, AutoRollback, Mark(row.phase, Some(row.default)), Mark(Shadow, Some(A))))
            else if Promotes(db, w) then
              Becomes(db, after, w, row.(phase := Full, default := B),
                      Change(w, Promotion, Mark(row.phase, Some(A)), Mark(Full, Some(B))))
            else after == db
  {
    hide Degraded, Better, FallsShort, NowhereWorse, Endorsed, Tally;
    var row := db.rollouts[w];
    EndorsedByTally(db.approvals, w, row.active);
    if Judged(db, w) { JudgedRatesAreLeads(row, db.metrics[(w, A)], db.metrics[(w, B)]); }
  }

  lemma EvaluationOfUnknown(db: Db, w: string)
    requires w !in db.rollouts
    ensures Evaluate(db, w) == db
  {
  }

  /**
   Outside shadow, with B exposed often enough, a row is rolled back exactly if one of the four rates
   falls short by more than its own threshold.
   */
  lemma RollbackExactly(db: Db, w: string)
    requires w in db.rollouts && db.rollouts[w].phase != Shadow
    requires (w, A) in db.metrics && (w, B) in db.metrics && db.metrics[(w, B)].exposures >= 10
    ensures var row, after, a, b := db.rollouts[w], Evaluate(db, w), db.metrics[(w, A)], db.metrics[(w, B)];
            var n, m := if a.exposures == 0 then 1.0 else a.exposures as real, b.exposures as real;
            && w in after.rollouts
            && (after.rollouts[w].phase == Shadow && after.rollouts[w].default == A
                <==> || a.replies as real / n - b.replies as real / m > row.replyLimit
                     || a.meetings as real / n - b.meetings as real / m > row.meetingLimit
                     || a.successes as real / n - b.successes as real / m > row.executionLimit
                     || b.rejections as real / m - a.rejections as real / n > row.rejectionLimit)
  {
    EvaluationExactly(db, w);
  }

  /** A shadow row becomes canary exactly if A has twenty exposures and B is missing or below ten. */
  lemma AdvanceExactly(db: Db, w: string)
    requires w in db.rollouts && db.rollouts[w].phase == Shadow
    ensures var after := Evaluate(db, w);
            && w in after.rollouts
            && (after.rollouts[w].phase == Canary
                <==> && (w, A) in db.metrics && db.metrics[(w, A)].exposures >= 20
                     && ((w, B) !in db.metrics || db.metrics[(w, B)].exposures < 10))
  {
    EvaluationExactly(db, w);
  }

  // ----- Health evaluation does not flap -----

  predicate NonNegativeLimits(row: Row) {
    row.replyLimit >= 0.0 && row.meetingLimit >= 0.0 && row.executionLimit >= 0.0 && row.rejectionLimit >= 0.0
  }

  /** No candidate can both fall short somewhere and be nowhere worse exactly when no limit is negative. */
  lemma DegradedExcludesBetter(row: Row)
    ensures NonNegativeLimits(row)
       <==> forall control, candidate :: !(FallsShort(row, control, candidate) && NowhereWorse(control, candidate))
  {
    if !NonNegativeLimits(row) {
      assert FallsShort(row, ZERO, ZERO) && NowhereWorse(ZERO, ZERO);
    }
  }

  /** Evaluating again with unchanged metrics and approvals changes nothing. */
  lemma EvaluationIsIdempotent(db: Db, w: string)
    requires w in db.rollouts ==> NonNegativeLimits(db.rollouts[w])
    ensures Evaluate(Evaluate(db, w), w) == Evaluate(db, w)
  {
    hide Evaluate, Endorsed;
    if w in db.rollouts {
      EvaluationExactly(db, w);
      EvaluationExactly(Evaluate(db, w), w);
      DegradedExcludesBetter(db.rollouts[w]);
      if Judged(db, w) {
        assert !(FallsShort(db.rollouts[w], db.metrics[(w, A)], db.metrics[(w, B)])
                 && NowhereWorse(db.metrics[(w, A)], db.metrics[(w, B)]));
      }
    } else {
      EvaluationOfUnknown(db, w);
    }
  }

  predicate SameLimits(row: Row, other: Row) {
    && row.replyLimit == other.replyLimit && row.meetingLimit == other.meetingLimit
    && row.executionLimit == other.executionLimit && row.rejectionLimit == other.rejectionLimit
  }

  /** With a negative limit a rollback is undone by the next evaluation. */
  lemma NegativeLimitFlaps(row: Row, w: string) returns (db: Db)
    requires !NonNegativeLimits(row)
    ensures w in db.rollouts && SameLimits(db.rollouts[w], row)
    ensures Evaluate(Evaluate(db, w), w) != Evaluate(db, w)
  {
    var m, vote := ZERO.(exposures := 25), Approval(w, "r", "x", Approved);
    db := EMPTY_DB.(
      rollouts := map[w := row.(phase := Canary, default := A, active := "r", previousStable := "")],
      metrics := map[(w, A) := m, (w, B) := m],
      approvals := [vote, vote]);
    assert Degraded(row, m, m) && Better(m, m);
    assert [vote, vote][..1] == [vote] && [vote][..0] == [];
    assert Tally([vote], w, "r", Approved) == 1 && Tally([vote], w, "r", Rejected) == 0;
    assert Tally(db.approvals, w, "r", Approved) == 2 && Tally(db.approvals, w, "r", Rejected) == 0;
    assert Decide(db, w) == Some(AutoRollback);
    assert Decide(Evaluate(db, w), w) == Some(Promotion);
  }

  /** Health evaluation never flaps under a row's limits exactly when none of them is negative. */
  lemma EvaluationStableExactly(row: Row)
    ensures NonNegativeLimits(row)
       <==> forall db: Db, w :: w in db.rollouts && SameLimits(db.rollouts[w], row) ==>
              Evaluate(Evaluate(db, w), w) == Evaluate(db, w)
  {
    if NonNegativeLimits(row) {
      forall db: Db, w | w in db.rollouts && SameLimits(db.rollouts[w], row)
        ensures Evaluate(Evaluate(db, w), w) == Evaluate(db, w)
      {
        EvaluationIsIdempotent(db, w);
      }
    } else {
      var db := NegativeLimitFlaps(row, "w");
      assert "w" in db.rollouts;
    }
  }

  /**
   The candidate of `w` is measured often enough, at least as good as the control everywhere, not
   degraded, and the active release has two approvals and no rejection.
   */
  ghost predicate Promotable(db: Db, w: string) {
    && w in db.rollouts && (w, A) in db.metrics && (w, B) in db.metrics && db.metrics[(w, B)].exposures >= 25
    && !FallsShort(db.rollouts[w], db.metrics[(w, A)], db.metrics[(w, B)])
    && NowhereWorse(db.metrics[(w, A)], db.metrics[(w, B)])
    && db.rollouts[w].active != "" && Endorsed(db.approvals, w, db.rollouts[w].active)
  }

  /** An evaluation makes B the default exactly for a promotable candidate, which promotion leaves promotable. */
  lemma PromotionExactly(db: Db, w: string)
    requires RowOf(db, w).default == A && NonNegativeLimits(RowOf(db, w))
    ensures RowOf(Evaluate(db, w), w).default == B <==> Promotable(db, w)
    ensures RowOf(Evaluate(db, w), w).default == B ==> Promotable(Evaluate(db, w), w)
  {
    hide Evaluate, Endorsed;
    DegradedExcludesBetter(RowOf(db, w));
    if w in db.rollouts { EvaluationExactly(db, w); } else { EvaluationOfUnknown(db, w); }
    if Judged(db, w) {
      assert !(FallsShort(RowOf(db, w), db.metrics[(w, A)], db.metrics[(w, B)])
               && NowhereWorse(db.metrics[(w, A)], db.metrics[(w, B)]));
    }
  }

  lemma EvaluateLeavesOthers(db: Db, x: string, w: string)
    requires x != w
    ensures RowOf(Evaluate(db, x), w) == RowOf(db, w)
  {
  }

  lemma CreditPromotes(db: Db, a: Assignment, gain: Metrics, w: string)
    requires RowOf(db, w).default == A && NonNegativeLimits(RowOf(db, w))
    ensures RowOf(Credit(db, a, gain), w).default == B ==> Promotable(Credit(db, a, gain), w)
  {
    var key := (a.workflow, a.effective);
    var mid := db.(metrics := UpsertMetrics(db.metrics, key, gain.(exposures := 0), gain));
    if a.workflow == w { PromotionExactly(mid, w); } else { EvaluateLeavesOthers(mid, a.workflow, w); }
  }

  lemma RegisterKeepsDefault(db: Db, id: string, x: string, version: string, status: ReleaseStatus, note: string,
          w: string)
    ensures RowOf(RegisterRelease(db, id, x, version, status, note), w).default == RowOf(db, w).default
  {
  }

  /** An operation makes B the default only for a promotable candidate, in shadow (which skips rollback) too. */
  lemma NoDegradedPromotion(db: Db, op: Op, w: string)
    requires RowOf(db, w).default == A && NonNegativeLimits(RowOf(db, w))
    ensures RowOf(Step(db, op), w).default == B ==> Promotable(Step(db, op), w)
  {
    match op
    case Outcome(run, reply, meeting, success) =>
      var a := LatestAssignment(db.assignments, run);
      if a.Some? { CreditPromotes(db, a.value, OutcomeGain(reply, meeting, success), w); }
    case Rejection(action) =>
      if action in db.actions {
        var a := LatestAssignment(db.assignments, db.actions[action]);
        if a.Some? { CreditPromotes(db, a.value, REJECTION_GAIN, w); }
      }
    case Register(id, x, version, status, note) => RegisterKeepsDefault(db, id, x, version, status, note, w);
    case _ =>
  }

  /** No operation writes a limit or the canary share: every reachable row has those that it was seeded with. */
  lemma ReachableLimits(ops: seq<Op>, w: string)
    ensures var row := RowOf(Run(EMPTY_DB, ops), w);
            && row.canaryPercent == 0.1 && row.replyLimit == 0.05 && row.meetingLimit == 0.03
            && row.executionLimit == 0.05 && row.rejectionLimit == 0.05
  {
    RunKeepsInv(ops);
    assert WorkflowOk(Run(EMPTY_DB, ops), w);
  }

  /** So over every run from empty tables the health evaluation is idempotent. */
  lemma ReachableEvaluationIsIdempotent(ops: seq<Op>, w: string)
    ensures var db := Run(EMPTY_DB, ops);
            Evaluate(Evaluate(db, w), w) == Evaluate(db, w)
  {
    ReachableLimits(ops, w);
    EvaluationIsIdempotent(Run(EMPTY_DB, ops), w);
  }

  /**
   And after every run an operation makes B the default only for a promotable candidate, an
   evaluation exactly for one.
   */
  lemma ReachablePromotionIsEarned(ops: seq<Op>, op: Op, w: string)
    requires RowOf(Run(EMPTY_DB, ops), w).default == A
    ensures var db := Run(EMPTY_DB, ops);
            && (RowOf(Step(db, op), w).default == B ==> Promotable(Step(db, op), w))
            && (RowOf(Evaluate(db, w), w).default == B <==> Promotable(db, w))
  {
    ReachableLimits(ops, w);
    NoDegradedPromotion(Run(EMPTY_DB, ops), op, w);
    PromotionExactly(Run(EMPTY_DB, ops), w);
  }
}
