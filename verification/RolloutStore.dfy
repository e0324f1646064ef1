/**
 The rollout tables as fields that the repository's operations overwrite in place, each
 operation proved to do to the tables what the function of the same name in `Rollout` says.
 */
module RolloutStore {
  import opened Options
  import opened Rollout

  class RolloutRepository {
    var assignments: seq<Assignment>
    var metrics: map<(string, Variant), Metrics>
    var rollouts: map<string, Row>
    var releases: seq<Release>
    var approvals: seq<Approval>
    var changelog: seq<Change>
    var actions: map<string, string>

    function Contents(): Db
      reads this
    {
      Db(assignments, metrics, rollouts, releases, approvals, changelog, actions)
    }

    constructor ()
      ensures Contents() == EMPTY_DB
    {
      assignments, metrics, rollouts := [], map[], map[];
      releases, approvals, changelog, actions := [], [], [], map[];
    }

    method GetOrCreateRollout(w: string) returns (row: Row)
      modifies this`rollouts
      ensures Contents() == GetOrCreate(old(Contents()), w)
      ensures w in rollouts && row == rollouts[w]
    {
      if w !in rollouts {
        rollouts := rollouts[w := SEED_ROW];
      }
      row := rollouts[w];
    }

    /** The row with the new serving goes where the run's old row is, or to the end. */
    method StoreAssignment(row: Assignment)
      modifies this`assignments
      ensures assignments == UpsertAssignment(old(assignments), row)
    {
      var i := 0;
      while i < |assignments| && !(assignments[i].run == row.run && assignments[i].workflow == row.workflow)
        invariant 0 <= i <= |assignments|
        invariant forall j :: 0 <= j < i ==> !(assignments[j].run == row.run && assignments[j].workflow == row.workflow)
      {
        i := i + 1;
      }
      if i < |assignments| {
        assignments := assignments[i := row];
      } else {
        assignments := assignments + [row];
      }
    }

    method Count(w: string, v: Variant, first: Metrics, more: Metrics)
      modifies this`metrics
      ensures metrics == UpsertMetrics(old(metrics), (w, v), first, more)
    {
      if (w, v) in metrics {
        metrics := metrics[(w, v) := Plus(metrics[(w, v)], more)];
      } else {
        metrics := metrics[(w, v) := first];
      }
    }

    method AssignVariant(run: string, w: string, prefix: Prefix) returns (bucket: Variant, effective: Variant,
            phase: Phase)
      modifies this
      ensures Contents() == Rollout.AssignVariant(old(Contents()), run, w, prefix)
      ensures w in rollouts && phase == rollouts[w].phase && effective == Effective(rollouts[w], prefix)
      ensures bucket == Bucket(prefix)
    {
      var row := GetOrCreateRollout(w);
      bucket := if Score(prefix) < 0.5 then A else B;
      phase := row.phase;
      match phase {
        case Shadow => effective := row.default;
        case Canary => effective := if Score(prefix) < row.canaryPercent then B else A;
        case Full => effective := B;
        case OtherPhase(_) => effective := A;
      }
      StoreAssignment(Assignment(run, w, bucket, effective, phase));
      Count(w, effective, ZERO.(exposures := 1), ZERO.(exposures := 1));
    }

    /** Scan from the newest row. */
    method FindLatestAssignment(run: string) returns (r: Option<Assignment>)
      ensures r == LatestAssignment(assignments, run)
    {
      var i := |assignments|;
      while i > 0 && assignments[i - 1].run != run
        invariant 0 <= i <= |assignments|
        invariant forall j :: i <= j < |assignments| ==> assignments[j].run != run
      {
        i := i - 1;
      }
      r := if i == 0 then None else Some(assignments[i - 1]);
    }

    method RecordOutcomeMetrics(run: string, reply: bool, meeting: bool, success: bool)
      modifies this
      ensures Contents() == RecordOutcome(old(Contents()), run, reply, meeting, success)
    {
      var row := FindLatestAssignment(run);
      if row.None? {
        return;
      }
      var gain := OutcomeGain(reply, meeting, success);
      Count(row.value.workflow, row.value.effective, gain.(exposures := 0), gain);
      EvaluateRolloutHealth(row.value.workflow);
    }

    method RecordRejection(action: string)
      modifies this
      ensures Contents() == Rollout.RecordRejection(old(Contents()), action)
    {
      if action !in actions {
        return;
      }
      var row := FindLatestAssignment(actions[action]);
      if row.None? {
        return;
      }
      Count(row.value.workflow, row.value.effective, REJECTION_GAIN.(exposures := 0), REJECTION_GAIN);
      EvaluateRolloutHealth(row.value.workflow);
    }

    method RegisterPromptRelease(id: string, w: string, version: string, status: ReleaseStatus, note: string)
      returns (r: Status)
      modifies this
      ensures Contents() == RegisterRelease(old(Contents()), id, w, version, status, note)
      ensures r == ValueError <==> IsBlank(note) || status.OtherStatus?
    {
      if IsBlank(note) {
        return ValueError;
      }
      if status.OtherStatus? {
        return ValueError;
      }
      var row := GetOrCreateRollout(w);
      var previous := LastActive(releases, w);
      releases := Without(releases, id) + [Release(id, w, version, status, note, previous)];
      if status == Active {
        rollouts := rollouts[w :=
          row.(previousStable := Coalesce(row.active, row.previousStable), active := id, version := version)];
      }
      r := Ok;
    }

    method RecordPromotionApproval(w: string, release: string, approver: string, verdict: Verdict) returns (r: Status)
      modifies this`approvals
      ensures Contents() == RecordApproval(old(Contents()), w, release, approver, verdict)
      ensures r == ValueError <==> verdict.OtherVerdict?
    {
      if verdict.OtherVerdict? {
        return ValueError;
      }
      approvals := approvals + [Approval(w, release, approver, verdict)];
      r := Ok;
    }

    method CountVerdicts(w: string, release: string) returns (approved: nat, rejected: nat)
      ensures approved == Tally(approvals, w, release, Approved)
      ensures rejected == Tally(approvals, w, release, Rejected)
    {
      approved, rejected := 0, 0;
      for i := 0 to |approvals|
        invariant approved == Tally(approvals[..i], w, release, Approved)
        invariant rejected == Tally(approvals[..i], w, release, Rejected)
      {
        assert approvals[..i + 1][..i] == approvals[..i];
        if approvals[i].workflow == w && approvals[i].release == release {
          if approvals[i].verdict == Approved { approved := approved + 1; }
          if approvals[i].verdict == Rejected { rejected := rejected + 1; }
        }
      }
      assert approvals[..|approvals|] == approvals;
    }

    method Write(w: string, row: Row, kind: ChangeKind)
      requires w in rollouts && row == rollouts[w]
      modifies this`rollouts, this`changelog
      ensures Contents() == Apply(old(Contents()), w, kind)
    {
      rollouts := rollouts[w := Changed(row, kind)];
      changelog := changelog + [Entry(w, row, kind)];
    }

    method EvaluateRolloutHealth(w: string)
      modifies this
      ensures Contents() == Evaluate(old(Contents()), w)
    {
      if w !in rollouts {
        return;
      }
      var row := rollouts[w];
      var control, candidate := Find(metrics, (w, A)), Find(metrics, (w, B));
      if control.None? || candidate.None? || candidate.value.exposures < 10 {
        if control.Some? && row.phase == Shadow && control.value.exposures >= 20 {
          Write(w, row, PhaseAdvance);
        }
        return;
      }
      if Degraded(row, control.value, candidate.value) && row.phase != Shadow {
        Write(w, row, AutoRollback);
        return;
      }
      if Better(control.value, candidate.value) && candidate.value.exposures >= 25 && row.default != B {
        if row.active == "" {
          return;
        }
        var approved, rejected := CountVerdicts(w, row.active);
        if approved < 2 || rejected > 0 {
          return;
        }
        Write(w, row, Promotion);
      }
    }
  }
}
