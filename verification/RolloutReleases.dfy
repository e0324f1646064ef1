/**
 Releases and approvals over whole runs: the listing, the ledger, and the two release pointers.
 */
module RolloutReleases {
  import opened Counts
  import opened Options
  import opened Rollout
  import opened RolloutRuns

  // ----- What a registration and an approval do, exactly -----

  /** Whether a release can be registered like this: some character of the note is no white space. */
  predicate Registrable(status: ReleaseStatus, note: string) {
    status in {Draft, Active, Deprecated} && exists i :: 0 <= i < |note| && !IsWhitespace(note[i])
  }

  ghost predicate DistinctReleases(releases: seq<Release>) {
    forall i, j :: 0 <= i < j < |releases| ==> releases[i].id != releases[j].id
  }

  /** `without` is the listing with the one release of that id cut out, if it is there. */
  ghost predicate CutOut(releases: seq<Release>, id: string, without: seq<Release>) {
    && (forall i :: 0 <= i < |releases| && releases[i].id == id ==> without == releases[..i] + releases[i + 1..])
    && ((forall i :: 0 <= i < |releases| ==> releases[i].id != id) ==> without == releases)
  }

  lemma {:induction false} WithoutCutsOut(releases: seq<Release>, id: string)
    requires DistinctReleases(releases)
    ensures CutOut(releases, id, Without(releases, id))
  {
    if releases != [] {
      var n := |releases| - 1;
      var before, last := releases[..n], releases[n];
      WithoutCutsOut(before, id);
      assert releases == before + [last];
      forall i | 0 <= i < |releases| && releases[i].id == id
        ensures Without(releases, id) == releases[..i] + releases[i + 1..]
      {
        if i == n {
          assert Without(before, id) == before;
        } else {
          assert before[i].id == id;
          assert releases[..i] + releases[i + 1..] == before[..i] + before[i + 1..] + [last];
        }
      }
    }
  }

  lemma RegistrableIsAccepted(status: ReleaseStatus, note: string)
    ensures ReleaseAccepted(status, note) <==> Registrable(status, note)
  {
    if exists i :: 0 <= i < |note| && !IsWhitespace(note[i]) {
      var i :| 0 <= i < |note| && !IsWhitespace(note[i]);
      assert note[i] in note;
    }
  }

  /**
   The whole effect of a registration.  A refused one changes nothing.  An accepted one replaces the
   listing of its id by a new entry at the end, which keeps the newest active release before it; if
   active it also becomes the active release, and the one before it the stable one.
   */
  lemma RegistrationExactly(db: Db, id: string, w: string, version: string, status: ReleaseStatus, note: string)
    requires DistinctReleases(db.releases)
    ensures var row, after := RowOf(db, w), RegisterRelease(db, id, w, version, status, note);
            if !Registrable(status, note) then after == db
            else
              && after.releases != [] && DistinctReleases(after.releases)
              && CutOut(db.releases, id, after.releases[..|after.releases| - 1])
              && after.releases[|after.releases| - 1]
                 == Release(id, w, version, status, note, LastActive(db.releases, w))
              && after == db.(releases := after.releases, rollouts := db.rollouts[w :=
                   if status != Active then row
                   else row.(previousStable := if row.active == "" then row.previousStable else row.active,
                             active := id, version := version)])
  {
    hide DistinctReleases, CutOut, Registrable;
    RegistrableIsAccepted(status, note);
    if Registrable(status, note) {
      RegistrationWrites(db, id, w, version, status, note);
      ReplacedListing(db.releases, Release(id, w, version, status, note, LastActive(db.releases, w)));
    }
  }

  lemma RegistrationWrites(db: Db, id: string, w: string, version: string, status: ReleaseStatus, note: string)
    requires ReleaseAccepted(status, note)
    ensures var row, after := RowOf(db, w), RegisterRelease(db, id, w, version, status, note);
            && after.releases
               == Without(db.releases, id) + [Release(id, w, version, status, note, LastActive(db.releases, w))]
            && after == db.(releases := after.releases, rollouts := db.rollouts[w :=
                 if status != Active then row
                 else row.(previousStable := if row.active == "" then row.previousStable else row.active,
                           active := id, version := version)])
  {
    hide Without, LastActive;
  }

  lemma ReplacedListing(releases: seq<Release>, added: Release)
    requires DistinctReleases(releases)
    ensures var after := Without(releases, added.id) + [added];
            && after[..|after| - 1] == Without(releases, added.id)
            && DistinctReleases(after) && CutOut(releases, added.id, after[..|after| - 1])
  {
    WithoutCutsOut(releases, added.id);
    WithoutIsDistinct(releases, added.id);
    var kept := Without(releases, added.id);
    assert (kept + [added])[..|kept|] == kept;
    forall r | r in kept ensures r.id != added.id { WithoutKeepsOthers(releases, added.id, r); }
  }

  lemma {:induction false} WithoutIsDistinct(releases: seq<Release>, id: string)
    requires DistinctReleases(releases)
    ensures DistinctReleases(Without(releases, id))
  {
    if releases != [] {
      var before := releases[..|releases| - 1];
      WithoutIsDistinct(before, id);
      forall r | r in Without(before, id) ensures r.id != releases[|releases| - 1].id {
        WithoutKeepsOthers(before, id, r);
        var i :| 0 <= i < |before| && before[i] == r;
        assert releases[i].id != releases[|releases| - 1].id;
      }
    }
  }

  /** Release ids are unique, as the table's key says, so the above holds of every registration of a run. */
  lemma {:induction false} ReleasesAreDistinct(ops: seq<Op>)
    ensures DistinctReleases(Run(EMPTY_DB, ops).releases)
  {
    if ops != [] {
      var db, op := Run(EMPTY_DB, ops[..|ops| - 1]), ops[|ops| - 1];
      ReleasesAreDistinct(ops[..|ops| - 1]);
      if op.Register? {
        RegistrationExactly(db, op.id, op.workflow, op.version, op.status, op.note);
        RegistrableIsAccepted(op.status, op.note);
      } else {
        OtherOpsKeepReleases(db, op);
      }
    }
  }

  /** The recorded approvals of a release in a run, by the position of the operation. */
  function Recorded(ops: seq<Op>, w: string, release: string, verdict: Verdict): set<int> {
    set i | 0 <= i < |ops| && ops[i].Approve? && ops[i].workflow == w && ops[i].release == release
            && ops[i].verdict == verdict
  }

  lemma LastRecorded(ops: seq<Op>, w: string, release: string, verdict: Verdict)
    requires ops != []
    ensures var before, op := ops[..|ops| - 1], ops[|ops| - 1];
            |Recorded(ops, w, release, verdict)|
            == |Recorded(before, w, release, verdict)|
               + One(op.Approve? && op.workflow == w && op.release == release && op.verdict == verdict)
  {
    var n := |ops| - 1;
    var earlier, all := Recorded(ops[..n], w, release, verdict), Recorded(ops, w, release, verdict);
    forall i ensures i in earlier <==> i in all && i != n {
      if 0 <= i < n { assert ops[..n][i] == ops[i]; }
    }
    assert earlier == all - {n};
  }

  lemma TallyOfOther(db: Db, op: Op)
    requires !op.Approve?
    ensures Step(db, op).approvals == db.approvals
  {
    hide LatestAssignment, UpsertAssignment, Without, LastActive, Decide;
  }

  lemma TallyAppend(approvals: seq<Approval>, a: Approval, w: string, release: string, verdict: Verdict)
    ensures Tally(approvals + [a], w, release, verdict)
         == Tally(approvals, w, release, verdict) + One(a.workflow == w && a.release == release && a.verdict == verdict)
  {
    assert (approvals + [a])[..|approvals|] == approvals;
  }

  /** The ledger counts each recorded approval and rejection once, for its workflow and release, and drops others. */
  lemma {:induction false} VotesExactly(ops: seq<Op>, w: string, release: string, verdict: Verdict)
    ensures var db := Run(EMPTY_DB, ops);
            Tally(db.approvals, w, release, verdict)
            == if verdict.OtherVerdict? then 0 else |Recorded(ops, w, release, verdict)|
  {
    if ops != [] {
      var db, op := Run(EMPTY_DB, ops[..|ops| - 1]), ops[|ops| - 1];
      VotesExactly(ops[..|ops| - 1], w, release, verdict);
      LastRecorded(ops, w, release, verdict);
      if op.Approve? {
        TallyAppend(db.approvals, Approval(op.workflow, op.release, op.approver, op.verdict), w, release, verdict);
      } else {
        TallyOfOther(db, op);
      }
    }
  }

  // ----- Release pointers -----

  predicate Activates(op: Op, w: string) {
    op.Register? && op.workflow == w && op.status == Active && ReleaseAccepted(op.status, op.note)
  }

  ghost predicate EverActivated(ops: seq<Op>, w: string, id: string) {
    exists i :: 0 <= i < |ops| && Activates(ops[i], w) && ops[i].id == id
  }

  /** Whether `log` is `before` and then at most one more entry, a rollback of `w` exactly when `rollback`. */
  predicate Extends(log: seq<Change>, before: seq<Change>, w: string, rollback: bool) {
    (log == before && !rollback) ||
    (|log| == |before| + 1 && before == log[..|before|]
     && (rollback <==> log[|before|].workflow == w && log[|before|].kind == AutoRollback))
  }

  /** How a step that activates nothing may move the pointers: a rollback restores the previous release. */
  predicate PointersMove(db: Db, after: Db, w: string, rollback: bool) {
    && Extends(after.changelog, db.changelog, w, rollback)
    && RowOf(after, w).previousStable == RowOf(db, w).previousStable
    && RowOf(after, w).active == (if rollback then Coalesce(RowOf(db, w).previousStable, RowOf(db, w).active)
                                  else RowOf(db, w).active)
  }

  lemma CreditMovesPointers(db: Db, a: Assignment, gain: Metrics, w: string)
    ensures exists rollback :: PointersMove(db, Credit(db, a, gain), w, rollback)
  {
    var key := (a.workflow, a.effective);
    var mid := db.(metrics := UpsertMetrics(db.metrics, key, gain.(exposures := 0), gain));
    assert PointersMove(db, Credit(db, a, gain), w, Decide(mid, a.workflow) == Some(AutoRollback) && a.workflow == w);
  }

  lemma RegisterMovesPointers(db: Db, op: Op, w: string)
    requires op.Register?
    ensures if Activates(op, w) then
              var row, next := RowOf(db, w), RowOf(Step(db, op), w);
              next.active == op.id && next.previousStable == Coalesce(row.active, row.previousStable)
              && Step(db, op).changelog == db.changelog
            else PointersMove(db, Step(db, op), w, false)
  {
  }

  lemma StepMovesPointers(db: Db, op: Op, w: string)
    requires !Activates(op, w)
    ensures exists rollback :: PointersMove(db, Step(db, op), w, rollback)
  {
    match op
    case Outcome(run, reply, meeting, success) =>
      var a := LatestAssignment(db.assignments, run);
      if a.Some? {
        CreditMovesPointers(db, a.value, OutcomeGain(reply, meeting, success), w);
        assert Step(db, op) == Credit(db, a.value, OutcomeGain(reply, meeting, success));
      } else {
        assert PointersMove(db, db, w, false) && Step(db, op) == db;
      }
    case Rejection(action) =>
      assert PointersMove(db, db, w, false);
      if action in db.actions && LatestAssignment(db.assignments, db.actions[action]).Some? {
        var a := LatestAssignment(db.assignments, db.actions[action]).value;
        CreditMovesPointers(db, a, REJECTION_GAIN, w);
        assert Step(db, op) == Credit(db, a, REJECTION_GAIN);
      } else {
        assert Step(db, op) == db;
      }
    case Register(_, _, _, _, _) => RegisterMovesPointers(db, op, w);
    case _ => assert PointersMove(db, Step(db, op), w, false);
  }

  ghost predicate PointersActivated(row: Row, ops: seq<Op>, w: string) {
    && (row.active != "" ==> EverActivated(ops, w, row.active))
    && (row.previousStable != "" ==> EverActivated(ops, w, row.previousStable))
  }

  lemma EverActivatedGrows(ops: seq<Op>, w: string, id: string)
    requires ops != []
    ensures EverActivated(ops[..|ops| - 1], w, id) ==> EverActivated(ops, w, id)
    ensures Activates(ops[|ops| - 1], w) ==> EverActivated(ops, w, ops[|ops| - 1].id)
  {
    var before := ops[..|ops| - 1];
    if EverActivated(before, w, id) {
      var i :| 0 <= i < |before| && Activates(before[i], w) && before[i].id == id;
      assert Activates(ops[i], w) && ops[i].id == id;
    }
  }

  lemma StepKeepsPointersActivated(db: Db, ops: seq<Op>, w: string)
    requires ops != [] && PointersActivated(RowOf(db, w), ops[..|ops| - 1], w)
    ensures PointersActivated(RowOf(Step(db, ops[|ops| - 1]), w), ops, w)
  {
    var op := ops[|ops| - 1];
    EverActivatedGrows(ops, w, RowOf(db, w).active);
    EverActivatedGrows(ops, w, RowOf(db, w).previousStable);
    if Activates(op, w) { RegisterMovesPointers(db, op, w); } else { StepMovesPointers(db, op, w); }
  }

  /** Both pointers name releases that were registered active for the workflow. */
  lemma {:induction false} PointersWereActivated(ops: seq<Op>, w: string)
    ensures PointersActivated(RowOf(Run(EMPTY_DB, ops), w), ops, w)
  {
    if ops != [] {
      PointersWereActivated(ops[..|ops| - 1], w);
      StepKeepsPointersActivated(Run(EMPTY_DB, ops[..|ops| - 1]), ops, w);
    }
  }

  /** A set active pointer becomes empty exactly when a release with the empty id is activated. */
  lemma ActiveClearedOnlyByEmptyId(db: Db, op: Op, w: string)
    requires RowOf(db, w).active != ""
    ensures RowOf(Step(db, op), w).active == "" <==> Activates(op, w) && op.id == ""
  {
    if Activates(op, w) { RegisterMovesPointers(db, op, w); } else { StepMovesPointers(db, op, w); }
  }

  /** Whether the changelog has a rollback of `w` at or after position `from`. */
  predicate RolledBack(log: seq<Change>, w: string, from: nat) {
    exists i :: from <= i < |log| && log[i].workflow == w && log[i].kind == AutoRollback
  }

  /** The pointers and the log that a run without activations leads to. */
  predicate Restored(db: Db, after: Db, w: string) {
    && db.changelog <= after.changelog
    && RowOf(after, w).previousStable == RowOf(db, w).previousStable
    && RowOf(after, w).active == (if RolledBack(after.changelog, w, |db.changelog|)
                                  then Coalesce(RowOf(db, w).previousStable, RowOf(db, w).active)
                                  else RowOf(db, w).active)
  }

  lemma StepRestores(db: Db, mid: Db, op: Op, w: string)
    requires Restored(db, mid, w) && !Activates(op, w)
    ensures Restored(db, Step(mid, op), w)
  {
    hide Step;
    StepMovesPointers(mid, op, w);
    var rollback :| PointersMove(mid, Step(mid, op), w, rollback);
    var earlier, log, from := mid.changelog, Step(mid, op).changelog, |db.changelog|;
    assert forall i :: 0 <= i < |earlier| ==> log[i] == earlier[i];
    if RolledBack(earlier, w, from) {
      var i :| from <= i < |earlier| && earlier[i].workflow == w && earlier[i].kind == AutoRollback;
      assert log[i] == earlier[i];
    }
    if rollback { assert log[|earlier|].kind == AutoRollback; }
  }

  /** Without a new activation the first rollback restores the previous release, and later ones leave it. */
  lemma {:induction false} RollbackRestoresPrevious(db: Db, ops: seq<Op>, w: string)
    requires forall i :: 0 <= i < |ops| ==> !Activates(ops[i], w)
    ensures Restored(db, Run(db, ops), w)
  {
    if ops != [] {
      RollbackRestoresPrevious(db, ops[..|ops| - 1], w);
      StepRestores(db, Run(db, ops[..|ops| - 1]), ops[|ops| - 1], w);
    }
  }

  /** Activating r1 and then r2: r2 is the active release until the first rollback, and r1 from then on. */
  lemma TwoActivationsThenRollbacks(db: Db, first: Op, second: Op, ops: seq<Op>, w: string)
    requires Activates(first, w) && Activates(second, w) && first.id != ""
    requires forall i :: 0 <= i < |ops| ==> !Activates(ops[i], w)
    ensures var after := Run(Step(Step(db, first), second), ops);
            RowOf(after, w).active == if RolledBack(after.changelog, w, |db.changelog|) then first.id else second.id
  {
    RegisterMovesPointers(db, first, w);
    RegisterMovesPointers(Step(db, first), second, w);
    RollbackRestoresPrevious(Step(Step(db, first), second), ops, w);
  }

  // ----- What the release table says of a pointer -----

  ghost predicate ListedActive(db: Db, w: string, id: string) {
    exists r :: r in db.releases && r.id == id && r.workflow == w && r.status == Active
  }

  /** Whether the last accepted registration of `id` made it active for `w`. */
  predicate LastRegisteredActive(ops: seq<Op>, w: string, id: string) {
    if ops == [] then false
    else
      var op := ops[|ops| - 1];
      if op.Register? && op.id == id && ReleaseAccepted(op.status, op.note) then op.workflow == w && op.status == Active
      else LastRegisteredActive(ops[..|ops| - 1], w, id)
  }

  lemma {:induction false} WithoutKeepsOthers(releases: seq<Release>, id: string, r: Release)
    ensures r in Without(releases, id) <==> r in releases && r.id != id
  {
    if releases != [] {
      WithoutKeepsOthers(releases[..|releases| - 1], id, r);
      assert releases == releases[..|releases| - 1] + [releases[|releases| - 1]];
    }
  }

  lemma RegisterListing(db: Db, op: Op, w: string, id: string)
    requires op.Register? && ReleaseAccepted(op.status, op.note)
    ensures ListedActive(Step(db, op), w, id)
       <==> if op.id == id then op.workflow == w && op.status == Active else ListedActive(db, w, id)
  {
    var after := Step(db, op).releases;
    var added := after[|after| - 1];
    assert after == Without(db.releases, op.id) + [added];
    forall r: Release ensures r in after <==> (r in db.releases && r.id != op.id) || r == added {
      WithoutKeepsOthers(db.releases, op.id, r);
    }
  }

  lemma OtherOpsKeepReleases(db: Db, op: Op)
    requires !(op.Register? && ReleaseAccepted(op.status, op.note))
    ensures Step(db, op).releases == db.releases
  {
  }

  /** A release is listed active exactly while its last registration says so, whatever the pointers name. */
  lemma {:induction false} ListedIsLastRegistration(ops: seq<Op>, w: string, id: string)
    ensures ListedActive(Run(EMPTY_DB, ops), w, id) <==> LastRegisteredActive(ops, w, id)
  {
    if ops != [] {
      var before, op := ops[..|ops| - 1], ops[|ops| - 1];
      ListedIsLastRegistration(before, w, id);
      if op.Register? && ReleaseAccepted(op.status, op.note) {
        RegisterListing(Run(EMPTY_DB, before), op, w, id);
      } else {
        OtherOpsKeepReleases(Run(EMPTY_DB, before), op);
      }
    }
  }

  /** So the active pointer can name a release that was deprecated after its activation. */
  lemma PointerOutlivesDeprecation()
    ensures var note := "n";
            var ops := [Register("r1", "w", "1", Active, note), Register("r1", "w", "1", Deprecated, note)];
            RowOf(Run(EMPTY_DB, ops), "w").active == "r1" && !ListedActive(Run(EMPTY_DB, ops), "w", "r1")
  {
    var note := "n";
    var first, second := Register("r1", "w", "1", Active, note), Register("r1", "w", "1", Deprecated, note);
    var ops := [first, second];
    assert ops[..1] == [first] && [first][..0] == [];
    assert Run(EMPTY_DB, [first]) == Step(EMPTY_DB, first);
    assert Run(EMPTY_DB, ops) == Step(Step(EMPTY_DB, first), second);
    assert 'n' in note && !IsBlank(note);
    RegisterMovesPointers(EMPTY_DB, first, "w");
    RegisterMovesPointers(Step(EMPTY_DB, first), second, "w");
    ListedIsLastRegistration(ops, "w", "r1");
  }
}
