/**
 The prompt rollout controller: per-workflow rollout rows, variant metrics, the approval
 ledger, release pointers and the changelog, with the operations that change them.
 This module gives the tables as a value and each operation as a function on them; class
 `RolloutRepository` performs the same operations on fields and is proved against these
 functions.  The properties of whole runs are in `RolloutRuns`.
 */
module Rollout {
  import opened Counts
  import opened Options

  datatype Variant = A | B

  // The column is free text; the code compares it with the three known phases.
  datatype Phase = Shadow | Canary | Full | OtherPhase(text: string)

  datatype Row = Row(
    phase: Phase,
    canaryPercent: real,
    replyLimit: real,
    meetingLimit: real,
    executionLimit: real,
    rejectionLimit: real,
    default: Variant,
    active: string,
    previousStable: string,
    version: string)

  datatype Metrics = Metrics(exposures: nat, replies: nat, meetings: nat, successes: nat, rejections: nat)

  datatype Assignment = Assignment(
    run: string,
    workflow: string,
    bucket: Variant,
    effective: Variant,
    phase: Phase)

  datatype ReleaseStatus = Draft | Active | Deprecated | OtherStatus(text: string)

  datatype Release = Release(
    id: string,
    workflow: string,
    version: string,
    status: ReleaseStatus,
    note: string,
    previousStable: Option<string>)

  datatype Verdict = Approved | Rejected | OtherVerdict(text: string)

  datatype Approval = Approval(workflow: string, release: string, approver: string, verdict: Verdict)

  datatype ChangeKind = PhaseAdvance | AutoRollback | Promotion

  // A changelog value: a phase, with the default variant where the entry mentions one.
  datatype Mark = Mark(phase: Phase, default: Option<Variant>)

  datatype Change = Change(workflow: string, kind: ChangeKind, previous: Mark, next: Mark)

  datatype Status = Ok | ValueError

  /** `assignments`, `approvals` and `changelog` are in row-id order; `releases` is in creation order. */
  datatype Db = Db(
    assignments: seq<Assignment>,
    metrics: map<(string, Variant), Metrics>,
    rollouts: map<string, Row>,
    releases: seq<Release>,
    approvals: seq<Approval>,
    changelog: seq<Change>,
    actions: map<string, string>)

  const EMPTY_DB := Db([], map[], map[], [], [], [], map[])

  const SEED_ROW := Row(Shadow, 0.1, 0.05, 0.03, 0.05, 0.05, A, "", "", "unversioned")

  // ----- Serving a variant -----

  /** The first 32 bits of the digest of (workflow, run). */
  type Prefix = n: int | 0 <= n < 0x1_0000_0000

  function Score(prefix: Prefix): real {
    prefix as real / 0xFFFF_FFFF as real
  }

  function Bucket(prefix: Prefix): Variant {
    if Score(prefix) < 0.5 then A else B
  }

  function Effective(row: Row, prefix: Prefix): Variant {
    match row.phase
    case Shadow => row.default
    case Canary => if Score(prefix) < row.canaryPercent then B else A
    case Full => B
    case OtherPhase(_) => A
  }

  function GetOrCreate(db: Db, w: string): Db {
    if w in db.rollouts then db else db.(rollouts := db.rollouts[w := SEED_ROW])
  }

  /** Position of the assignment row of (run, workflow), or the table's length when there is none. */
  function Position(rows: seq<Assignment>, run: string, w: string): (i: nat)
    ensures i <= |rows|
    ensures i < |rows| ==> rows[i].run == run && rows[i].workflow == w
    ensures forall j :: 0 <= j < i ==> !(rows[j].run == run && rows[j].workflow == w)
  {
    if rows == [] then 0
    else
      var i := Position(rows[..|rows| - 1], run, w);
      if i < |rows| - 1 then i
      else if rows[|rows| - 1].run == run && rows[|rows| - 1].workflow == w then |rows| - 1
      else |rows|
  }

  function UpsertAssignment(rows: seq<Assignment>, row: Assignment): (r: seq<Assignment>)
    ensures forall x :: x in r ==> x == row || x in rows
    ensures row in r
  {
    var i := Position(rows, row.run, row.workflow);
    if i < |rows| then
      var r := rows[i := row];
      assert r[i] == row;
      r
    else
      var r := rows + [row];
      assert r[|rows|] == row;
      r
  }

  const ZERO := Metrics(0, 0, 0, 0, 0)

  function Plus(m: Metrics, d: Metrics): Metrics {
    Metrics(m.exposures + d.exposures, m.replies + d.replies, m.meetings + d.meetings,
            m.successes + d.successes, m.rejections + d.rejections)
  }

  /** Insert `first`, or add `more` to the row that is there. */
  function UpsertMetrics(t: map<(string, Variant), Metrics>, key: (string, Variant), first: Metrics, more: Metrics)
    : map<(string, Variant), Metrics>
  {
    t[key := if key in t then Plus(t[key], more) else first]
  }

  function AssignVariant(db: Db, run: string, w: string, prefix: Prefix): Db {
    var created := GetOrCreate(db, w);
    var row := created.rollouts[w];
    var v := Effective(row, prefix);
    created.(
      assignments := UpsertAssignment(created.assignments, Assignment(run, w, Bucket(prefix), v, row.phase)),
      metrics := UpsertMetrics(created.metrics, (w, v), ZERO.(exposures := 1), ZERO.(exposures := 1)))
  }

  // ----- Outcomes and rejections -----

  /** The assignment row of the run with the highest row id. */
  function LatestAssignment(rows: seq<Assignment>, run: string): (r: Option<Assignment>)
    ensures r.None? <==> forall i :: 0 <= i < |rows| ==> rows[i].run != run
    ensures r.Some? ==> r.value in rows && r.value.run == run
    ensures r.Some? ==> exists i :: 0 <= i < |rows| && rows[i] == r.value
                                    && forall j :: i < j < |rows| ==> rows[j].run != run
  {
    if rows == [] then None
    else if rows[|rows| - 1].run == run then Some(rows[|rows| - 1])
    else LatestAssignment(rows[..|rows| - 1], run)
  }

  function OutcomeGain(reply: bool, meeting: bool, success: bool): Metrics {
    Metrics(1, One(reply), One(meeting), One(success), 0)
  }

  const REJECTION_GAIN := Metrics(1, 0, 0, 0, 1)

  /** Credit `gain` to the variant that served `a`; the insert arm would count no exposure. */
  function Credit(db: Db, a: Assignment, gain: Metrics): Db {
    Evaluate(
      db.(metrics := UpsertMetrics(db.metrics, (a.workflow, a.effective), gain.(exposures := 0), gain)),
      a.workflow)
  }

  function RecordOutcome(db: Db, run: string, reply: bool, meeting: bool, success: bool): Db {
    match LatestAssignment(db.assignments, run)
    case None => db
    case Some(a) => Credit(db, a, OutcomeGain(reply, meeting, success))
  }

  function RecordRejection(db: Db, action: string): Db {
    if action !in db.actions then db
    else
      match LatestAssignment(db.assignments, db.actions[action])
      case None => db
      case Some(a) => Credit(db, a, REJECTION_GAIN)
  }

  /** The action row keeps the run it was first inserted with. */
  function UpsertAction(db: Db, action: string, run: string): Db {
    if action in db.actions then db else db.(actions := db.actions[action := run])
  }

  // ----- Releases and approvals -----

  /** The characters that `str.strip()` removes: white space and the information separators. */
  predicate IsWhitespace(c: char) {
    var code := c as int;
    || 0x09 <= code <= 0x0D || 0x1C <= code <= 0x20 || code == 0x85 || code == 0xA0 || code == 0x1680
    || 0x2000 <= code <= 0x200A || code == 0x2028 || code == 0x2029 || code == 0x202F || code == 0x205F
        || code == 0x3000
  }

  predicate IsBlank(text: string) {
    forall c :: c in text ==> IsWhitespace(c)
  }

  predicate IsActiveFor(r: Release, w: string) {
    r.workflow == w && r.status == Active
  }

  /** The most recently listed active release of a workflow. */
  function LastActive(releases: seq<Release>, w: string): (id: Option<string>)
    ensures id.None? <==> forall i :: 0 <= i < |releases| ==> !IsActiveFor(releases[i], w)
    ensures id.Some? ==> exists i :: 0 <= i < |releases| && IsActiveFor(releases[i], w) && releases[i].id == id.value
                                     && forall j :: i < j < |releases| ==> !IsActiveFor(releases[j], w)
  {
    if releases == [] then None
    else if IsActiveFor(releases[|releases| - 1], w) then Some(releases[|releases| - 1].id)
    else LastActive(releases[..|releases| - 1], w)
  }

  function Without(releases: seq<Release>, id: string): seq<Release> {
    if releases == [] then []
    else
      var rest := Without(releases[..|releases| - 1], id);
      if releases[|releases| - 1].id == id then rest else rest + [releases[|releases| - 1]]
  }

  function Coalesce(first: string, second: string): string {
    if first != "" then first else second
  }

  predicate ReleaseAccepted(status: ReleaseStatus, note: string) {
    !IsBlank(note) && !status.OtherStatus?
  }

  function RegisterRelease(db: Db, id: string, w: string, version: string, status: ReleaseStatus, note: string): Db {
    if !ReleaseAccepted(status, note) then db
    else
      var created := GetOrCreate(db, w);
      var release := Release(id, w, version, status, note, LastActive(created.releases, w));
      var listed := created.(releases := Without(created.releases, id) + [release]);
      if status != Active then listed
      else
        var row := listed.rollouts[w];
        listed.(rollouts := listed.rollouts[w :=
          row.(previousStable := Coalesce(row.active, row.previousStable), active := id, version := version)])
  }

  function RecordApproval(db: Db, w: string, release: string, approver: string, verdict: Verdict): Db {
    if verdict.OtherVerdict? then db
    else db.(approvals := db.approvals + [Approval(w, release, approver, verdict)])
  }

  function Tally(approvals: seq<Approval>, w: string, release: string, verdict: Verdict): nat {
    if approvals == [] then 0
    else
      var last := approvals[|approvals| - 1];
      Tally(approvals[..|approvals| - 1], w, release, verdict)
      + One(last.workflow == w && last.release == release && last.verdict == verdict)
  }

  // ----- Health evaluation -----

  function Max(a: int, b: int): int {
    if a >= b then a else b
  }

  function Rate(count: nat, exposures: nat): real {
    count as real / Max(exposures, 1) as real
  }

  predicate Degraded(row: Row, control: Metrics, candidate: Metrics) {
    || Rate(control.replies, control.exposures) - Rate(candidate.replies, candidate.exposures) > row.replyLimit
    || Rate(control.meetings, control.exposures) - Rate(candidate.meetings, candidate.exposures) > row.meetingLimit
    || Rate(control.successes, control.exposures) - Rate(candidate.successes, candidate.exposures) > row.executionLimit
    || Rate(candidate.rejections, candidate.exposures) - Rate(control.rejections, control.exposures)
       > row.rejectionLimit
  }

  predicate Better(control: Metrics, candidate: Metrics) {
    && Rate(candidate.replies, candidate.exposures) >= Rate(control.replies, control.exposures)
    && Rate(candidate.meetings, candidate.exposures) >= Rate(control.meetings, control.exposures)
    && Rate(candidate.successes, candidate.exposures) >= Rate(control.successes, control.exposures)
    && Rate(candidate.rejections, candidate.exposures) <= Rate(control.rejections, control.exposures)
  }

  function Find(t: map<(string, Variant), Metrics>, key: (string, Variant)): Option<Metrics> {
    if key in t then Some(t[key]) else None
  }

  /** The one change a health evaluation makes, if any. */
  function Decide(db: Db, w: string): Option<ChangeKind> {
    if w !in db.rollouts then None
    else
      var row := db.rollouts[w];
      var control, candidate := Find(db.metrics, (w, A)), Find(db.metrics, (w, B));
      if control.None? || candidate.None? || candidate.value.exposures < 10 then
        if control.Some? && row.phase == Shadow && control.value.exposures >= 20 then Some(PhaseAdvance) else None
      else if Degraded(row, control.value, candidate.value) && row.phase != Shadow then Some(AutoRollback)
      else if && Better(control.value, candidate.value)
              && candidate.value.exposures >= 25
              && row.default != B
              && row.active != ""
              && Tally(db.approvals, w, row.active, Approved) >= 2
              && Tally(db.approvals, w, row.active, Rejected) == 0
      then Some(Promotion)
      else None
  }

  function Changed(row: Row, kind: ChangeKind): Row {
    match kind
    case PhaseAdvance => row.(phase := Canary)
    case AutoRollback => row.(phase := Shadow, default := A, active := Coalesce(row.previousStable, row.active))
    case Promotion => row.(phase := Full, default := B)
  }

  function Entry(w: string, row: Row, kind: ChangeKind): Change {
    match kind
    case PhaseAdvance => Change(w, kind, Mark(row.phase, None), Mark(Canary, None))
    case AutoRollback => Change(w, kind, Mark(row.phase, Some(row.default)), Mark(Shadow, Some(A)))
    case Promotion => Change(w, kind, Mark(row.phase, Some(row.default)), Mark(Full, Some(B)))
  }

  function Apply(db: Db, w: string, kind: ChangeKind): Db
    requires w in db.rollouts
  {
    var row := db.rollouts[w];
    db.(rollouts := db.rollouts[w := Changed(row, kind)], changelog := db.changelog + [Entry(w, row, kind)])
  }

  function Evaluate(db: Db, w: string): Db {
    match Decide(db, w)
    case None => db
    case Some(kind) => Apply(db, w, kind)
  }
}
