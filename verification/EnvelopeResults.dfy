/**
 The guarantees of provenance over every sequence of section writes and snapshots.
 */
module EnvelopeResults {
  import opened Options
  import opened Envelope

  /** A reload is what a new process does: it hydrates the envelope from the latest snapshot. */
  datatype Op = WriteSection(agent: Agent, now: int) | SaveSnapshot | Reload

  /** Hydration brings back every section but the intervention decision. */
  function Hydrated(s: State): State {
    s.(sections := s.sections - {InterventionDecision})
  }

  /** The envelope after a run of operations with fresh section values, and the one in the latest snapshot. */
  function Run(ops: seq<Op>): State {
    if ops == [] then EMPTY
    else
      var before, op := ops[..|ops| - 1], ops[|ops| - 1];
      match op
      case WriteSection(agent, now) => Write(Run(before), agent, FreshMeta(now, agent))
      case SaveSnapshot => Run(before)
      case Reload => Hydrated(Newest(before))
  }

  function Newest(ops: seq<Op>): State {
    if ops == [] then EMPTY
    else if ops[|ops| - 1].SaveSnapshot? then Run(ops[..|ops| - 1])
    else Newest(ops[..|ops| - 1])
  }

  function Snapshots(table: seq<Snapshot>, run: string, ops: seq<Op>): seq<Snapshot> {
    if ops == [] then table
    else
      var before := Snapshots(table, run, ops[..|ops| - 1]);
      if ops[|ops| - 1].SaveSnapshot? then Save(before, run, Run(ops)) else before
  }

  // ----- Who writes what -----

  /** The agents that a section belongs to. */
  predicate WrittenBy(x: Section, agent: Agent) {
    match x
    case SignalContext => agent == SignalAgent
    case DealContext => agent == ContextAgent
    case DecisionContext => agent == StrategistAgent
    case InterventionDecision => agent == InterventionAgent
    case ActionContext => agent == ActionAgent || agent == CrmAgent
    case ExecutionContext => agent == ExecutionAgent
    case OutcomeContext => agent == EvaluatorAgent
  }

  /**
   The whole effect of a write: the agent's own section, numbered after its current value or as it was
   given, and one history record of it; nothing for an agent that owns none.
   */
  lemma WriteExactly(s: State, agent: Agent, value: Meta, x: Section)
    ensures agent.UnknownAgent? <==> forall y :: !WrittenBy(y, agent)
    ensures agent.UnknownAgent? ==> Write(s, agent, value) == s
    ensures WrittenBy(x, agent) ==>
              var meta :=
                if x in s.sections then
                  Meta(s.sections[x].version + 1, Some(s.sections[x].version), s.sections[x].createdAt, agent)
                else Meta(value.version, value.parent, value.createdAt, agent);
              Write(s, agent, value) == State(s.sections[x := meta], s.history + [HistoryRecord(agent, x, meta)])
  {
    if !agent.UnknownAgent? {
      assert WrittenBy(SectionOf(agent).value, agent);
    }
  }

  /** Every section and every history record is of an agent that the section belongs to. */
  predicate Owned(s: State) {
    && (forall x :: x in s.sections ==> WrittenBy(x, s.sections[x].source))
    && forall i :: 0 <= i < |s.history| ==>
         var r := s.history[i];
         WrittenBy(r.section, r.agent) && r.meta.source == r.agent
  }

  /** Over every sequence of writes, snapshots and reloads each section is written by its own agents only. */
  lemma {:induction false} SectionsAreOwned(ops: seq<Op>)
    ensures Owned(Run(ops)) && Owned(Newest(ops))
  {
    if ops != [] { SectionsAreOwned(ops[..|ops| - 1]); }
  }

  // ----- Versions count history records -----

  function Count(history: seq<HistoryRecord>, x: Section): nat {
    if history == [] then 0
    else Count(history[..|history| - 1], x) + (if history[|history| - 1].section == x then 1 else 0)
  }

  function FirstCreated(history: seq<HistoryRecord>, x: Section): int {
    if history == [] then 0
    else if Count(history[..|history| - 1], x) > 0 then FirstCreated(history[..|history| - 1], x)
    else history[|history| - 1].meta.createdAt
  }

  /** The metadata that the n-th write of a section leaves. */
  predicate NumbersAs(meta: Meta, n: nat, created: int) {
    meta.version == n && meta.parent == (if n == 1 then None else Some(n - 1)) && meta.createdAt == created
  }

  /** The section is there exactly when it has history records, and is numbered by them. */
  predicate SectionOk(s: State, x: Section) {
    && (x in s.sections <==> Count(s.history, x) > 0)
    && (x in s.sections ==> NumbersAs(s.sections[x], Count(s.history, x), FirstCreated(s.history, x)))
  }

  /** The history record carries its own number. */
  predicate RecordOk(history: seq<HistoryRecord>, i: nat)
    requires i < |history|
  {
    var r := history[i];
    NumbersAs(r.meta, Count(history[..i + 1], r.section), FirstCreated(history, r.section))
  }

  /** Sections and history are numbered alike; not the intervention decision once the envelope was hydrated. */
  ghost predicate Provenance(s: State, hydrated: bool) {
    && (forall x :: (x == InterventionDecision && hydrated) || SectionOk(s, x))
    && forall i :: 0 <= i < |s.history|
        ==> (s.history[i].section == InterventionDecision && hydrated) || RecordOk(s.history, i)
  }

  lemma {:induction false} FirstCreatedStays(history: seq<HistoryRecord>, i: nat, x: Section)
    requires i <= |history| && Count(history[..i], x) > 0
    ensures FirstCreated(history, x) == FirstCreated(history[..i], x) && Count(history, x) > 0
  {
    if i == |history| {
      assert history[..i] == history;
    } else {
      assert history[..|history| - 1][..i] == history[..i];
      FirstCreatedStays(history[..|history| - 1], i, x);
    }
  }

  lemma CountOfRecord(history: seq<HistoryRecord>, i: nat)
    requires i < |history|
    ensures Count(history[..i + 1], history[i].section) > 0
  {
    assert history[..i + 1][..i] == history[..i];
  }

  /** Later records do not change what an earlier one says. */
  lemma RecordStaysOk(history: seq<HistoryRecord>, longer: seq<HistoryRecord>, i: nat)
    requires history <= longer && i < |history| && RecordOk(history, i)
    ensures RecordOk(longer, i)
  {
    assert longer[..i + 1] == history[..i + 1];
    CountOfRecord(history, i);
    FirstCreatedStays(history, i + 1, history[i].section);
    FirstCreatedStays(longer, i + 1, history[i].section);
  }

  lemma AppendCounts(history: seq<HistoryRecord>, r: HistoryRecord, x: Section)
    ensures Count(history + [r], x) == Count(history, x) + (if r.section == x then 1 else 0)
    ensures FirstCreated(history + [r], x)
        == if Count(history, x) > 0 then FirstCreated(history, x) else r.meta.createdAt
  {
    assert (history + [r])[..|history|] == history;
  }

  lemma WriteKeepsSection(s: State, agent: Agent, now: int, x: Section)
    requires SectionOk(s, x)
    ensures SectionOk(Write(s, agent, FreshMeta(now, agent)), x)
  {
    if SectionOf(agent).Some? {
      var after := Write(s, agent, FreshMeta(now, agent));
      AppendCounts(s.history, after.history[|s.history|], x);
    }
  }

  lemma NewRecordIsOk(s: State, agent: Agent, now: int, x: Section)
    requires SectionOf(agent) == Some(x) && SectionOk(s, x)
    ensures var after := Write(s, agent, FreshMeta(now, agent));
            after.history[..|s.history|] == s.history && after.history[|s.history|].section == x
                && RecordOk(after.history, |s.history|)
  {
    var after := Write(s, agent, FreshMeta(now, agent));
    assert after.history[..|s.history| + 1] == after.history;
    AppendCounts(s.history, after.history[|s.history|], x);
  }

  lemma WriteKeepsProvenance(s: State, agent: Agent, now: int, hydrated: bool)
    requires Provenance(s, hydrated)
    ensures Provenance(Write(s, agent, FreshMeta(now, agent)), hydrated)
  {
    hide SectionOk, RecordOk;
    if SectionOf(agent).Some? {
      var own, after := SectionOf(agent).value, Write(s, agent, FreshMeta(now, agent));
      forall x | !(x == InterventionDecision && hydrated) ensures SectionOk(after, x) {
        WriteKeepsSection(s, agent, now, x);
      }
      forall i | 0 <= i < |after.history| && !(after.history[i].section == InterventionDecision && hydrated)
        ensures RecordOk(after.history, i)
      {
        if i < |s.history| {
          RecordStaysOk(s.history, after.history, i);
        } else {
          NewRecordIsOk(s, agent, now, own);
        }
      }
    }
  }

  /** A new process hydrated the envelope at some point. */
  predicate EverReloaded(ops: seq<Op>) {
    ops != [] && (ops[|ops| - 1].Reload? || EverReloaded(ops[..|ops| - 1]))
  }

  /**
   Each section's version is its number of history records, its parent one less, its creation that
   of the first; of the intervention decision as long as no new process hydrated the envelope.
   */
  lemma {:induction false} VersionsCountHistory(ops: seq<Op>)
    ensures Provenance(Run(ops), EverReloaded(ops)) && Provenance(Newest(ops), EverReloaded(ops))
  {
    if ops != [] {
      var before, op := ops[..|ops| - 1], ops[|ops| - 1];
      VersionsCountHistory(before);
      if op.WriteSection? { WriteKeepsProvenance(Run(before), op.agent, op.now, EverReloaded(before)); }
      if op.Reload? { HydrationKeepsOthers(Newest(before), EverReloaded(before)); }
    }
  }

  lemma HydrationKeepsOthers(s: State, hydrated: bool)
    requires Provenance(s, hydrated)
    ensures Provenance(Hydrated(s), true) && Provenance(s, true)
  {
    forall x | x != InterventionDecision ensures SectionOk(Hydrated(s), x) {
      assert SectionOk(s, x);
    }
  }

  /** The history that the newest process found: what the latest snapshot held when it started. */
  function Inherited(ops: seq<Op>): seq<HistoryRecord> {
    if ops == [] then []
    else if ops[|ops| - 1].Reload? then Newest(ops[..|ops| - 1]).history
    else Inherited(ops[..|ops| - 1])
  }

  /** The intervention decision is numbered from what was inherited. */
  predicate NumberedSince(s: State, inherited: seq<HistoryRecord>) {
    var x := InterventionDecision;
    var n := Count(s.history, x) - Count(inherited, x);
    && n >= 0 && (x in s.sections <==> n > 0)
    && (x in s.sections ==>
          && s.sections[x].version == n && s.sections[x].parent == (if n == 1 then None else Some(n - 1))
          && (Count(inherited, x) == 0 ==> s.sections[x].createdAt == FirstCreated(s.history, x)))
  }

  lemma WriteKeepsNumberedSince(s: State, agent: Agent, now: int, inherited: seq<HistoryRecord>)
    requires NumberedSince(s, inherited)
    ensures NumberedSince(Write(s, agent, FreshMeta(now, agent)), inherited)
  {
    if SectionOf(agent).Some? {
      var after := Write(s, agent, FreshMeta(now, agent));
      AppendCounts(s.history, after.history[|s.history|], InterventionDecision);
    }
  }

  lemma {:induction false} InterventionIsNumberedSince(ops: seq<Op>)
    ensures NumberedSince(Run(ops), Inherited(ops))
  {
    if ops != [] {
      var before, op := ops[..|ops| - 1], ops[|ops| - 1];
      InterventionIsNumberedSince(before);
      if op.WriteSection? { WriteKeepsNumberedSince(Run(before), op.agent, op.now, Inherited(before)); }
    }
  }

  /** The intervention decision is numbered by the history exactly if no earlier process had written one. */
  lemma InterventionVersionsExactly(ops: seq<Op>)
    ensures SectionOk(Run(ops), InterventionDecision) <==> Count(Inherited(ops), InterventionDecision) == 0
  {
    InterventionIsNumberedSince(ops);
  }

  /** The intervention agent writes, the process ends, a new one writes again: the second version is 1, not 2. */
  lemma HydrationRestartsVersions(first: int, second: int)
    ensures var ops := [WriteSection(InterventionAgent, first), SaveSnapshot, Reload,
                        WriteSection(InterventionAgent, second)];
            var s := Run(ops);
            && Count(s.history, InterventionDecision) == 2
            && InterventionDecision in s.sections && s.sections[InterventionDecision].version == 1
  {
    var a, b := WriteSection(InterventionAgent, first), WriteSection(InterventionAgent, second);
    var ops := [a, SaveSnapshot, Reload, b];
    assert ops[..3] == [a, SaveSnapshot, Reload] && [a, SaveSnapshot, Reload][..2] == [a, SaveSnapshot];
    assert [a, SaveSnapshot][..1] == [a] && [a][..0] == [];
    assert Run([]) == EMPTY;
    var saved := Run([a]);
    assert Newest([a, SaveSnapshot]) == saved;
    assert Run([a, SaveSnapshot, Reload]) == Hydrated(saved);
    var s := Run(ops);
    assert s.history == saved.history + [s.history[1]];
    AppendCounts([], saved.history[0], InterventionDecision);
    assert [] + [saved.history[0]] == saved.history;
    AppendCounts(saved.history, s.history[1], InterventionDecision);
  }

  // ----- Snapshots hold the last envelope of each length -----

  /** The envelope at the last snapshot whose version is `v`. */
  function LastSaved(ops: seq<Op>, v: nat): Option<State> {
    if ops == [] then None
    else if ops[|ops| - 1].SaveSnapshot? && VersionFor(Run(ops)) == v then Some(Run(ops))
    else LastSaved(ops[..|ops| - 1], v)
  }

  lemma {:induction false} DroppedLookup(table: seq<Snapshot>, run: string, version: nat, v: nat)
    ensures Lookup(Dropped(table, run, version), run, v) == if v == version then None else Lookup(table, run, v)
  {
    if table != [] {
      var rest, last := Dropped(table[..|table| - 1], run, version), table[|table| - 1];
      DroppedLookup(table[..|table| - 1], run, version, v);
      if !(last.run == run && last.version == version) { assert (rest + [last])[..|rest|] == rest; }
    }
  }

  lemma SaveLookup(table: seq<Snapshot>, run: string, s: State, v: nat)
    ensures Lookup(Save(table, run, s), run, v) == if v == VersionFor(s) then Some(s) else Lookup(table, run, v)
  {
    DroppedLookup(table, run, VersionFor(s), v);
    var rest := Dropped(table, run, VersionFor(s));
    assert Save(table, run, s)[..|rest|] == rest;
  }

  /** The snapshot of each version is the envelope last saved at that history length. */
  lemma {:induction false} SnapshotIsLastSaved(table: seq<Snapshot>, run: string, ops: seq<Op>, v: nat)
    requires Lookup(table, run, v) == None
    ensures Lookup(Snapshots(table, run, ops), run, v) == LastSaved(ops, v)
  {
    if ops != [] {
      SnapshotIsLastSaved(table, run, ops[..|ops| - 1], v);
      SaveLookup(Snapshots(table, run, ops[..|ops| - 1]), run, Run(ops), v);
    }
  }

  /** A snapshot at the start, and after each write a snapshot, unless the process ends and the write is lost. */
  predicate Diligent(ops: seq<Op>) {
    && ops != [] && ops[0].SaveSnapshot?
    && forall i :: 0 <= i < |ops| && ops[i].WriteSection? ==> i + 1 < |ops| && !ops[i + 1].WriteSection?
  }

  /** The same for a run that may have just written. */
  predicate Writing(ops: seq<Op>) {
    && ops != [] && ops[0].SaveSnapshot?
    && forall i :: 0 <= i < |ops| - 1 && ops[i].WriteSection? ==> !ops[i + 1].WriteSection?
  }

  /**
   The versions saved so far are those up to the newest snapshot's; the envelope is that, or one
   write ahead of it.
   */
  predicate SavedUpTo(ops: seq<Op>, v: nat) {
    var newest, now := VersionFor(Newest(ops)), VersionFor(Run(ops));
    && (LastSaved(ops, v).Some? <==> 1 <= v <= newest)
    && newest <= now <= newest + 1
    && (ops != [] && !ops[|ops| - 1].WriteSection? ==> Run(ops).history == Newest(ops).history)
  }

  lemma {:induction false} SavedBelow(ops: seq<Op>, v: nat)
    requires Writing(ops)
    ensures SavedUpTo(ops, v)
  {
    var before := ops[..|ops| - 1];
    if before == [] {
      assert Run(before) == EMPTY;
      assert LastSaved(before, v) == None;
    } else {
      assert Writing(before) by {
        forall i | 0 <= i < |before| - 1 && before[i].WriteSection? ensures !before[i + 1].WriteSection? {
          assert ops[i] == before[i] && ops[i + 1] == before[i + 1];
        }
      }
      SavedBelow(before, v);
      assert before[|before| - 1] == ops[|ops| - 2];
    }
  }

  /** The snapshots of a run occupy exactly the versions 1 to max(history length, 1). */
  lemma SnapshotVersionsAreContiguous(table: seq<Snapshot>, run: string, ops: seq<Op>, v: nat)
    requires Diligent(ops) && Lookup(table, run, v) == None
    ensures Lookup(Snapshots(table, run, ops), run, v).Some? <==> 1 <= v <= VersionFor(Run(ops))
    ensures Run(ops).history == Newest(ops).history
  {
    SnapshotIsLastSaved(table, run, ops, v);
    SavedBelow(ops, v);
  }
}
