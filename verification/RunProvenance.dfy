/**
 The section writes and snapshots that workflow runs and resumes make, derived from the steps they
 handle and the events they reach.  They keep the discipline under which snapshot versions are
 contiguous, and the envelope's history is the one the approval runs keep.
 */
module RunProvenance {
  import opened Options
  import opened Policy
  import opened Execution
  import opened Approval
  import opened ApprovalResults
  import opened RunRecords
  import opened ApprovalNotes
  import Crm
  import Workflow
  import Envelope
  import EnvelopeResults

  // ----- Moves of the envelope -----

  /**
   What happens to the envelope of a run: a section is written, a snapshot taken, or it is reloaded
   from the latest one.
   */
  datatype Move = Writes(agent: Envelope.Agent) | Saves | Reloads

  /** The moves at the times the clock shows. */
  function Stamp(moves: seq<Move>, clock: nat -> int): (ops: seq<EnvelopeResults.Op>)
    ensures |ops| == |moves|
  {
    seq(|moves|, i requires 0 <= i < |moves| =>
      match moves[i]
      case Writes(agent) => EnvelopeResults.WriteSection(agent, clock(i))
      case Saves => EnvelopeResults.SaveSnapshot
      case Reloads => EnvelopeResults.Reload)
  }

  lemma StampAppend(moves: seq<Move>, move: Move, clock: nat -> int)
    ensures var ops := Stamp(moves + [move], clock);
            ops[..|moves|] == Stamp(moves, clock) && ops == Stamp(moves, clock) + [ops[|moves|]]
  {
  }

  /** Every write is followed by a snapshot or a reload. */
  predicate Whole(moves: seq<Move>) {
    forall i :: 0 <= i < |moves| && moves[i].Writes? ==> i + 1 < |moves| && !moves[i + 1].Writes?
  }

  lemma WholeAppend(moves: seq<Move>, more: seq<Move>)
    requires Whole(moves) && Whole(more)
    ensures Whole(moves + more)
  {
    var all := moves + more;
    forall i | 0 <= i < |all| && all[i].Writes? ensures i + 1 < |all| && !all[i + 1].Writes? {
      if i < |moves| {
        assert all[i] == moves[i] && all[i + 1] == moves[i + 1];
      } else {
        assert all[i] == more[i - |moves|] && all[i + 1] == more[i + 1 - |moves|];
      }
    }
  }

  lemma WholeIsDiligent(moves: seq<Move>, clock: nat -> int)
    requires Whole(moves) && moves != [] && moves[0].Saves?
    ensures EnvelopeResults.Diligent(Stamp(moves, clock))
  {
    var ops := Stamp(moves, clock);
    forall i | 0 <= i < |ops| && ops[i].WriteSection? ensures i + 1 < |ops| && !ops[i + 1].WriteSection? {
      assert moves[i].Writes? && !moves[i + 1].Writes?;
    }
  }

  // ----- Moves of the approval runs -----

  function AgentNamed(name: string): Envelope.Agent {
    if name == "execution_agent" then Envelope.ExecutionAgent
    else if name == "evaluator_agent" then Envelope.EvaluatorAgent
    else Envelope.UnknownAgent(name)
  }

  function EventMove(e: Event): seq<Move> {
    match e
    case AddRecord(agent) => [Writes(AgentNamed(agent))]
    case SaveSnapshot => [Saves]
    case _ => []
  }

  function EventMoves(events: seq<Event>, n: nat): seq<Move>
    requires n <= |events|
  {
    if n == 0 then [] else EventMoves(events, n - 1) + EventMove(events[n - 1])
  }

  function OpMoves(ctx: Context, env: Environment, s: Session, op: Op): seq<Move> {
    EventMoves(OpEvents(ctx, env, s, op), OpReached(ctx, env, s, op))
    + (if EndsProcess(op) then [Reloads] else if op.SaveFailedRun? then [Saves] else [])
  }

  function SessionMoves(ctx: Context, env: Environment, s: Session, ops: seq<Op>): seq<Move> {
    if ops == [] then []
    else
      var before := ops[..|ops| - 1];
      SessionMoves(ctx, env, s, before) + OpMoves(ctx, env, Run(ctx, env, s, before), ops[|ops| - 1])
  }

  // ----- Their discipline -----

  /** The moves of the first `n` events of an execution that did not raise. */
  lemma {:induction false} UnraisedMoves(evaluatorRaises: bool, n: nat)
    requires n <= |Events(false, evaluatorRaises)|
    ensures var first, second := Writes(Envelope.ExecutionAgent), Writes(Envelope.EvaluatorAgent);
            EventMoves(Events(false, evaluatorRaises), n)
            == if n < 1 then [] else if n < 4 then [first] else if evaluatorRaises || n < 5 then [first, Saves]
               else if n < 9 then [first, Saves, second] else [first, Saves, second, Saves]
  {
    EventAt(evaluatorRaises);
    if n > 0 { UnraisedMoves(evaluatorRaises, n - 1); }
  }

  lemma UnraisedIsWhole(evaluatorRaises: bool, n: nat)
    requires n <= |Events(false, evaluatorRaises)|
    ensures Whole(EventMoves(Events(false, evaluatorRaises), n) + [Reloads])
    ensures n == |Events(false, evaluatorRaises)| ==> Whole(EventMoves(Events(false, evaluatorRaises), n))
  {
    hide EventMoves;
    UnraisedMoves(evaluatorRaises, n);
    EventAt(evaluatorRaises);
  }

  lemma ConclusionIsWhole(raised: bool, fate: Fate)
    ensures var events := Events(raised, fate.evaluatorRaises);
            Whole(EventMoves(events, Reached(fate, |events|)) + (if fate.Dies? then [Reloads] else []))
  {
    var events := Events(raised, fate.evaluatorRaises);
    var n := Reached(fate, |events|);
    assert EventMoves(events, n) + [] == EventMoves(events, n);
    if raised {
      assert EventMoves(FAILED, n) == [];
    } else {
      UnraisedIsWhole(fate.evaluatorRaises, n);
    }
  }

  lemma OpIsWhole(ctx: Context, env: Environment, s: Session, op: Op)
    ensures Whole(OpMoves(ctx, env, s, op))
  {
    if op.Approve? && !Finished(Ready(s, op)) {
      ConclusionIsWhole(Execute(ctx, env, Ready(s, op)).raised.Some?, op.fate);
    }
  }

  lemma {:induction false} SessionIsWhole(ctx: Context, env: Environment, s: Session, ops: seq<Op>)
    ensures Whole(SessionMoves(ctx, env, s, ops))
  {
    if ops != [] {
      var before := ops[..|ops| - 1];
      SessionIsWhole(ctx, env, s, before);
      OpIsWhole(ctx, env, Run(ctx, env, s, before), ops[|ops| - 1]);
      WholeAppend(SessionMoves(ctx, env, s, before), OpMoves(ctx, env, Run(ctx, env, s, before), ops[|ops| - 1]));
    }
  }

  // ----- Their history -----

  function NameOf(agent: Envelope.Agent): string {
    match agent
    case SignalAgent => "signal_agent"
    case ContextAgent => "context_agent"
    case StrategistAgent => "strategist_agent"
    case InterventionAgent => "intervention_agent"
    case ActionAgent => "action_agent"
    case CrmAgent => "crm_agent"
    case ExecutionAgent => "execution_agent"
    case EvaluatorAgent => "evaluator_agent"
    case UnknownAgent(name) => name
  }

  /** The agents of the envelope's history records. */
  function Names(history: seq<Envelope.HistoryRecord>): (names: seq<string>)
    ensures |names| == |history|
  {
    if history == [] then [] else Names(history[..|history| - 1]) + [NameOf(history[|history| - 1].agent)]
  }

  /** The envelope in memory and the one in the latest snapshot have the histories of the session. */
  predicate Follows(moves: seq<Move>, clock: nat -> int, memory: seq<string>, saved: seq<string>) {
    var ops := Stamp(moves, clock);
    Names(EnvelopeResults.Run(ops).history) == memory && Names(EnvelopeResults.Newest(ops).history) == saved
  }

  lemma MoveFollows(moves: seq<Move>, move: Move, clock: nat -> int, memory: seq<string>, saved: seq<string>)
    requires Follows(moves, clock, memory, saved) && (move.Writes? ==> !move.agent.UnknownAgent?)
    ensures match move
            case Writes(agent) => Follows(moves + [move], clock, memory + [NameOf(agent)], saved)
            case Saves => Follows(moves + [move], clock, memory, memory)
            case Reloads => Follows(moves + [move], clock, saved, saved)
  {
    StampAppend(moves, move, clock);
    var before := EnvelopeResults.Run(Stamp(moves, clock));
    if move.Writes? {
      var after := EnvelopeResults.Run(Stamp(moves + [move], clock));
      assert after.history[..|before.history|] == before.history;
    }
  }

  predicate KnownAgent(name: string) {
    name == "execution_agent" || name == "evaluator_agent"
  }

  lemma EventsAddKnownAgents(raised: bool, evaluatorRaises: bool)
    ensures var events := Events(raised, evaluatorRaises);
            forall i :: 0 <= i < |events| && events[i].AddRecord? ==> KnownAgent(events[i].agent)
  {
    if !raised { EventAt(evaluatorRaises); }
  }

  lemma {:induction false} EventsFollow(moves: seq<Move>, clock: nat -> int, s: Session, events: seq<Event>, n: nat)
    requires n <= |events| && Follows(moves, clock, s.memory.history, s.saved.history)
    requires forall i :: 0 <= i < |events| && events[i].AddRecord? ==> KnownAgent(events[i].agent)
    ensures var t := After(s, events, n);
            Follows(moves + EventMoves(events, n), clock, t.memory.history, t.saved.history)
  {
    hide Follows, Happen;
    if n == 0 {
      assert moves + [] == moves;
    } else {
      EventsFollow(moves, clock, s, events, n - 1);
      var before, t := moves + EventMoves(events, n - 1), After(s, events, n - 1);
      EventFollows(before, clock, t, events[n - 1]);
      NextMoves(moves, events, n);
    }
  }

  lemma NextMoves(moves: seq<Move>, events: seq<Event>, n: nat)
    requires 0 < n <= |events|
    ensures moves + EventMoves(events, n) == (moves + EventMoves(events, n - 1)) + EventMove(events[n - 1])
  {
  }

  lemma EventFollows(moves: seq<Move>, clock: nat -> int, s: Session, e: Event)
    requires Follows(moves, clock, s.memory.history, s.saved.history)
    requires e.AddRecord? ==> KnownAgent(e.agent)
    ensures Follows(moves + EventMove(e), clock, Happen(s, e).memory.history, Happen(s, e).saved.history)
  {
    match e
    case AddRecord(agent) => MoveFollows(moves, Writes(AgentNamed(agent)), clock, s.memory.history, s.saved.history);
    case SaveSnapshot => MoveFollows(moves, Saves, clock, s.memory.history, s.saved.history);
    case _ => assert moves + [] == moves;
  }

  lemma ApproveFollows(moves: seq<Move>, clock: nat -> int, s: Session, raised: bool, fate: Fate)
    requires Follows(moves, clock, s.memory.history, s.saved.history)
    ensures var events, t := Events(raised, fate.evaluatorRaises), Conclusion(s, raised, fate);
            var after := moves + EventMoves(events, Reached(fate, |events|));
            && Follows(after, clock, t.memory.history, t.saved.history)
            && Follows(after + [Reloads], clock, t.saved.history, t.saved.history)
  {
    var events, t := Events(raised, fate.evaluatorRaises), Conclusion(s, raised, fate);
    EventsAddKnownAgents(raised, fate.evaluatorRaises);
    EventsFollow(moves, clock, s, events, Reached(fate, |events|));
    MoveFollows(moves + EventMoves(events, Reached(fate, |events|)), Reloads, clock, t.memory.history, t.saved.history);
  }

  /** A call that does not run the agent leaves the histories, unless it ends the process or takes a snapshot. */
  lemma IdleFollows(moves: seq<Move>, clock: nat -> int, ctx: Context, env: Environment, s: Session, op: Op)
    requires Follows(moves, clock, s.memory.history, s.saved.history)
    requires !(op.Approve? && !Finished(Ready(s, op)))
    ensures var t := Step(ctx, env, s, op);
            Follows(moves + OpMoves(ctx, env, s, op), clock, t.memory.history, t.saved.history)
  {
    hide Follows;
    assert OpMoves(ctx, env, s, op) == if EndsProcess(op) then [Reloads] else if op.SaveFailedRun? then [Saves] else [];
    assert moves + [] == moves;
    MoveFollows(moves, Reloads, clock, s.memory.history, s.saved.history);
    MoveFollows(moves, Saves, clock, s.memory.history, s.saved.history);
  }

  lemma StepFollows(moves: seq<Move>, clock: nat -> int, ctx: Context, env: Environment, s: Session, op: Op)
    requires Follows(moves, clock, s.memory.history, s.saved.history)
    ensures var t := Step(ctx, env, s, op);
            Follows(moves + OpMoves(ctx, env, s, op), clock, t.memory.history, t.saved.history)
  {
    hide Follows;
    if op.Approve? && !Finished(Ready(s, op)) {
      var p := Execute(ctx, env, Ready(s, op));
      ApproveFollows(moves, clock, AfterExecution(Readied(Ready(s, op)), p), p.raised.Some?, op.fate);
      var own := EventMoves(OpEvents(ctx, env, s, op), OpReached(ctx, env, s, op));
      Associates(moves, own, if op.fate.Dies? then [Reloads] else []);
      assert (moves + own) + [] == moves + own;
    } else {
      IdleFollows(moves, clock, ctx, env, s, op);
    }
  }

  lemma Associates(x: seq<Move>, y: seq<Move>, z: seq<Move>)
    ensures x + (y + z) == (x + y) + z
  {
  }

  lemma {:induction false} RunFollows(moves: seq<Move>, clock: nat -> int, ctx: Context, env: Environment,
          s: Session, ops: seq<Op>)
    requires Follows(moves, clock, s.memory.history, s.saved.history)
    ensures var t := Run(ctx, env, s, ops);
            Follows(moves + SessionMoves(ctx, env, s, ops), clock, t.memory.history, t.saved.history)
  {
    if ops == [] {
      assert moves + [] == moves;
    } else {
      var before, op := ops[..|ops| - 1], ops[|ops| - 1];
      var mid, made := Run(ctx, env, s, before), SessionMoves(ctx, env, s, before);
      RunFollows(moves, clock, ctx, env, s, before);
      StepFollows(moves + made, clock, ctx, env, mid, op);
      Associates(moves, made, OpMoves(ctx, env, mid, op));
    }
  }

  // ----- Moves of a workflow run -----

  function AgentOf(step: Workflow.StepName): Envelope.Agent {
    match step
    case SignalAgent => Envelope.SignalAgent
    case ContextAgent => Envelope.ContextAgent
    case StrategistAgent => Envelope.StrategistAgent
    case InterventionAgent => Envelope.InterventionAgent
    case ActionAgent => Envelope.ActionAgent
    case CrmAgent => Envelope.CrmAgent
    case ExecutionAgent => Envelope.ExecutionAgent
    case EvaluatorAgent => Envelope.EvaluatorAgent
    case OtherStep(name) => Envelope.UnknownAgent(name)
  }

  /** Each handled agent writes its section and takes a snapshot; the two no-ops do neither. */
  function HandledMoves(steps: seq<Workflow.StepName>): seq<Move> {
    if steps == [] then []
    else
      var last := steps[|steps| - 1];
      HandledMoves(steps[..|steps| - 1]) + (if Workflow.NoOp(last) then [] else [Writes(AgentOf(last)), Saves])
  }

  /** A run takes a snapshot when it starts, and one when it is skipped or a handler raises. */
  function StartMoves(steps: seq<Workflow.StepName>, triggered: bool, agents: Workflow.Agents): seq<Move> {
    if !triggered then [Saves, Saves]
    else
      var n := Workflow.Reach(steps, agents, 0);
      if Workflow.LastRaises(steps, agents, n) then [Saves] + HandledMoves(steps[..n - 1]) + [Saves]
      else [Saves] + HandledMoves(steps[..n])
  }

  lemma {:induction false} HandledIsWhole(steps: seq<Workflow.StepName>)
    ensures Whole(HandledMoves(steps))
  {
    if steps != [] {
      var last := steps[|steps| - 1];
      HandledIsWhole(steps[..|steps| - 1]);
      WholeAppend(HandledMoves(steps[..|steps| - 1]),
          if Workflow.NoOp(last) then [] else [Writes(AgentOf(last)), Saves]);
    }
  }

  lemma StartIsWhole(steps: seq<Workflow.StepName>, triggered: bool, agents: Workflow.Agents)
    ensures var moves := StartMoves(steps, triggered, agents);
            Whole(moves) && moves != [] && moves[0].Saves?
  {
    if triggered {
      var n := Workflow.Reach(steps, agents, 0);
      var raised := Workflow.LastRaises(steps, agents, n);
      var handled := HandledMoves(steps[..if raised then n - 1 else n]);
      HandledIsWhole(steps[..if raised then n - 1 else n]);
      WholeAppend([Saves], handled);
      WholeAppend([Saves] + handled, [Saves]);
    }
  }

  lemma HandledStepFollows(moves: seq<Move>, step: Workflow.StepName, clock: nat -> int, history: seq<string>)
    requires Follows(moves, clock, history, history) && !step.OtherStep?
    ensures var after := history + [Workflow.NameOf(step)];
            Follows(moves + [Writes(AgentOf(step)), Saves], clock, after, after)
  {
    hide Follows;
    var writes := Writes(AgentOf(step));
    MoveFollows(moves, writes, clock, history, history);
    MoveFollows(moves + [writes], Saves, clock, history + [NameOf(AgentOf(step))], history);
    assert moves + [writes, Saves] == (moves + [writes]) + [Saves];
  }

  /** Without a raise the handled agents' names are the history. */
  lemma {:induction false} HandledFollow(steps: seq<Workflow.StepName>, clock: nat -> int)
    requires forall i :: 0 <= i < |steps| ==> !steps[i].OtherStep?
    ensures Follows([Saves] + HandledMoves(steps), clock, Workflow.Records(steps), Workflow.Records(steps))
  {
    hide Follows;
    if steps == [] {
      StartFollows(clock);
      assert [Saves] + [] == [Saves];
    } else {
      var last, front := steps[|steps| - 1], steps[..|steps| - 1];
      HandledFollow(front, clock);
      if Workflow.NoOp(last) {
        assert HandledMoves(steps) == HandledMoves(front);
        assert Workflow.Records(steps) == Workflow.Records(front);
      } else {
        HandledStepFollows([Saves] + HandledMoves(front), last, clock, Workflow.Records(front));
        Associates([Saves], HandledMoves(front), [Writes(AgentOf(last)), Saves]);
      }
    }
  }

  lemma StartFollows(clock: nat -> int)
    ensures Follows([Saves], clock, [], [])
  {
    assert Stamp([], clock) == [];
    assert Follows([], clock, [], []);
    MoveFollows([], Saves, clock, [], []);
    assert [] + [Saves] == [Saves];
  }

  // ----- Snapshots of runs -----

  /** The snapshots that a sequence of moves leaves for a run are those of versions 1 to `n`. */
  ghost predicate SnapshotsAre(table: seq<Envelope.Snapshot>, run: string, ops: seq<EnvelopeResults.Op>, n: nat) {
    forall v: nat :: Envelope.Lookup(EnvelopeResults.Snapshots(table, run, ops), run, v).Some? <==> 1 <= v <= n
  }

  lemma DiligentSnapshots(table: seq<Envelope.Snapshot>, run: string, ops: seq<EnvelopeResults.Op>)
    requires EnvelopeResults.Diligent(ops) && forall v: nat :: Envelope.Lookup(table, run, v) == None
    ensures SnapshotsAre(table, run, ops, Envelope.VersionFor(EnvelopeResults.Run(ops)))
  {
    forall v: nat
      ensures Envelope.Lookup(EnvelopeResults.Snapshots(table, run, ops), run, v).Some?
         <==> 1 <= v <= Envelope.VersionFor(EnvelopeResults.Run(ops))
    {
      EnvelopeResults.SnapshotVersionsAreContiguous(table, run, ops, v);
    }
  }

  /**
   Whatever the agents do, a workflow run leaves the snapshots 1 to max(history length, 1), the last
   one of its envelope.
   */
  lemma StartLeavesSnapshots(steps: seq<Workflow.StepName>, triggered: bool, agents: Workflow.Agents,
                             table: seq<Envelope.Snapshot>, run: string, clock: nat -> int)
    requires forall v: nat :: Envelope.Lookup(table, run, v) == None
    ensures var ops := Stamp(StartMoves(steps, triggered, agents), clock);
            SnapshotsAre(table, run, ops, Envelope.VersionFor(EnvelopeResults.Run(ops)))
  {
    StartIsWhole(steps, triggered, agents);
    WholeIsDiligent(StartMoves(steps, triggered, agents), clock);
    DiligentSnapshots(table, run, Stamp(StartMoves(steps, triggered, agents), clock));
  }

  /** The workflow run created an action with its last handled step. */
  predicate Creates(steps: seq<Workflow.StepName>, agents: Workflow.Agents) {
    var n := Workflow.Reach(steps, agents, 0);
    n > 0 && Workflow.Planner(steps[n - 1]) && !Workflow.LastRaises(steps, agents, n)
  }

  /** The action that the run created. */
  function Created(steps: seq<Workflow.StepName>, agents: Workflow.Agents, crm: Crm.Store): Session
    requires Creates(steps, agents)
  {
    var n := Workflow.Reach(steps, agents, 0);
    Workflow.NewSession(agents, steps[n - 1], Workflow.Records(steps[..n]), crm)
  }

  lemma CreatedFollows(steps: seq<Workflow.StepName>, agents: Workflow.Agents, crm: Crm.Store, clock: nat -> int)
    requires Creates(steps, agents)
    ensures var s := Created(steps, agents, crm);
            Follows(StartMoves(steps, true, agents), clock, s.memory.history, s.saved.history)
  {
    var n := Workflow.Reach(steps, agents, 0);
    Workflow.ReachStopsAtFirst(steps, agents, 0);
    forall i | 0 <= i < n ensures !steps[..n][i].OtherStep? {
      assert !Workflow.HandlerRaises(steps, agents, i);
    }
    HandledFollow(steps[..n], clock);
  }

  /**
   For a run that creates an action and for every sequence of calls on that action, with retries,
   exceptions and process ends: the envelope's history is the session's, its sections are versioned
   by it, and the snapshots of the run are exactly the versions 1 to max(its length, 1).
   */
  lemma RunLeavesSnapshots(steps: seq<Workflow.StepName>, agents: Workflow.Agents, crm: Crm.Store, ctx: Context,
                           env: Environment, ops: seq<Op>, table: seq<Envelope.Snapshot>, run: string,
                           clock: nat -> int)
    requires Creates(steps, agents) && forall v: nat :: Envelope.Lookup(table, run, v) == None
    ensures var s := Created(steps, agents, crm);
            var moves := Stamp(StartMoves(steps, true, agents) + SessionMoves(ctx, env, s, ops), clock);
            var history := Run(ctx, env, s, ops).memory.history;
            && Names(EnvelopeResults.Run(moves).history) == history
            && EnvelopeResults.Provenance(EnvelopeResults.Run(moves), EnvelopeResults.EverReloaded(moves))
            && SnapshotsAre(table, run, moves, if |history| < 1 then 1 else |history|)
  {
    var s := Created(steps, agents, crm);
    var start, own := StartMoves(steps, true, agents), SessionMoves(ctx, env, s, ops);
    CreatedFollows(steps, agents, crm, clock);
    RunFollows(start, clock, ctx, env, s, ops);
    StartIsWhole(steps, true, agents);
    SessionIsWhole(ctx, env, s, ops);
    WholeAppend(start, own);
    WholeIsDiligent(start + own, clock);
    DiligentSnapshots(table, run, Stamp(start + own, clock));
    EnvelopeResults.VersionsCountHistory(Stamp(start + own, clock));
  }

  // ----- A process that ends while the planner stores its plan -----

  /** Neither the envelope nor the latest snapshot has an action. */
  predicate NoAction(moves: seq<Move>, clock: nat -> int) {
    var ops := Stamp(moves, clock);
    && Envelope.ActionContext !in EnvelopeResults.Run(ops).sections
    && Envelope.ActionContext !in EnvelopeResults.Newest(ops).sections
  }

  lemma MoveKeepsNoAction(moves: seq<Move>, move: Move, clock: nat -> int)
    requires NoAction(moves, clock)
    requires move.Writes? ==> Envelope.SectionOf(move.agent) != Some(Envelope.ActionContext)
    ensures NoAction(moves + [move], clock)
  {
    StampAppend(moves, move, clock);
  }

  lemma {:induction false} HandledHaveNoAction(steps: seq<Workflow.StepName>, clock: nat -> int)
    requires forall i :: 0 <= i < |steps| ==> !Workflow.Planner(steps[i])
    ensures NoAction([Saves] + HandledMoves(steps), clock)
  {
    hide NoAction;
    if steps == [] {
      NothingHasNoAction(clock);
      MoveKeepsNoAction([], Saves, clock);
      assert [Saves] + [] == [] + [Saves];
    } else {
      var last, front := steps[|steps| - 1], steps[..|steps| - 1];
      var moves := [Saves] + HandledMoves(front);
      HandledHaveNoAction(front, clock);
      if Workflow.NoOp(last) {
        assert HandledMoves(steps) == HandledMoves(front);
      } else {
        MoveKeepsNoAction(moves, Writes(AgentOf(last)), clock);
        MoveKeepsNoAction(moves + [Writes(AgentOf(last))], Saves, clock);
        assert [Saves] + HandledMoves(steps) == (moves + [Writes(AgentOf(last))]) + [Saves];
      }
    }
  }

  lemma NothingHasNoAction(clock: nat -> int)
    ensures NoAction([], clock)
  {
    assert Stamp([], clock) == [];
  }

  /**
   The commits of a planner's handler are the run status, the action, its steps and the snapshot.  The
   process ends after some of them, and a new one reloads the envelope.
   */
  function InterruptedMoves(steps: seq<Workflow.StepName>, agents: Workflow.Agents, commits: nat): seq<Move>
    requires Creates(steps, agents)
  {
    var n := Workflow.Reach(steps, agents, 0);
    (([Saves] + HandledMoves(steps[..n - 1])) + [Writes(AgentOf(steps[n - 1]))])
    + (if commits == 4 then [Saves, Reloads] else [Reloads])
  }

  datatype Answer = UnknownAction | MissingContext | Resumed

  /** What approving an action comes to: it is looked up in its table, then in the envelope. */
  function AnswerTo(stored: bool, envelope: Envelope.State): Answer {
    if !stored then UnknownAction
    else if Envelope.ActionContext !in envelope.sections then MissingContext
    else Resumed
  }

  lemma PlannerWritesAction(moves: seq<Move>, step: Workflow.StepName, clock: nat -> int)
    requires Workflow.Planner(step) && NoAction(moves, clock)
    ensures var written := moves + [Writes(AgentOf(step))];
            && Envelope.ActionContext !in EnvelopeResults.Run(Stamp(written + [Reloads], clock)).sections
            && Envelope.ActionContext in EnvelopeResults.Run(Stamp(written + [Saves, Reloads], clock)).sections
  {
    var written := moves + [Writes(AgentOf(step))];
    StampAppend(moves, Writes(AgentOf(step)), clock);
    StampAppend(written, Reloads, clock);
    StampAppend(written, Saves, clock);
    StampAppend(written + [Saves], Reloads, clock);
    assert written + [Saves, Reloads] == (written + [Saves]) + [Reloads];
    var state := EnvelopeResults.Run(Stamp(written, clock));
    assert Envelope.ActionContext in state.sections;
    assert EnvelopeResults.Newest(Stamp(written + [Saves], clock)) == state;
  }

  /**
   For every run that creates an action: if the process ends after the action was stored and before
   the snapshot, and only then, the action is listed and approving it raises for want of its context.
   */
  lemma OrphanedActionExactly(steps: seq<Workflow.StepName>, agents: Workflow.Agents, commits: nat, clock: nat -> int)
    requires Creates(steps, agents) && commits <= 4
    ensures var envelope := EnvelopeResults.Run(Stamp(InterruptedMoves(steps, agents, commits), clock));
            && (AnswerTo(commits >= 2, envelope) == MissingContext <==> 2 <= commits < 4)
            && (AnswerTo(commits >= 2, envelope) == Resumed <==> commits == 4)
  {
    var n := Workflow.Reach(steps, agents, 0);
    Workflow.ReachStopsAtFirst(steps, agents, 0);
    HandledHaveNoAction(steps[..n - 1], clock);
    PlannerWritesAction([Saves] + HandledMoves(steps[..n - 1]), steps[n - 1], clock);
  }
}
