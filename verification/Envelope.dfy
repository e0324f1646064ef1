/**
 Provenance of a context envelope: section versions and history, and the snapshots of a run that
 are keyed by history length.
 */
module Envelope {
  import opened Options

  datatype Agent =
    | SignalAgent | ContextAgent | StrategistAgent | InterventionAgent
    | ActionAgent | CrmAgent | ExecutionAgent | EvaluatorAgent
    | UnknownAgent(name: string)

  datatype Section =
    | SignalContext | DealContext | DecisionContext | InterventionDecision
    | ActionContext | ExecutionContext | OutcomeContext

  /** The one section each agent may write; the action and the CRM agent share theirs. */
  function SectionOf(agent: Agent): Option<Section> {
    match agent
    case SignalAgent => Some(SignalContext)
    case ContextAgent => Some(DealContext)
    case StrategistAgent => Some(DecisionContext)
    case InterventionAgent => Some(InterventionDecision)
    case ActionAgent => Some(ActionContext)
    case CrmAgent => Some(ActionContext)
    case ExecutionAgent => Some(ExecutionContext)
    case EvaluatorAgent => Some(OutcomeContext)
    case UnknownAgent(_) => None
  }

  datatype Meta = Meta(version: int, parent: Option<int>, createdAt: int, source: Agent)

  /** The metadata a new section value is born with. */
  function FreshMeta(now: int, source: Agent): Meta {
    Meta(1, None, now, source)
  }

  datatype HistoryRecord = HistoryRecord(agent: Agent, section: Section, meta: Meta)

  datatype State = State(sections: map<Section, Meta>, history: seq<HistoryRecord>)

  const EMPTY := State(map[], [])

  /** The metadata of a new section value once it is written over `current`. */
  function Refined(current: Option<Meta>, value: Meta, agent: Agent): Meta {
    match current
    case None => value.(source := agent)
    case Some(c) => Meta(c.version + 1, Some(c.version), c.createdAt, agent)
  }

  function Current(s: State, x: Section): Option<Meta> {
    if x in s.sections then Some(s.sections[x]) else None
  }

  function Write(s: State, agent: Agent, value: Meta): State {
    match SectionOf(agent)
    case None => s
    case Some(x) =>
      var meta := Refined(Current(s, x), value, agent);
      State(s.sections[x := meta], s.history + [HistoryRecord(agent, x, meta)])
  }

  // ----- Snapshots -----

  datatype Snapshot = Snapshot(run: string, version: nat, state: State)

  function VersionFor(s: State): nat {
    if |s.history| < 1 then 1 else |s.history|
  }

  function Dropped(table: seq<Snapshot>, run: string, version: nat): seq<Snapshot> {
    if table == [] then []
    else
      var last, rest := table[|table| - 1], Dropped(table[..|table| - 1], run, version);
      if last.run == run && last.version == version then rest else rest + [last]
  }

  /** Insert or replace: the row of the same run and version makes place for a new one at the end. */
  function Save(table: seq<Snapshot>, run: string, s: State): seq<Snapshot> {
    Dropped(table, run, VersionFor(s)) + [Snapshot(run, VersionFor(s), s)]
  }

  function Lookup(table: seq<Snapshot>, run: string, version: nat): Option<State> {
    if table == [] then None
    else
      var last := table[|table| - 1];
      if last.run == run && last.version == version then Some(last.state)
      else Lookup(table[..|table| - 1], run, version)
  }

  class ContextEnvelope {
    var sections: map<Section, Meta>
    var history: seq<HistoryRecord>

    function Contents(): State
      reads this
    {
      State(sections, history)
    }

    constructor ()
      ensures Contents() == EMPTY
    {
      sections, history := map[], [];
    }

    method AppendOrRefineSection(agent: Agent, value: Meta) returns (ok: bool)
      modifies this
      ensures Contents() == Write(old(Contents()), agent, value)
      ensures ok <==> !agent.UnknownAgent?
    {
      var section := SectionOf(agent);
      if section.None? {
        return false;
      }
      var meta := value;
      if section.value in sections {
        var current := sections[section.value];
        meta := meta.(version := current.version + 1, parent := Some(current.version), createdAt := current.createdAt);
      }
      meta := meta.(source := agent);
      sections := sections[section.value := meta];
      history := history + [HistoryRecord(agent, section.value, meta)];
      ok := true;
    }
  }
}
