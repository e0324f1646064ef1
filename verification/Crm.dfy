/**
 The CRM store: deal records with optimistic versions, an append-only activity log per deal and
 the idempotency cache, whose keys are plain concatenations.  Calls are functions on the tables
 here; class `CrmStore` performs them in place.  `CrmResults` has the properties of whole runs.
 */
module Crm {
  import opened Options

  type Time = int

  datatype Record = Record(dealId: string, recordId: string, stage: string, version: int, lastModified: Time,
          owner: string)

  datatype Details =
    | StageChange(fromStage: string, toStage: string, key: string)
    | Note(note: string, key: string, metadata: map<string, string>)

  datatype Activity = Activity(id: string, eventType: string, createdAt: Time, details: Details)

  datatype Hints = Hints(version: int, lastModified: Time, conflictDetected: bool, resolutionRequired: bool)

  datatype WriteResult =
    | NoWrite
    | Conflict(key: string, requested: string)
    | Updated(key: string, stage: string)
    | Logged(key: string, activityType: string)

  datatype Response = Response(
    success: bool,
    operation: string,
    dealId: string,
    record: Record,
    timeline: seq<Activity>,
    write: WriteResult,
    hints: Hints)

  datatype Tables = Tables(deals: map<string, Record>, activities: map<string, seq<Activity>>)

  const EMPTY_TABLES := Tables(map[], map[])

  // ----- Calls -----

  datatype Kind = StageWrite | ActivityWrite

  /** What a write asks for; the two kinds share the idempotency and the version check. */
  datatype Request =
    | UpdateStage(deal: string, stage: string, key: string, expected: Option<int>)
    | AppendActivity(deal: string, activityType: string, note: string, key: string, expected: Option<int>,
                     metadata: map<string, string>)
  {
    function Kind(): Kind {
      if UpdateStage? then StageWrite else ActivityWrite
    }
  }

  function Operation(kind: Kind): string {
    match kind
    case StageWrite => "update_deal_stage"
    case ActivityWrite => "append_activity_log"
  }

  function SeedRecord(deal: string, now: Time): Record {
    Record(deal, "crm-" + deal, "proposal", 1, now, "revops-simulated")
  }

  function GetOrCreate(t: Tables, deal: string, now: Time): Tables {
    Tables(if deal in t.deals then t.deals else t.deals[deal := SeedRecord(deal, now)],
           if deal in t.activities then t.activities else t.activities[deal := []])
  }

  function LogOf(t: Tables, deal: string): seq<Activity> {
    if deal in t.activities then t.activities[deal] else []
  }

  function VersionOf(t: Tables, deal: string): int {
    if deal in t.deals then t.deals[deal].version else 1
  }

  function HintsFor(record: Record, expected: Option<int>): Hints {
    var conflict := expected.Some? && expected.value != record.version;
    Hints(record.version, record.lastModified, conflict, conflict)
  }

  function EntryFor(r: Request, record: Record, id: string, now: Time): Activity {
    match r
    case UpdateStage(_, stage, key, _) => Activity(id, "stage_update", now, StageChange(record.stage, stage, key))
    case AppendActivity(_, activityType, note, key, _, metadata) =>
      Activity(id, activityType, now, Note(note, key, metadata))
  }

  function Written(r: Request, record: Record, now: Time): Record {
    record.(stage := if r.UpdateStage? then r.stage else record.stage, version := record.version + 1,
        lastModified := now)
  }

  /** A write that no cache answers: a conflict response and no change, or one entry and the next version. */
  function Take(t: Tables, r: Request, id: string, now: Time): (Tables, Response) {
    var seeded := GetOrCreate(t, r.deal, now);
    var record := seeded.deals[r.deal];
    var operation := Operation(r.Kind());
    if HintsFor(record, r.expected).conflictDetected then
      (seeded,
       Response(false, operation, r.deal, record, [],
                Conflict(r.key, if r.UpdateStage? then r.stage else r.activityType), HintsFor(record, r.expected)))
    else
      var next, entry := Written(r, record, now), EntryFor(r, record, id, now);
      (Tables(seeded.deals[r.deal := next], seeded.activities[r.deal := seeded.activities[r.deal] + [entry]]),
       Response(true, operation, r.deal, next, [entry],
                if r.UpdateStage? then Updated(r.key, r.stage) else Logged(r.key, r.activityType),
                HintsFor(next, None)))
  }

  function CacheKey(kind: Kind, deal: string, key: string): string {
    (if kind == StageWrite then "stage:" else "activity:") + deal + ":" + key
  }

  function KeyOf(r: Request): string {
    CacheKey(r.Kind(), r.deal, r.key)
  }

  datatype Store = Store(tables: Tables, cache: map<string, Response>)

  const EMPTY_STORE := Store(EMPTY_TABLES, map[])

  function Write(s: Store, r: Request, id: string, now: Time): (Store, Response) {
    if KeyOf(r) in s.cache then (s, s.cache[KeyOf(r)])
    else
      var (tables, response) := Take(s.tables, r, id, now);
      (Store(tables, s.cache[KeyOf(r) := response]), response)
  }

  /** The request `update_crm` makes for a message. */
  function CrmNote(deal: string, note: string, message: string): Request {
    AppendActivity(deal, "workflow_note", note, "message:" + message, None, map["linked_message_id" := message])
  }

  /** The newest `limit` entries, newest first; a negative limit reads none. */
  function Recent(log: seq<Activity>, limit: int): seq<Activity> {
    var n := if limit < 0 then 0 else if limit < |log| then limit else |log|;
    seq(n, i requires 0 <= i < n => log[|log| - 1 - i])
  }

  /** Reads seed a missing record too. */
  function FetchRecord(t: Tables, deal: string, now: Time): (Tables, Response) {
    var seeded := GetOrCreate(t, deal, now);
    var record := seeded.deals[deal];
    (seeded, Response(true, "fetch_deal_record", deal, record, [], NoWrite, HintsFor(record, None)))
  }

  function FetchTimeline(t: Tables, deal: string, limit: int, now: Time): (Tables, Response) {
    var seeded := GetOrCreate(t, deal, now);
    var record := seeded.deals[deal];
    (seeded, Response(true, "fetch_activity_timeline", deal, record, Recent(seeded.activities[deal], limit), NoWrite,
                      HintsFor(record, None)))
  }
}
