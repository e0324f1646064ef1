/**
 What each call of the CRM tool does, field by field: the tables it leaves, the response it gives and
 what it remembers.
 */
module CrmRules {
  import opened Options
  import opened Crm
  import opened CrmResults

  /** The record a call works on: the stored one, or the seed of a deal that is new. */
  function Known(t: Tables, deal: string, now: Time): Record {
    if deal in t.deals then t.deals[deal] else Record(deal, "crm-" + deal, "proposal", 1, now, "revops-simulated")
  }

  /** The tables with this record and log for the deal. */
  function With(t: Tables, deal: string, record: Record, log: seq<Activity>): Tables {
    Tables(t.deals[deal := record], t.activities[deal := log])
  }

  predicate Stale(record: Record, expected: Option<int>) {
    expected.Some? && expected.value != record.version
  }

  /** The whole effect of a stage write. */
  lemma StageWriteExactly(s: Store, deal: string, stage: string, key: string, expected: Option<int>, id: string,
          now: Time)
    ensures var (next, response) := Write(s, UpdateStage(deal, stage, key, expected), id, now);
            var cacheKey, record, log := "stage:" + deal + ":" + key, Known(s.tables, deal, now), LogOf(s.tables, deal);
            if cacheKey in s.cache then next == s && response == s.cache[cacheKey]
            else if Stale(record, expected) then
              && response == Response(false, "update_deal_stage", deal, record, [], Conflict(key, stage),
                                      Hints(record.version, record.lastModified, true, true))
              && next == Store(With(s.tables, deal, record, log), s.cache[cacheKey := response])
            else
              var entry := Activity(id, "stage_update", now, StageChange(record.stage, stage, key));
              var written := Record(record.dealId, record.recordId, stage, record.version + 1, now, record.owner);
              && response == Response(true, "update_deal_stage", deal, written, [entry], Updated(key, stage),
                                      Hints(record.version + 1, now, false, false))
              && next == Store(With(s.tables, deal, written, log + [entry]), s.cache[cacheKey := response])
  {
  }

  /** The whole effect of an activity write: the stage stays, the version and the time move. */
  lemma ActivityWriteExactly(s: Store, deal: string, activityType: string, note: string, key: string,
          expected: Option<int>, metadata: map<string, string>, id: string, now: Time)
    ensures var r := AppendActivity(deal, activityType, note, key, expected, metadata);
            var (next, response) := Write(s, r, id, now);
            var cacheKey := "activity:" + deal + ":" + key;
            var record, log := Known(s.tables, deal, now), LogOf(s.tables, deal);
            if cacheKey in s.cache then next == s && response == s.cache[cacheKey]
            else if Stale(record, expected) then
              && response == Response(false, "append_activity_log", deal, record, [], Conflict(key, activityType),
                                      Hints(record.version, record.lastModified, true, true))
              && next == Store(With(s.tables, deal, record, log), s.cache[cacheKey := response])
            else
              var entry := Activity(id, activityType, now, Note(note, key, metadata));
              var written := record.(version := record.version + 1, lastModified := now);
              && response == Response(true, "append_activity_log", deal, written, [entry], Logged(key, activityType),
                                      Hints(record.version + 1, now, false, false))
              && next == Store(With(s.tables, deal, written, log + [entry]), s.cache[cacheKey := response])
  {
  }

  /** The whole effect of the two reads: they seed a missing record, and report it with the newest entries first. */
  lemma ReadsExactly(t: Tables, deal: string, limit: int, now: Time)
    ensures var record, log := Known(t, deal, now), LogOf(t, deal);
            var (seeded, one) := FetchRecord(t, deal, now);
            var (again, timeline) := FetchTimeline(t, deal, limit, now);
            && seeded == again == With(t, deal, record, log)
            && one == Response(true, "fetch_deal_record", deal, record, [], NoWrite,
                               Hints(record.version, record.lastModified, false, false))
            && timeline == one.(operation := "fetch_activity_timeline", timeline := timeline.timeline)
            && |timeline.timeline| == (if limit <= 0 then 0 else if limit >= |log| then |log| else limit)
            && forall k :: 0 <= k < |timeline.timeline| ==> timeline.timeline[k] == log[|log| - 1 - k]
  {
  }

  /** A note that was written is the first that a read returns, with its text and the message it belongs to. */
  lemma WrittenNoteIsReadFirst(s: Store, deal: string, note: string, message: string, id: string, now: Time,
          limit: int, later: Time)
    requires limit >= 1 && "activity:" + deal + ":" + ("message:" + message) !in s.cache
    ensures var next := Write(s, CrmNote(deal, note, message), id, now).0;
            var timeline := FetchTimeline(next.tables, deal, limit, later).1.timeline;
            timeline != [] &&
            timeline[0] == Activity(id, "workflow_note", now,
                                    Note(note, "message:" + message, map["linked_message_id" := message]))
  {
    ActivityWriteExactly(s, deal, "workflow_note", note, "message:" + message, None,
                         map["linked_message_id" := message], id, now);
    ReadsExactly(Write(s, CrmNote(deal, note, message), id, now).0.tables, deal, limit, later);
    hide Write, FetchTimeline;
  }
}
