/**
 The CRM store's three dictionaries as fields that its calls update in place.
 */
module CrmTool {
  import opened Options
  import opened Crm

  class CrmStore {
    var deals: map<string, Record>
    var activities: map<string, seq<Activity>>
    var cache: map<string, Response>

    function Contents(): Store
      reads this
    {
      Store(Tables(deals, activities), cache)
    }

    constructor ()
      ensures Contents() == EMPTY_STORE
    {
      deals, activities, cache := map[], map[], map[];
    }

    /** A new process starts with empty dictionaries. */
    method Restart()
      modifies this
      ensures Contents() == EMPTY_STORE
    {
      deals, activities, cache := map[], map[], map[];
    }

    method GetOrCreateRecord(deal: string, now: Time) returns (record: Record)
      modifies this`deals, this`activities
      ensures Contents().tables == GetOrCreate(old(Contents()).tables, deal, now)
      ensures deal in deals && record == deals[deal] && deal in activities
    {
      if deal !in deals {
        deals := deals[deal := SeedRecord(deal, now)];
      }
      record := deals[deal];
      if deal !in activities {
        activities := activities[deal := []];
      }
    }

    method FetchDealRecord(deal: string, now: Time) returns (response: Response)
      modifies this`deals, this`activities
      ensures (Contents().tables, response) == FetchRecord(old(Contents()).tables, deal, now)
    {
      var record := GetOrCreateRecord(deal, now);
      response := Response(true, "fetch_deal_record", deal, record, [], NoWrite, HintsFor(record, None));
    }

    method FetchActivityTimeline(deal: string, limit: int, now: Time) returns (response: Response)
      modifies this`deals, this`activities
      ensures (Contents().tables, response) == FetchTimeline(old(Contents()).tables, deal, limit, now)
    {
      var record := GetOrCreateRecord(deal, now);
      var log, timeline := activities[deal], [];
      var i := |log|;
      while i > 0
        invariant 0 <= i <= |log| && |timeline| == |log| - i
        invariant forall j :: 0 <= j < |timeline| ==> timeline[j] == log[|log| - 1 - j]
      {
        i := i - 1;
        timeline := timeline + [log[i]];
      }
      var bound := if limit < 0 then 0 else limit;
      timeline := if bound < |timeline| then timeline[..bound] else timeline;
      assert timeline == Recent(log, limit);
      response := Response(true, "fetch_activity_timeline", deal, record, timeline, NoWrite, HintsFor(record, None));
    }

    method UpdateDealStage(deal: string, stage: string, key: string, expected: Option<int>, id: string, now: Time)
      returns (response: Response)
      modifies this
      ensures (Contents(), response) == Write(old(Contents()), UpdateStage(deal, stage, key, expected), id, now)
    {
      var cacheKey := "stage:" + deal + ":" + key;
      if cacheKey in cache {
        return cache[cacheKey];
      }
      var record := GetOrCreateRecord(deal, now);
      var hints := HintsFor(record, expected);
      if hints.conflictDetected {
        response := Response(false, "update_deal_stage", deal, record, [], Conflict(key, stage), hints);
        cache := cache[cacheKey := response];
        return;
      }
      var prior := record.stage;
      record := record.(stage := stage, version := record.version + 1, lastModified := now);
      deals := deals[deal := record];
      var entry := Activity(id, "stage_update", now, StageChange(prior, stage, key));
      activities := activities[deal := activities[deal] + [entry]];
      response := Response(true, "update_deal_stage", deal, record, [entry], Updated(key, stage),
          HintsFor(record, None));
      cache := cache[cacheKey := response];
    }

    method AppendActivityLog(deal: string, activityType: string, note: string, key: string, expected: Option<int>,
                             metadata: map<string, string>, id: string, now: Time)
      returns (response: Response)
      modifies this
      ensures (Contents(), response)
           == Write(old(Contents()), AppendActivity(deal, activityType, note, key, expected, metadata), id, now)
    {
      var cacheKey := "activity:" + deal + ":" + key;
      if cacheKey in cache {
        return cache[cacheKey];
      }
      var record := GetOrCreateRecord(deal, now);
      var hints := HintsFor(record, expected);
      if hints.conflictDetected {
        response := Response(false, "append_activity_log", deal, record, [], Conflict(key, activityType), hints);
        cache := cache[cacheKey := response];
        return;
      }
      var entry := Activity(id, activityType, now, Note(note, key, metadata));
      activities := activities[deal := activities[deal] + [entry]];
      record := record.(version := record.version + 1, lastModified := now);
      deals := deals[deal := record];
      response := Response(true, "append_activity_log", deal, record, [entry], Logged(key, activityType),
          HintsFor(record, None));
      cache := cache[cacheKey := response];
    }

    method UpdateCrm(deal: string, note: string, message: string, id: string, now: Time) returns (response: Response)
      modifies this
      ensures (Contents(), response) == Write(old(Contents()), CrmNote(deal, note, message), id, now)
    {
      response := AppendActivityLog(deal, "workflow_note", note, "message:" + message, None,
                                    map["linked_message_id" := message], id, now);
    }
  }
}
