/**
 The guarantees of the CRM store over arbitrary interleavings of calls from an empty store.
 */
module CrmResults {
  import opened Options
  import opened Crm

  datatype Call =
    | Submit(request: Request, id: string, now: Time)
    | ReadRecord(deal: string, now: Time)
    | ReadTimeline(deal: string, limit: int, now: Time)

  // ----- Runs of the store -----

  function Perform(s: Store, c: Call): (Store, Response) {
    match c
    case Submit(r, id, now) => Write(s, r, id, now)
    case ReadRecord(deal, now) => var (t, response) := FetchRecord(s.tables, deal, now); (s.(tables := t), response)
    case ReadTimeline(deal, limit, now) =>
      var (t, response) := FetchTimeline(s.tables, deal, limit, now); (s.(tables := t), response)
  }

  /** The store after a run, and the response to each call. */
  function Run(calls: seq<Call>): (r: (Store, seq<Response>))
    ensures |r.1| == |calls|
  {
    if calls == [] then (EMPTY_STORE, [])
    else
      var (s, responses) := Run(calls[..|calls| - 1]);
      var (next, response) := Perform(s, calls[|calls| - 1]);
      (next, responses + [response])
  }

  // ----- The specification: the first call per (operation, deal, key) wins -----

  datatype Triple = Triple(kind: Kind, deal: string, key: string)

  function TripleOf(r: Request): Triple {
    Triple(r.Kind(), r.deal, r.key)
  }

  datatype Spec = Spec(tables: Tables, answered: map<Triple, Response>)

  function SpecPerform(s: Spec, c: Call): (Spec, Response) {
    match c
    case Submit(r, id, now) =>
      if TripleOf(r) in s.answered then (s, s.answered[TripleOf(r)])
      else
        var (t, response) := Take(s.tables, r, id, now);
        (Spec(t, s.answered[TripleOf(r) := response]), response)
    case ReadRecord(deal, now) => var (t, response) := FetchRecord(s.tables, deal, now); (s.(tables := t), response)
    case ReadTimeline(deal, limit, now) =>
      var (t, response) := FetchTimeline(s.tables, deal, limit, now); (s.(tables := t), response)
  }

  function SpecRun(calls: seq<Call>): (r: (Spec, seq<Response>))
    ensures |r.1| == |calls|
  {
    if calls == [] then (Spec(EMPTY_TABLES, map[]), [])
    else
      var (s, responses) := SpecRun(calls[..|calls| - 1]);
      var (next, response) := SpecPerform(s, calls[|calls| - 1]);
      (next, responses + [response])
  }

  // ----- Cache keys -----

  lemma CacheKeysShareNoKind(deal: string, key: string, deal': string, key': string)
    ensures CacheKey(StageWrite, deal, key) != CacheKey(ActivityWrite, deal', key')
  {
    assert CacheKey(StageWrite, deal, key)[0] == 's';
    assert CacheKey(ActivityWrite, deal', key')[0] == 'a';
  }

  lemma DropPrefix(p: string, x: string, y: string)
    ensures p + x == p + y ==> x == y
  {
    if p + x == p + y {
      assert x == (p + x)[|p|..] == (p + y)[|p|..] == y;
    }
  }

  lemma CacheKeySplits(kind: Kind, deal: string, key: string, deal': string, key': string)
    ensures CacheKey(kind, deal, key) == CacheKey(kind, deal', key') <==> deal + ":" + key == deal' + ":" + key'
  {
    var p := if kind == StageWrite then "stage:" else "activity:";
    assert CacheKey(kind, deal, key) == p + (deal + ":" + key);
    assert CacheKey(kind, deal', key') == p + (deal' + ":" + key');
    DropPrefix(p, deal + ":" + key, deal' + ":" + key');
  }

  /** For one deal the cache key determines the key. */
  lemma SameDealSameKey(kind: Kind, deal: string, key: string, key': string)
    ensures CacheKey(kind, deal, key) == CacheKey(kind, deal, key') <==> key == key'
  {
    CacheKeySplits(kind, deal, key, deal, key');
    DropPrefix(deal + ":", key, key');
  }

  /**
   Two cache keys of different deals are equal exactly when the longer deal id continues the
   shorter one with a colon, and the shorter one's key makes up for the rest.
   */
  lemma CollisionShape(kind: Kind, deal: string, key: string, deal': string, key': string)
    requires |deal| < |deal'|
    ensures CacheKey(kind, deal, key) == CacheKey(kind, deal', key')
       <==> deal + ":" <= deal' && key == deal'[|deal| + 1..] + ":" + key'
  {
    CacheKeySplits(kind, deal, key, deal', key');
    var x, y := deal + ":" + key, deal' + ":" + key';
    if x == y {
      assert y[..|deal| + 1] == x[..|deal| + 1] == deal + ":";
      assert deal'[..|deal| + 1] == y[..|deal| + 1];
      assert key == x[|deal| + 1..] == y[|deal| + 1..] == deal'[|deal| + 1..] + ":" + key';
    }
    if deal + ":" <= deal' && key == deal'[|deal| + 1..] + ":" + key' {
      assert deal' == deal + ":" + deal'[|deal| + 1..];
      assert x == y;
    }
  }

  lemma ColonAfterPrefix(x: string, y: string)
    requires x + ":" <= y
    ensures ':' in y
  {
    assert y[|x|] == (x + ":")[|x|];
  }

  /** Deal ids without a colon never collide. */
  lemma ColonFreeKeysAreInjective(kind: Kind, deal: string, key: string, kind': Kind, deal': string, key': string)
    requires ':' !in deal && ':' !in deal'
    requires CacheKey(kind, deal, key) == CacheKey(kind', deal', key')
    ensures kind == kind' && deal == deal' && key == key'
  {
    if kind != kind' {
      CacheKeysShareNoKind(if kind == StageWrite then deal else deal', if kind == StageWrite then key else key',
                           if kind == StageWrite then deal' else deal, if kind == StageWrite then key' else key);
    } else if |deal| < |deal'| {
      CollisionShape(kind, deal, key, deal', key');
      ColonAfterPrefix(deal, deal');
    } else if |deal'| < |deal| {
      CollisionShape(kind, deal', key', deal, key);
      ColonAfterPrefix(deal', deal);
    } else {
      CacheKeySplits(kind, deal, key, deal', key');
      assert deal == (deal + ":" + key)[..|deal|] == (deal' + ":" + key')[..|deal|] == deal';
      SameDealSameKey(kind, deal, key, key');
    }
  }

  // ----- Refinement -----

  /** No two writes of a run share a cache key unless they share operation, deal and key. */
  ghost predicate CollisionFree(calls: seq<Call>) {
    forall i, j :: 0 <= i < |calls| && 0 <= j < |calls| && calls[i].Submit? && calls[j].Submit?
                   && KeyOf(calls[i].request) == KeyOf(calls[j].request)
                   ==> TripleOf(calls[i].request) == TripleOf(calls[j].request)
  }

  ghost predicate Asked(calls: seq<Call>, t: Triple) {
    exists i :: 0 <= i < |calls| && calls[i].Submit? && TripleOf(calls[i].request) == t
  }

  function KeyOfTriple(t: Triple): string {
    CacheKey(t.kind, t.deal, t.key)
  }

  /** The store and the specification agree, triple by triple, on what was asked. */
  ghost predicate Refines(calls: seq<Call>, s: Store, spec: Spec) {
    && s.tables == spec.tables
    && (forall t :: t in spec.answered <==> Asked(calls, t))
    && (forall t :: t in spec.answered ==> KeyOfTriple(t) in s.cache && s.cache[KeyOfTriple(t)] == spec.answered[t])
    && (forall k :: k in s.cache ==> exists t :: t in spec.answered && KeyOfTriple(t) == k)
  }

  lemma AskedAppend(calls: seq<Call>, c: Call, t: Triple)
    ensures Asked(calls + [c], t) <==> Asked(calls, t) || (c.Submit? && TripleOf(c.request) == t)
  {
    var all := calls + [c];
    if Asked(calls, t) {
      var i :| 0 <= i < |calls| && calls[i].Submit? && TripleOf(calls[i].request) == t;
      assert all[i] == calls[i];
    }
    assert all[|calls|] == c;
  }

  lemma CollidesWithNone(calls: seq<Call>, r: Request, id: string, now: Time, t: Triple)
    requires CollisionFree(calls + [Submit(r, id, now)]) && Asked(calls, t)
    ensures KeyOfTriple(t) == KeyOf(r) <==> t == TripleOf(r)
  {
    var all := calls + [Submit(r, id, now)];
    var i :| 0 <= i < |calls| && calls[i].Submit? && TripleOf(calls[i].request) == t;
    assert all[i] == calls[i] && all[|calls|] == Submit(r, id, now);
    assert KeyOf(all[i].request) == KeyOfTriple(t);
  }

  /** A fresh answer goes into both memories under keys that no earlier triple has. */
  lemma AnswerRefines(calls: seq<Call>, s: Store, spec: Spec, r: Request, id: string, now: Time, tables: Tables,
          response: Response)
    requires Refines(calls, s, spec) && CollisionFree(calls + [Submit(r, id, now)])
    requires TripleOf(r) !in spec.answered
    ensures KeyOf(r) !in s.cache
    ensures Refines(calls + [Submit(r, id, now)], Store(tables, s.cache[KeyOf(r) := response]),
                    Spec(tables, spec.answered[TripleOf(r) := response]))
  {
    forall t | t in spec.answered ensures KeyOfTriple(t) != KeyOf(r) {
      CollidesWithNone(calls, r, id, now, t);
    }
    forall t ensures Asked(calls + [Submit(r, id, now)], t) <==> Asked(calls, t) || TripleOf(r) == t {
      AskedAppend(calls, Submit(r, id, now), t);
    }
    var cache, answered := s.cache[KeyOf(r) := response], spec.answered[TripleOf(r) := response];
    assert KeyOfTriple(TripleOf(r)) == KeyOf(r);
    forall k | k in cache ensures exists t :: t in answered && KeyOfTriple(t) == k {
      if k == KeyOf(r) {
        assert TripleOf(r) in answered;
      } else {
        var t :| t in spec.answered && KeyOfTriple(t) == k;
        assert t in answered;
      }
    }
  }

  lemma RepeatRefines(calls: seq<Call>, s: Store, spec: Spec, c: Call, tables: Tables)
    requires Refines(calls, s, spec)
    requires c.Submit? ==> TripleOf(c.request) in spec.answered
    ensures Refines(calls + [c], s.(tables := tables), spec.(tables := tables))
  {
    forall t ensures Asked(calls + [c], t) <==> Asked(calls, t) {
      AskedAppend(calls, c, t);
    }
  }

  lemma PerformRefines(calls: seq<Call>, s: Store, spec: Spec, c: Call)
    requires Refines(calls, s, spec) && CollisionFree(calls + [c])
    ensures Perform(s, c).1 == SpecPerform(spec, c).1
    ensures Refines(calls + [c], Perform(s, c).0, SpecPerform(spec, c).0)
  {
    match c
    case Submit(r, id, now) =>
      assert KeyOfTriple(TripleOf(r)) == KeyOf(r);
      if TripleOf(r) in spec.answered {
        RepeatRefines(calls, s, spec, c, s.tables);
      } else {
        var (tables, response) := Take(s.tables, r, id, now);
        AnswerRefines(calls, s, spec, r, id, now, tables, response);
      }
    case ReadRecord(deal, now) => RepeatRefines(calls, s, spec, c, FetchRecord(s.tables, deal, now).0);
    case ReadTimeline(deal, limit, now) => RepeatRefines(calls, s, spec, c,
        FetchTimeline(s.tables, deal, limit, now).0);
  }

  lemma {:induction false} CollisionFreeRunsRefine(calls: seq<Call>)
    requires CollisionFree(calls)
    ensures Run(calls).1 == SpecRun(calls).1
    ensures Refines(calls, Run(calls).0, SpecRun(calls).0)
  {
    if calls != [] {
      var before, c := calls[..|calls| - 1], calls[|calls| - 1];
      assert forall i :: 0 <= i < |before| ==> before[i] == calls[i];
      CollisionFreeRunsRefine(before);
      assert before + [c] == calls;
      PerformRefines(before, Run(before).0, SpecRun(before).0, c);
    }
  }

  /** A cached answer stays, and every later write with that cache key gets it. */
  lemma {:induction false} AnswerStays(calls: seq<Call>, i: nat)
    requires i < |calls| && calls[i].Submit?
    ensures KeyOf(calls[i].request) in Run(calls).0.cache
    ensures Run(calls).0.cache[KeyOf(calls[i].request)] == Run(calls).1[i]
  {
    var before := calls[..|calls| - 1];
    if i < |before| { AnswerStays(before, i); }
  }

  predicate AnswersFor(response: Response, t: Triple) {
    response.dealId == t.deal && response.operation == Operation(t.kind)
  }

  /** The specification always answers about the deal and the operation that was asked. */
  lemma {:induction false} SpecAnswersTheQuestion(calls: seq<Call>)
    ensures forall t :: t in SpecRun(calls).0.answered ==> AnswersFor(SpecRun(calls).0.answered[t], t)
    ensures forall i :: 0 <= i < |calls| && calls[i].Submit? ==>
              AnswersFor(SpecRun(calls).1[i], TripleOf(calls[i].request))
  {
    if calls != [] {
      var s, c := SpecRun(calls[..|calls| - 1]).0, calls[|calls| - 1];
      SpecAnswersTheQuestion(calls[..|calls| - 1]);
      assert c.Submit? ==> AnswersFor(Take(s.tables, c.request, c.id, c.now).1, TripleOf(c.request));
    }
  }

  lemma OperationsDiffer()
    ensures Operation(StageWrite) != Operation(ActivityWrite)
  {
    assert Operation(StageWrite)[0] == 'u' && Operation(ActivityWrite)[0] == 'a';
  }

  /**
   The store answers every call of a run as "the first call per (operation, deal, key) wins" exactly
   when no cache keys collide.
   */
  lemma RefinementExactlyWithoutCollisions(calls: seq<Call>)
    ensures Run(calls).1 == SpecRun(calls).1 <==> CollisionFree(calls)
  {
    if CollisionFree(calls) {
      CollisionFreeRunsRefine(calls);
    } else if Run(calls).1 == SpecRun(calls).1 {
      var i, j :| 0 <= i < |calls| && 0 <= j < |calls| && calls[i].Submit? && calls[j].Submit?
                  && KeyOf(calls[i].request) == KeyOf(calls[j].request)
                  && TripleOf(calls[i].request) != TripleOf(calls[j].request);
      AnswerStays(calls, i);
      AnswerStays(calls, j);
      SpecAnswersTheQuestion(calls);
      OperationsDiffer();
      SameDealSameKey(calls[i].request.Kind(), calls[i].request.deal, calls[i].request.key, calls[j].request.key);
      assert false;
    }
  }

  /** With deal ids free of colons the store is the specification, tables included. */
  lemma ColonFreeDealsRefine(calls: seq<Call>)
    requires forall i :: 0 <= i < |calls| && calls[i].Submit? ==> ':' !in calls[i].request.deal
    ensures Run(calls).1 == SpecRun(calls).1 && Run(calls).0.tables == SpecRun(calls).0.tables
  {
    forall i, j | 0 <= i < |calls| && 0 <= j < |calls| && calls[i].Submit? && calls[j].Submit?
                  && KeyOf(calls[i].request) == KeyOf(calls[j].request)
      ensures TripleOf(calls[i].request) == TripleOf(calls[j].request)
    {
      var x, y := calls[i].request, calls[j].request;
      ColonFreeKeysAreInjective(x.Kind(), x.deal, x.key, y.Kind(), y.deal, y.key);
    }
    CollisionFreeRunsRefine(calls);
  }

  /** Two deals with a colon: the second call is answered with the first deal's response. */
  lemma CollidingDeals(now: Time)
    ensures var first := Submit(UpdateStage("a", "won", "b:c", None), "1", now);
            var second := Submit(UpdateStage("a:b", "lost", "c", None), "2", now);
            !CollisionFree([first, second]) && Run([first, second]).1[1].dealId == "a"
  {
    var x, y := UpdateStage("a", "won", "b:c", None), UpdateStage("a:b", "lost", "c", None);
    var first, second := Submit(x, "1", now), Submit(y, "2", now);
    var calls := [first, second];
    assert KeyOf(x) == "stage:a:b:c" == KeyOf(y);
    assert calls[0] == first && calls[1] == second && |x.deal| != |y.deal|;
    assert TripleOf(calls[0].request) != TripleOf(calls[1].request);
    assert calls[..1] == [first] && [first][..0] == [];
    assert Run([first]) == (Write(EMPTY_STORE, x, "1", now).0, [] + [Write(EMPTY_STORE, x, "1", now).1]);
    AnswerStays(calls, 0);
    AnswerStays(calls, 1);
  }

  // ----- What an uncached write reports -----

  /** The response tells what became of the deal: a success exactly when the expected version was current. */
  lemma WriteReportsTables(t: Tables, r: Request, id: string, now: Time)
    ensures var (next, response) := Take(t, r, id, now);
            && (response.success <==> r.expected.None? || r.expected.value == VersionOf(t, r.deal))
            && r.deal in next.deals && response.record == next.deals[r.deal]
            && response.hints.version == VersionOf(next, r.deal)
            && (response.hints.conflictDetected <==> !response.success)
            && LogOf(next, r.deal) == LogOf(t, r.deal) + response.timeline
            && |response.timeline| == (if response.success then 1 else 0)
            && VersionOf(next, r.deal) == VersionOf(t, r.deal) + |response.timeline|
            && (forall d :: d != r.deal ==> LogOf(next, d) == LogOf(t, d) && (d in next.deals <==> d in t.deals)
                                            && (d in t.deals ==> next.deals[d] == t.deals[d]))
  {
  }

  // ----- Records replay their logs -----

  /** The stage after the entries of a log. */
  function StageOf(log: seq<Activity>): string {
    if log == [] then "proposal"
    else
      var last := log[|log| - 1];
      if last.details.StageChange? then last.details.toStage else StageOf(log[..|log| - 1])
  }

  /** Each stage entry starts from the stage that the entries before it lead to. */
  predicate StagesChain(log: seq<Activity>) {
    forall i :: 0 <= i < |log| && log[i].details.StageChange? ==> log[i].details.fromStage == StageOf(log[..i])
  }

  predicate IsReplay(record: Record, deal: string, log: seq<Activity>) {
    && record.dealId == deal && record.recordId == "crm-" + deal && record.owner == "revops-simulated"
    && record.version == 1 + |log|
    && record.stage == StageOf(log)
    && (log != [] ==> record.lastModified == log[|log| - 1].createdAt)
    && StagesChain(log)
  }

  ghost predicate Replayed(t: Tables) {
    t.deals.Keys == t.activities.Keys && forall d :: d in t.deals ==> IsReplay(t.deals[d], d, t.activities[d])
  }

  lemma AppendReplays(record: Record, log: seq<Activity>, r: Request, id: string, now: Time)
    requires IsReplay(record, r.deal, log)
    ensures IsReplay(Written(r, record, now), r.deal, log + [EntryFor(r, record, id, now)])
  {
    var entry := EntryFor(r, record, id, now);
    var longer := log + [entry];
    assert longer[..|log|] == log;
    forall i | 0 <= i < |log| ensures longer[..i] == log[..i] { }
  }

  lemma TakeReplays(t: Tables, r: Request, id: string, now: Time)
    requires Replayed(t)
    ensures Replayed(Take(t, r, id, now).0)
  {
    var seeded := GetOrCreate(t, r.deal, now);
    assert Replayed(seeded);
    AppendReplays(seeded.deals[r.deal], seeded.activities[r.deal], r, id, now);
  }

  /** Every reachable record is the replay of its activity log. */
  lemma {:induction false} RecordsReplayTheirLogs(calls: seq<Call>)
    ensures Replayed(Run(calls).0.tables)
  {
    if calls != [] {
      var before, c := calls[..|calls| - 1], calls[|calls| - 1];
      RecordsReplayTheirLogs(before);
      if c.Submit? { TakeReplays(Run(before).0.tables, c.request, c.id, c.now); }
    }
  }

  // ----- No lost updates -----

  /** Call `i` wrote: it was not answered from the cache and found no conflict. */
  predicate Accepted(calls: seq<Call>, i: nat)
    requires i < |calls|
  {
    calls[i].Submit? && KeyOf(calls[i].request) !in Run(calls[..i]).0.cache
    && Write(Run(calls[..i]).0, calls[i].request, calls[i].id, calls[i].now).1.success
  }

  lemma PerformGrowsVersion(s: Store, c: Call, deal: string)
    ensures VersionOf(s.tables, deal) <= VersionOf(Perform(s, c).0.tables, deal)
  {
  }

  lemma {:induction false} VersionsGrow(calls: seq<Call>, i: nat, deal: string)
    requires i <= |calls|
    ensures VersionOf(Run(calls[..i]).0.tables, deal) <= VersionOf(Run(calls).0.tables, deal)
  {
    assert calls[..|calls|] == calls;
    if i < |calls| {
      var before := calls[..|calls| - 1];
      VersionsGrow(before, i, deal);
      assert before[..i] == calls[..i];
      PerformGrowsVersion(Run(before).0, calls[|calls| - 1], deal);
    }
  }

  /** Accepted writes on a deal that name an expected version name a strictly larger one each time. */
  lemma NoLostUpdates(calls: seq<Call>, i: nat, j: nat)
    requires i < j < |calls| && Accepted(calls, i) && Accepted(calls, j)
    requires calls[i].request.deal == calls[j].request.deal
    requires calls[i].request.expected.Some? && calls[j].request.expected.Some?
    ensures calls[i].request.expected.value < calls[j].request.expected.value
  {
    var deal := calls[i].request.deal;
    assert calls[..i + 1][..i] == calls[..i];
    assert VersionOf(Run(calls[..i + 1]).0.tables, deal) == VersionOf(Run(calls[..i]).0.tables, deal) + 1;
    assert calls[..j][..i + 1] == calls[..i + 1];
    VersionsGrow(calls[..j], i + 1, deal);
  }
}
