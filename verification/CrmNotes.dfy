/**
 How often an activity with one idempotency key can be on a deal's timeline.
 */
module CrmNotes {
  import opened Counts
  import opened Options
  import opened Crm
  import opened CrmResults

  predicate IsNote(a: Activity, key: string) {
    a.details.Note? && a.details.key == key
  }

  /** The activity entries of a log that carry the idempotency key. */
  function NotesIn(log: seq<Activity>, key: string): nat {
    if log == [] then 0 else NotesIn(log[..|log| - 1], key) + One(IsNote(log[|log| - 1], key))
  }

  function Notes(t: Tables, deal: string, key: string): nat {
    NotesIn(LogOf(t, deal), key)
  }

  predicate Asks(r: Request, deal: string, key: string) {
    r.AppendActivity? && r.deal == deal && r.key == key
  }

  lemma TakeExtendsLog(t: Tables, r: Request, id: string, now: Time, deal: string)
    requires t.deals.Keys == t.activities.Keys
    ensures var (next, response) := Take(t, r, id, now);
            var record := GetOrCreate(t, r.deal, now).deals[r.deal];
            && LogOf(next, deal)
               == (if response.success && deal == r.deal then LogOf(t, deal) + [EntryFor(r, record, id, now)]
                   else LogOf(t, deal))
            && next.deals.Keys == next.activities.Keys
  {
  }

  lemma TakeAddsNote(t: Tables, r: Request, id: string, now: Time, deal: string, key: string)
    requires t.deals.Keys == t.activities.Keys
    ensures var (next, response) := Take(t, r, id, now);
            && Notes(next, deal, key) == Notes(t, deal, key) + One(response.success && Asks(r, deal, key))
            && next.deals.Keys == next.activities.Keys
  {
    TakeExtendsLog(t, r, id, now, deal);
    NotesAppend(LogOf(t, deal), EntryFor(r, GetOrCreate(t, r.deal, now).deals[r.deal], id, now), key);
  }

  lemma NotesAppend(log: seq<Activity>, entry: Activity, key: string)
    ensures NotesIn(log + [entry], key) == NotesIn(log, key) + One(IsNote(entry, key))
  {
    assert (log + [entry])[..|log|] == log;
  }

  /** The cache answers for this activity key, with a success that is about this deal. */
  predicate Answered(s: Store, deal: string, key: string) {
    var cacheKey := CacheKey(ActivityWrite, deal, key);
    cacheKey in s.cache && s.cache[cacheKey].success && s.cache[cacheKey].dealId == deal
  }

  /** It answers with what was said about another deal. */
  predicate AnsweredForAnother(s: Store, deal: string, key: string) {
    var cacheKey := CacheKey(ActivityWrite, deal, key);
    cacheKey in s.cache && s.cache[cacheKey].dealId != deal
  }

  /** The cache holds a success for the activity key, about whatever deal. */
  predicate Remembered(s: Store, deal: string, key: string) {
    var cacheKey := CacheKey(ActivityWrite, deal, key);
    cacheKey in s.cache && s.cache[cacheKey].success
  }

  ghost predicate ExactAt(s: Store, deal: string, key: string) {
    Notes(s.tables, deal, key) == One(Answered(s, deal, key))
  }

  /**
   An activity is on a timeline exactly if the cache answers its key with a success about that deal,
   and then once.
   */
  ghost predicate Exact(s: Store) {
    && s.tables.deals.Keys == s.tables.activities.Keys
    && forall deal, key :: ExactAt(s, deal, key)
  }

  lemma EmptyStoreIsExact()
    ensures Exact(EMPTY_STORE)
  {
  }

  lemma WriteKeepsExactAt(s: Store, r: Request, id: string, now: Time, deal: string, key: string)
    requires s.tables.deals.Keys == s.tables.activities.Keys && ExactAt(s, deal, key)
    ensures ExactAt(Write(s, r, id, now).0, deal, key)
  {
    if KeyOf(r) !in s.cache {
      TakeAddsNote(s.tables, r, id, now, deal, key);
      if KeyOf(r) == CacheKey(ActivityWrite, deal, key) {
        if r.UpdateStage? { CacheKeysShareNoKind(r.deal, r.key, deal, key); }
        if r.deal == deal { SameDealSameKey(ActivityWrite, deal, r.key, key); }
      }
    }
  }

  lemma WriteKeepsExact(s: Store, r: Request, id: string, now: Time)
    requires Exact(s)
    ensures Exact(Write(s, r, id, now).0)
  {
    var next := Write(s, r, id, now).0;
    forall deal, key ensures ExactAt(next, deal, key) {
      assert ExactAt(s, deal, key);
      WriteKeepsExactAt(s, r, id, now, deal, key);
    }
    TakeAddsNote(s.tables, r, id, now, "", "");
  }

  lemma ReadKeepsExact(s: Store, deal: string, now: Time)
    requires Exact(s)
    ensures Exact(s.(tables := GetOrCreate(s.tables, deal, now)))
  {
    var next := s.(tables := GetOrCreate(s.tables, deal, now));
    forall d, key ensures ExactAt(next, d, key) {
      assert ExactAt(s, d, key);
      assert LogOf(next.tables, d) == LogOf(s.tables, d);
    }
  }

  lemma PerformKeepsExact(s: Store, c: Call)
    requires Exact(s)
    ensures Exact(Perform(s, c).0)
  {
    match c
    case Submit(r, id, now) => WriteKeepsExact(s, r, id, now);
    case ReadRecord(deal, now) => ReadKeepsExact(s, deal, now);
    case ReadTimeline(deal, limit, now) => ReadKeepsExact(s, deal, now);
  }

  /**
   Over any interleaving, colliding keys included: a timeline holds an activity of a key exactly if
   the cache answers that key with a success about the timeline's deal, and it holds it once.
   */
  lemma {:induction false} NotesAreExact(calls: seq<Call>)
    ensures Exact(Run(calls).0)
  {
    if calls == [] {
      EmptyStoreIsExact();
    } else {
      NotesAreExact(calls[..|calls| - 1]);
      PerformKeepsExact(Run(calls[..|calls| - 1]).0, calls[|calls| - 1]);
    }
  }

  /** So it holds at most one activity per key. */
  lemma AtMostOneNotePerKey(calls: seq<Call>, deal: string, key: string)
    ensures Notes(Run(calls).0.tables, deal, key) <= 1
  {
    NotesAreExact(calls);
    assert ExactAt(Run(calls).0, deal, key);
  }

  /**
   An activity write leaves its entry exactly if it is answered with a success about its own deal.
   An unconditional one is answered with a success unless a failure is cached under its key.
   */
  lemma ActivityWriteLeavesNote(s: Store, r: Request, id: string, now: Time)
    requires Exact(s) && r.AppendActivity?
    ensures var (next, response) := Write(s, r, id, now);
            && Notes(next.tables, r.deal, r.key) == One(response.success && response.dealId == r.deal)
            && (r.expected.None? ==> (response.success <==> KeyOf(r) !in s.cache || Remembered(s, r.deal, r.key)))
  {
    WriteKeepsExact(s, r, id, now);
    assert ExactAt(Write(s, r, id, now).0, r.deal, r.key);
  }

  // ----- Without collisions -----

  /** A write with this cache key asks for this deal and key. */
  predicate Honest(r: Request, deal: string, key: string) {
    KeyOf(r) == CacheKey(ActivityWrite, deal, key) ==> Asks(r, deal, key)
  }

  /** Deal ids without a colon make every write honest. */
  lemma ColonFreeIsHonest(r: Request, deal: string, key: string)
    requires ':' !in r.deal && ':' !in deal
    ensures Honest(r, deal, key)
  {
    if KeyOf(r) == CacheKey(ActivityWrite, deal, key) {
      ColonFreeKeysAreInjective(r.Kind(), r.deal, r.key, ActivityWrite, deal, key);
    }
  }

  /** A write that shares the cache key without asking for the deal and key is about another deal. */
  lemma DishonestIsForAnother(r: Request, deal: string, key: string)
    requires KeyOf(r) == CacheKey(ActivityWrite, deal, key)
    ensures Honest(r, deal, key) <==> r.deal == deal
  {
    if r.UpdateStage? { CacheKeysShareNoKind(r.deal, r.key, deal, key); }
    if r.deal == deal { SameDealSameKey(ActivityWrite, deal, r.key, key); }
  }

  /** What a write does to the answer for a key: the first write under its cache key decides whom it is about. */
  lemma WriteDecidesAnswer(s: Store, r: Request, id: string, now: Time, deal: string, key: string)
    ensures AnsweredForAnother(Write(s, r, id, now).0, deal, key)
       <==> AnsweredForAnother(s, deal, key)
            || (KeyOf(r) !in s.cache && KeyOf(r) == CacheKey(ActivityWrite, deal, key) && r.deal != deal)
  {
  }
}
