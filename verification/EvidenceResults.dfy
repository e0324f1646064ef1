/**
 The guarantees of evidence selection.
 */
module EvidenceResults {
  import opened StableSort
  import opened Evidence

  lemma RankedIsSorted(repo: seq<Insight>, memory: seq<Insight>)
    ensures SortedDown(Ranked(repo, memory))
    ensures multiset(Ranked(repo, memory)) == multiset(Items(repo) + Items(memory))
  {
    var all := Items(repo) + Items(memory);
    SortSorts(all, Descending());
    SortPermutes(all, Descending());
    forall i, j | 0 <= i < j < |all| ensures Ranked(repo, memory)[i].quality >= Ranked(repo, memory)[j].quality {
      assert Descending()(Sort(all, Descending())[i]) <= Descending()(Sort(all, Descending())[j]);
    }
  }

  /** A candidate: its id and text, a twentieth of its success rate, and the rate weighed by its age. */
  lemma CandidateExactly(i: Insight)
    ensures var item := ItemOf(i);
            && item.id == i.id && item.snippet == i.text && item.impact == i.successRate / 20.0
            && (i.ageDays <= 14.0 ==> item.quality == i.successRate)
            && (14.0 < i.ageDays <= 45.0 ==> item.quality == i.successRate * 0.85)
            && (45.0 < i.ageDays <= 90.0 ==> item.quality == i.successRate * 0.7)
            && (90.0 < i.ageDays ==> item.quality == i.successRate * 0.5)
  {
  }

  function WithQuality(q: real): Item -> bool {
    (item: Item) => item.quality == q
  }

  /** Candidates of equal quality are ranked in their order, the repository's before the ones in memory. */
  lemma TiesKeepTheirOrder(repo: seq<Insight>, memory: seq<Insight>, q: real)
    ensures Filter(Ranked(repo, memory), WithQuality(q))
         == Filter(Items(repo), WithQuality(q)) + Filter(Items(memory), WithQuality(q))
  {
    SortIsStable(Items(repo) + Items(memory), Descending(), WithQuality(q));
    FilterOfBoth(Items(repo), Items(memory), WithQuality(q));
  }

  lemma {:induction false} FilterOfBoth(s: seq<Item>, t: seq<Item>, p: Item -> bool)
    ensures Filter(s + t, p) == Filter(s, p) + Filter(t, p)
  {
    if t == [] {
      assert s + t == s;
    } else {
      assert (s + t)[..|s + t| - 1] == s + t[..|t| - 1];
      FilterOfBoth(s, t[..|t| - 1], p);
    }
  }

  // ----- Choices -----

  /** A choice marks some of the items. */
  predicate Chosen(choice: seq<bool>, i: int) {
    0 <= i < |choice| && choice[i]
  }

  function Worth(items: seq<Item>, choice: seq<bool>): real
    requires |items| == |choice|
  {
    if items == [] then 0.0 else (if choice[0] then items[0].quality else 0.0) + Worth(items[1..], choice[1..])
  }

  function Size(choice: seq<bool>): nat {
    if choice == [] then 0 else (if choice[0] then 1 else 0) + Size(choice[1..])
  }

  /** At most `room` items, all good enough, with snippets that differ from each other and from those seen. */
  ghost predicate Feasible(items: seq<Item>, choice: seq<bool>, seen: set<string>, room: nat, minQuality: real,
          norm: Normaliser) {
    && |items| == |choice| && Size(choice) <= room
    && (forall i :: Chosen(choice, i) ==> items[i].quality >= minQuality && norm(items[i].snippet) !in seen)
    && (forall i, j :: i < j && Chosen(choice, i) && Chosen(choice, j) ==>
          norm(items[i].snippet) != norm(items[j].snippet))
  }

  lemma {:induction false} Unchoose(items: seq<Item>, choice: seq<bool>, i: nat)
    requires |items| == |choice| && i < |choice| && choice[i]
    ensures Worth(items, choice[i := false]) == Worth(items, choice) - items[i].quality
    ensures Size(choice[i := false]) == Size(choice) - 1
  {
    if i > 0 {
      Unchoose(items[1..], choice[1..], i - 1);
      assert choice[i := false][1..] == choice[1..][i - 1 := false];
    } else {
      assert choice[0 := false][1..] == choice[1..];
    }
  }

  lemma {:induction false} NoneChosen(items: seq<Item>, choice: seq<bool>)
    requires |items| == |choice|
    ensures Size(choice) == 0 <==> forall i :: !Chosen(choice, i)
    ensures Size(choice) == 0 ==> Worth(items, choice) == 0.0
  {
    if choice != [] {
      NoneChosen(items[1..], choice[1..]);
      if forall i :: !Chosen(choice, i) {
        assert !Chosen(choice, 0);
        forall i ensures !Chosen(choice[1..], i) { assert !Chosen(choice, i + 1); }
      }
      if Size(choice) == 0 {
        forall i ensures !Chosen(choice, i) { if i > 0 { assert !Chosen(choice[1..], i - 1); } }
      }
    }
  }

  lemma FeasibleTail(items: seq<Item>, choice: seq<bool>, seen: set<string>, room: nat, minQuality: real,
          norm: Normaliser)
    requires items != [] && Feasible(items, choice, seen, room, minQuality, norm)
    ensures Feasible(items[1..], choice[1..], seen, room - (if choice[0] then 1 else 0), minQuality, norm)
    ensures choice[0] ==>
              Feasible(items[1..], choice[1..], seen + {norm(items[0].snippet)}, room - 1, minQuality, norm)
  {
    forall i | Chosen(choice[1..], i) ensures Chosen(choice, i + 1) && items[1..][i] == items[i + 1] { }
  }

  /** The chosen item that stands in the way of the head: the one with its snippet, or any one if there is no room. */
  lemma Rival(items: seq<Item>, choice: seq<bool>, room: nat, norm: Normaliser) returns (i: nat)
    requires |items| == |choice| && items != [] && !choice[0] && room > 0
    requires (exists j :: Chosen(choice, j) && norm(items[j].snippet) == norm(items[0].snippet)) || Size(choice) == room
    ensures 0 < i < |items| && choice[i]
    ensures (exists j :: Chosen(choice, j) && norm(items[j].snippet) == norm(items[0].snippet))
            ==> norm(items[i].snippet) == norm(items[0].snippet)
  {
    if j :| Chosen(choice, j) && norm(items[j].snippet) == norm(items[0].snippet) {
      i := j;
    } else {
      NoneChosen(items, choice);
      i :| Chosen(choice, i);
    }
  }

  /** No feasible choice is worth more than the greedy pick. */
  lemma {:induction false} GreedyIsOptimal(items: seq<Item>, choice: seq<bool>, seen: set<string>, room: nat,
          minQuality: real, norm: Normaliser)
    requires SortedDown(items) && minQuality >= 0.0
    requires Feasible(items, choice, seen, room, minQuality, norm)
    ensures Worth(items, choice) <= Total(Greedy(items, seen, room, minQuality, norm))
    decreases |items|
  {
    if items == [] {
    } else if room == 0 {
      NoneChosen(items, choice);
    } else if Skips(items[0], seen, minQuality, norm) {
      assert !Chosen(choice, 0);
      FeasibleTail(items, choice, seen, room, minQuality, norm);
      GreedyIsOptimal(items[1..], choice[1..], seen, room, minQuality, norm);
    } else if choice[0] {
      FeasibleTail(items, choice, seen, room, minQuality, norm);
      GreedyIsOptimal(items[1..], choice[1..], seen + {norm(items[0].snippet)}, room - 1, minQuality, norm);
    } else {
      ExchangeHead(items, choice, seen, room, minQuality, norm);
    }
  }

  lemma LighterIsFeasible(items: seq<Item>, choice: seq<bool>, lighter: seq<bool>, seen: set<string>, room: nat,
          minQuality: real, norm: Normaliser)
    requires Feasible(items, choice, seen, room, minQuality, norm) && items != [] && room > 0
    requires |lighter| == |choice| && Size(lighter) <= room - 1
    requires forall j :: Chosen(lighter, j) ==> Chosen(choice, j) && norm(items[j].snippet) != norm(items[0].snippet)
    ensures Feasible(items, lighter, seen + {norm(items[0].snippet)}, room - 1, minQuality, norm)
  {
  }

  /** Make room for the head: drop its rival, which is worth no more. */
  lemma MakeRoom(items: seq<Item>, choice: seq<bool>, seen: set<string>, room: nat, minQuality: real, norm: Normaliser)
    returns (lighter: seq<bool>)
    requires SortedDown(items) && minQuality >= 0.0
    requires Feasible(items, choice, seen, room, minQuality, norm)
    requires items != [] && room > 0 && items[0].quality >= minQuality && !choice[0]
    ensures |lighter| == |choice| && !lighter[0] && Size(lighter) <= room - 1
    ensures forall j :: Chosen(lighter, j) ==> Chosen(choice, j) && norm(items[j].snippet) != norm(items[0].snippet)
    ensures Worth(items, choice) <= Worth(items, lighter) + items[0].quality
  {
    lighter := choice;
    if (exists j :: Chosen(choice, j) && norm(items[j].snippet) == norm(items[0].snippet)) || Size(choice) == room {
      var i := Rival(items, choice, room, norm);
      assert Chosen(choice, i);
      Unchoose(items, choice, i);
      lighter := choice[i := false];
      forall j | Chosen(lighter, j) ensures Chosen(choice, j) && norm(items[j].snippet) != norm(items[0].snippet) { }
    }
  }

  /** A choice without the head: the head replaces its rival at no loss. */
  lemma {:induction false} ExchangeHead(items: seq<Item>, choice: seq<bool>, seen: set<string>, room: nat,
          minQuality: real, norm: Normaliser)
    requires SortedDown(items) && minQuality >= 0.0
    requires Feasible(items, choice, seen, room, minQuality, norm)
    requires items != [] && room > 0 && !Skips(items[0], seen, minQuality, norm) && !choice[0]
    ensures Worth(items, choice) <= Total(Greedy(items, seen, room, minQuality, norm))
    decreases |items|, 0
  {
    var more := seen + {norm(items[0].snippet)};
    var lighter := MakeRoom(items, choice, seen, room, minQuality, norm);
    LighterIsFeasible(items, choice, lighter, seen, room, minQuality, norm);
    FeasibleTail(items, lighter, more, room - 1, minQuality, norm);
    GreedyIsOptimal(items[1..], lighter[1..], more, room - 1, minQuality, norm);
  }

  /** The greedy pick as a choice. */
  function GreedyChoice(items: seq<Item>, seen: set<string>, room: nat, minQuality: real,
          norm: Normaliser): (c: seq<bool>)
    ensures |c| == |items|
  {
    if items == [] then []
    else if room == 0 || Skips(items[0], seen, minQuality, norm) then
      [false] + GreedyChoice(items[1..], seen, room, minQuality, norm)
    else [true] + GreedyChoice(items[1..], seen + {norm(items[0].snippet)}, room - 1, minQuality, norm)
  }

  lemma {:induction false} NoRoomNoPick(items: seq<Item>, seen: set<string>, minQuality: real, norm: Normaliser)
    ensures Greedy(items, seen, 0, minQuality, norm) == [] && Size(GreedyChoice(items, seen, 0, minQuality, norm)) == 0
    ensures Worth(items, GreedyChoice(items, seen, 0, minQuality, norm)) == 0.0
  {
    if items != [] {
      NoRoomNoPick(items[1..], seen, minQuality, norm);
      assert ([false] + GreedyChoice(items[1..], seen, 0, minQuality, norm))[1..]
          == GreedyChoice(items[1..], seen, 0, minQuality, norm);
    }
  }

  lemma FeasibleHead(items: seq<Item>, b: bool, tail: seq<bool>, seen: set<string>, room: nat, minQuality: real,
          norm: Normaliser)
    requires items != [] && (b ==> room > 0 && !Skips(items[0], seen, minQuality, norm))
    requires Feasible(items[1..], tail, if b then seen + {norm(items[0].snippet)} else seen,
        if b then room - 1 else room, minQuality, norm)
    ensures Feasible(items, [b] + tail, seen, room, minQuality, norm)
  {
    var choice := [b] + tail;
    assert choice[1..] == tail;
    forall i | Chosen(choice, i) && i > 0 ensures Chosen(tail, i - 1) && items[1..][i - 1] == items[i] { }
  }

  /** The greedy pick is itself a feasible choice, so it is a best one. */
  lemma {:induction false} GreedyIsFeasible(items: seq<Item>, seen: set<string>, room: nat, minQuality: real,
          norm: Normaliser)
    ensures var choice := GreedyChoice(items, seen, room, minQuality, norm);
            && Feasible(items, choice, seen, room, minQuality, norm)
            && Worth(items, choice) == Total(Greedy(items, seen, room, minQuality, norm))
    decreases |items|
  {
    if items == [] {
    } else {
      var b := room > 0 && !Skips(items[0], seen, minQuality, norm);
      var more, left := (if b then seen + {norm(items[0].snippet)} else seen), (if b then room - 1 else room);
      var tail := GreedyChoice(items[1..], more, left, minQuality, norm);
      GreedyIsFeasible(items[1..], more, left, minQuality, norm);
      FeasibleHead(items, b, tail, seen, room, minQuality, norm);
      assert GreedyChoice(items, seen, room, minQuality, norm) == [b] + tail;
      assert ([b] + tail)[1..] == tail;
      if room == 0 { NoRoomNoPick(items[1..], seen, minQuality, norm); }
    }
  }

  /** The retrieved evidence is a most valuable choice of the ranked candidates. */
  lemma RetrievedIsOptimal(repo: seq<Insight>, memory: seq<Insight>, maxItems: int, minQuality: real,
          norm: Normaliser, choice: seq<bool>)
    requires maxItems >= 1 && minQuality >= 0.0
    requires Feasible(Ranked(repo, memory), choice, {}, maxItems, minQuality, norm)
    ensures Worth(Ranked(repo, memory), choice) <= Total(Retrieved(repo, memory, maxItems, minQuality, norm))
    ensures var best := GreedyChoice(Ranked(repo, memory), {}, maxItems, minQuality, norm);
            && Feasible(Ranked(repo, memory), best, {}, maxItems, minQuality, norm)
            && Worth(Ranked(repo, memory), best) == Total(Retrieved(repo, memory, maxItems, minQuality, norm))
  {
    RankedIsSorted(repo, memory);
    GreedyIsOptimal(Ranked(repo, memory), choice, {}, maxItems, minQuality, norm);
    GreedyIsFeasible(Ranked(repo, memory), {}, maxItems, minQuality, norm);
  }

  // ----- What the evidence looks like -----

  ghost predicate DistinctSnippets(s: seq<Item>, norm: Normaliser) {
    forall i, j :: 0 <= i < j < |s| ==> norm(s[i].snippet) != norm(s[j].snippet)
  }

  /** A picked item is a candidate that is good enough, new, and the best one with its snippet. */
  ghost predicate BestPick(items: seq<Item>, seen: set<string>, minQuality: real, norm: Normaliser, e: Item) {
    && e in items && e.quality >= minQuality && norm(e.snippet) !in seen
    && forall x :: x in items && norm(x.snippet) == norm(e.snippet) ==> x.quality <= e.quality
  }

  lemma BestPickOfTail(items: seq<Item>, seen: set<string>, more: set<string>, minQuality: real, norm: Normaliser,
          e: Item)
    requires items != [] && BestPick(items[1..], more, minQuality, norm, e) && seen <= more
    requires norm(items[0].snippet) in more || items[0].quality < minQuality
    ensures BestPick(items, seen, minQuality, norm, e)
  {
    assert items == [items[0]] + items[1..];
  }

  lemma {:induction false} GreedyPicksBest(items: seq<Item>, seen: set<string>, room: nat, minQuality: real,
          norm: Normaliser, e: Item)
    requires SortedDown(items) && e in Greedy(items, seen, room, minQuality, norm)
    ensures BestPick(items, seen, minQuality, norm, e)
    decreases |items|
  {
    if Skips(items[0], seen, minQuality, norm) {
      GreedyPicksBest(items[1..], seen, room, minQuality, norm, e);
      BestPickOfTail(items, seen, seen, minQuality, norm, e);
    } else if e == items[0] {
      forall x | x in items ensures x.quality <= e.quality { }
    } else {
      var more := seen + {norm(items[0].snippet)};
      GreedyPicksBest(items[1..], more, room - 1, minQuality, norm, e);
      BestPickOfTail(items, seen, more, minQuality, norm, e);
    }
  }

  /** The pick is sorted, and no two of its snippets are the same. */
  lemma {:induction false} GreedyIsDistinct(items: seq<Item>, seen: set<string>, room: nat, minQuality: real,
          norm: Normaliser)
    requires SortedDown(items)
    ensures var picked := Greedy(items, seen, room, minQuality, norm);
            |picked| <= room && SortedDown(picked) && DistinctSnippets(picked, norm)
    decreases |items|
  {
    if items != [] && room > 0 {
      if Skips(items[0], seen, minQuality, norm) {
        GreedyIsDistinct(items[1..], seen, room, minQuality, norm);
      } else {
        var more := seen + {norm(items[0].snippet)};
        var rest := Greedy(items[1..], more, room - 1, minQuality, norm);
        GreedyIsDistinct(items[1..], more, room - 1, minQuality, norm);
        forall i | 0 <= i < |rest| ensures rest[i].quality <= items[0].quality
            && norm(rest[i].snippet) != norm(items[0].snippet) {
          GreedyPicksBest(items[1..], more, room - 1, minQuality, norm, rest[i]);
          assert rest[i] in items;
        }
      }
    }
  }

  /** The evidence is sorted and distinct, and represents each snippet by its best candidate. */
  lemma RetrievedPicksBestOfEach(repo: seq<Insight>, memory: seq<Insight>, maxItems: int, minQuality: real,
          norm: Normaliser)
    ensures var ranked, picked := Ranked(repo, memory), Retrieved(repo, memory, maxItems, minQuality, norm);
            && SortedDown(picked) && DistinctSnippets(picked, norm)
            && forall e :: e in picked ==> BestPick(ranked, {}, minQuality, norm, e)
  {
    var ranked := Ranked(repo, memory);
    RankedIsSorted(repo, memory);
    GreedyIsDistinct(ranked, {}, Room(maxItems), minQuality, norm);
    forall e | e in Retrieved(repo, memory, maxItems, minQuality, norm)
      ensures BestPick(ranked, {}, minQuality, norm, e)
    {
      GreedyPicksBest(ranked, {}, Room(maxItems), minQuality, norm, e);
    }
  }

  lemma {:induction false} GreedyEmpty(items: seq<Item>, room: nat, minQuality: real, norm: Normaliser)
    requires room > 0
    ensures Greedy(items, {}, room, minQuality, norm) == [] <==> forall x :: x in items ==> x.quality < minQuality
  {
    if items != [] {
      assert items == [items[0]] + items[1..];
      GreedyEmpty(items[1..], room, minQuality, norm);
    }
  }

  /** The bound on the number of items is exceeded exactly when it is below one and some candidate is good enough. */
  lemma BoundExceeded(repo: seq<Insight>, memory: seq<Insight>, maxItems: int, minQuality: real, norm: Normaliser)
    requires maxItems >= 0
    ensures |Retrieved(repo, memory, maxItems, minQuality, norm)| > maxItems
       <==> maxItems == 0 && exists x :: x in Ranked(repo, memory) && x.quality >= minQuality
  {
    RankedIsSorted(repo, memory);
    GreedyIsDistinct(Ranked(repo, memory), {}, Room(maxItems), minQuality, norm);
    GreedyEmpty(Ranked(repo, memory), Room(maxItems), minQuality, norm);
  }

  /** Older evidence never weighs more. */
  lemma RecencyNeverRises(age: real, older: real)
    requires age <= older
    ensures RecencyMultiplier(older) <= RecencyMultiplier(age)
  {
  }

  // ----- The gates -----

  lemma {:induction false} PeakIsReached(items: seq<Item>)
    requires items != []
    ensures exists x :: x in items && x.quality == Peak(items)
    ensures forall x :: x in items ==> x.quality <= Peak(items)
  {
    assert items == [items[0]] + items[1..];
    assert items[0] in items;
    if |items| > 1 {
      PeakIsReached(items[1..]);
      var x :| x in items[1..] && x.quality == Peak(items[1..]);
      assert x in items;
    }
  }

  /**
   Stage 2 asks for one item of quality 0.2, later stages for two items averaging 0.25; a gate passes
   all or nothing.
   */
  lemma GateExactly(stage: int, evidence: seq<Item>)
    ensures stage <= 1 ==> Gate(stage, evidence).0 == evidence
    ensures stage == 2 ==>
              Gate(stage, evidence).0 == if exists x :: x in evidence && x.quality >= 0.2 then evidence else []
    ensures stage >= 3 ==>
              Gate(stage, evidence).0
              == if |evidence| >= 2 && Total(evidence) >= 0.25 * |evidence| as real then evidence else []
    ensures Gate(stage, evidence).1
         == if stage <= 1 then PassThrough
            else if evidence == [] then BlockedNoItems
            else if stage == 2 then
              if exists x :: x in evidence && x.quality >= 0.2 then PassPeak else BlockedLowPeak
            else if |evidence| == 1 then BlockedTooFew
            else if Total(evidence) >= 0.25 * |evidence| as real then PassAverage else BlockedLowAverage
  {
    if evidence != [] {
      PeakIsReached(evidence);
      AverageTest(Total(evidence), |evidence| as real);
    }
  }

  /** What a feedback stage gives the strategist: the pick of five at its own threshold, if its gate passes it. */
  lemma GatedExactly(repo: seq<Insight>, memory: seq<Insight>, stage: int, norm: Normaliser)
    ensures var all := Retrieved(repo, memory, 5, 0.0, norm);
            stage <= 1 ==> Gated(repo, memory, stage, norm) == all
    ensures var fair := Retrieved(repo, memory, 5, 0.02, norm);
            stage == 2 ==>
              Gated(repo, memory, stage, norm) == if exists x :: x in fair && x.quality >= 0.2 then fair else []
    ensures var good := Retrieved(repo, memory, 5, 0.04, norm);
            stage >= 3 ==>
              Gated(repo, memory, stage, norm)
              == if |good| >= 2 && Total(good) >= 0.25 * |good| as real then good else []
  {
    GateExactly(stage, Retrieved(repo, memory, MAX_ITEMS, MinQuality(stage), norm));
  }

  lemma AverageTest(total: real, n: real)
    requires n > 0.0
    ensures total / n < 0.25 <==> total < 0.25 * n
  {
    var average := total / n;
    assert total == average * n;
    if average < 0.25 { assert (0.25 - average) * n > 0.0; } else { assert (average - 0.25) * n >= 0.0; }
  }

  // ----- Stages nest -----

  lemma {:induction false} NoneGoodEnough(items: seq<Item>, seen: set<string>, room: nat, minQuality: real,
          norm: Normaliser)
    requires forall x :: x in items ==> x.quality < minQuality
    ensures Greedy(items, seen, room, minQuality, norm) == []
    decreases |items|
  {
    if items != [] && room > 0 {
      assert items[0] in items;
      NoneGoodEnough(items[1..], seen, room, minQuality, norm);
    }
  }

  /** On ranked items a higher threshold only cuts the pick short. */
  lemma {:induction false} ThresholdCutsPrefix(items: seq<Item>, seen: set<string>, room: nat, low: real, high: real,
          norm: Normaliser)
    requires SortedDown(items) && low <= high
    ensures Greedy(items, seen, room, high, norm) <= Greedy(items, seen, room, low, norm)
    decreases |items|
  {
    if items != [] && room > 0 {
      if items[0].quality < high {
        forall x | x in items ensures x.quality < high { }
        NoneGoodEnough(items, seen, room, high, norm);
      } else if norm(items[0].snippet) in seen {
        ThresholdCutsPrefix(items[1..], seen, room, low, high, norm);
      } else {
        ThresholdCutsPrefix(items[1..], seen + {norm(items[0].snippet)}, room - 1, low, high, norm);
      }
    }
  }

  lemma {:induction false} AverageBelowPeak(items: seq<Item>)
    requires items != []
    ensures Total(items) <= |items| as real * Peak(items)
  {
    if |items| > 1 {
      AverageBelowPeak(items[1..]);
      var n, rest, peak := |items[1..]| as real, Peak(items[1..]), Peak(items);
      assert n * rest <= n * peak;
    }
  }

  lemma {:induction false} PeakOfPrefix(short: seq<Item>, long: seq<Item>)
    requires short != [] && short <= long
    ensures Peak(short) <= Peak(long)
  {
    if |long| > 1 {
      if |short| > 1 {
        PeakOfPrefix(short[1..], long[1..]);
      }
    }
  }

  /** The evidence let through at a stricter stage is a prefix of that at a looser one. */
  lemma StagesNest(repo: seq<Insight>, memory: seq<Insight>, stage: int, norm: Normaliser)
    ensures Gated(repo, memory, stage + 1, norm) <= Gated(repo, memory, stage, norm)
  {
    RankedIsSorted(repo, memory);
    var ranked := Ranked(repo, memory);
    ThresholdCutsPrefix(ranked, {}, MAX_ITEMS, MinQuality(stage), MinQuality(stage + 1), norm);
    var strict := Retrieved(repo, memory, MAX_ITEMS, MinQuality(stage + 1), norm);
    var loose := Retrieved(repo, memory, MAX_ITEMS, MinQuality(stage), norm);
    assert strict <= loose;
    if stage == 2 && Gated(repo, memory, 3, norm) != [] {
      AverageBelowPeak(strict);
      PeakOfPrefix(strict, loose);
      var n := |strict| as real;
      assert Total(strict) / n >= 0.25;
      assert Total(strict) >= 0.25 * n;
      PeakAboveAverage(n, Total(strict), Peak(strict));
    }
  }

  lemma PeakAboveAverage(n: real, total: real, peak: real)
    requires n > 0.0 && 0.25 * n <= total <= n * peak
    ensures peak >= 0.25
  {
    assert n * peak - n * 0.25 == n * (peak - 0.25);
  }

  // ----- Confidence -----

  /** The impacts of the evidence together, from the last item on. */
  function Impact(evidence: seq<Item>): real {
    if evidence == [] then 0.0 else Impact(evidence[..|evidence| - 1]) + evidence[|evidence| - 1].impact
  }

  lemma {:induction false} RawImpactIsImpact(evidence: seq<Item>)
    ensures RawImpact(evidence) == Impact(evidence)
  {
    if evidence != [] {
      RawImpactIsImpact(evidence[1..]);
      ImpactOfHead(evidence);
    }
  }

  lemma {:induction false} ImpactOfHead(evidence: seq<Item>)
    requires evidence != []
    ensures Impact(evidence) == evidence[0].impact + Impact(evidence[1..])
  {
    if |evidence| > 1 {
      ImpactOfHead(evidence[..|evidence| - 1]);
      assert evidence[..|evidence| - 1][1..] == evidence[1..][..|evidence| - 2];
    } else {
      assert evidence[..0] == [] && evidence[1..] == [];
    }
  }

  /** The confidence is 0.78 and the impacts of the evidence together, but never below 0.78 or above 0.93. */
  lemma ConfidenceExactly(evidence: seq<Item>)
    ensures Confidence(evidence)
         == if Impact(evidence) <= 0.0 then 0.78
            else if Impact(evidence) >= 0.15 then 0.93
            else 0.78 + Impact(evidence)
  {
    RawImpactIsImpact(evidence);
  }

  /** The strategist's confidence stays in its band. */
  lemma ConfidenceBand(evidence: seq<Item>)
    ensures 0.78 <= Confidence(evidence) <= 0.93
  {
  }

  lemma {:induction false} ImpactOfPrefix(short: seq<Item>, long: seq<Item>)
    requires short <= long && forall x :: x in long ==> x.impact >= 0.0
    ensures 0.0 <= RawImpact(short) <= RawImpact(long)
  {
    if long != [] {
      assert long[0] in long;
      if short != [] { ImpactOfPrefix(short[1..], long[1..]); } else { ImpactOfPrefix([], long[1..]); }
    }
  }

  /** A candidate that passes a threshold of at least zero has an impact of at least zero. */
  lemma QualityBoundsImpact(i: Insight)
    requires ItemOf(i).quality >= 0.0
    ensures ItemOf(i).impact >= 0.0
  {
    var m := RecencyMultiplier(i.ageDays);
    if i.successRate < 0.0 { assert i.successRate * m < 0.0; }
  }

  lemma RetrievedImpacts(repo: seq<Insight>, memory: seq<Insight>, maxItems: int, minQuality: real, norm: Normaliser,
          e: Item)
    requires minQuality >= 0.0 && e in Retrieved(repo, memory, maxItems, minQuality, norm)
    ensures e.impact >= 0.0
  {
    RetrievedPicksBestOfEach(repo, memory, maxItems, minQuality, norm);
    SortKeepsMembers(Items(repo) + Items(memory), Descending(), e);
    var all := Items(repo) + Items(memory);
    var k :| 0 <= k < |all| && all[k] == e;
    QualityBoundsImpact(if k < |repo| then repo[k] else memory[k - |repo|]);
  }

  /** A stricter feedback stage never raises the strategist's confidence. */
  lemma StricterStageNeverMoreConfident(repo: seq<Insight>, memory: seq<Insight>, stage: int, norm: Normaliser)
    ensures Confidence(Gated(repo, memory, stage + 1, norm)) <= Confidence(Gated(repo, memory, stage, norm))
  {
    StagesNest(repo, memory, stage, norm);
    var loose := Gated(repo, memory, stage, norm);
    forall x | x in loose ensures x.impact >= 0.0 {
      RetrievedImpacts(repo, memory, MAX_ITEMS, MinQuality(stage), norm, x);
    }
    ImpactOfPrefix(Gated(repo, memory, stage + 1, norm), loose);
  }
}
