/**
 Memory evidence: candidates ranked by quality, picked greedily without repeated snippets, gated
 by feedback stage, and turned into the strategist's strategy and confidence.
 */
module Evidence {
  import opened StableSort

  /** A persona insight, from either store, with its age in days. */
  datatype Insight = Insight(id: string, text: string, successRate: real, ageDays: real)

  datatype Item = Item(id: string, snippet: string, impact: real, quality: real)

  /** `snippet.strip().lower()`. */
  type Normaliser = string -> string

  function RecencyMultiplier(ageDays: real): (m: real)
    ensures 0.5 <= m <= 1.0
  {
    if ageDays <= 14.0 then 1.0
    else if ageDays <= 45.0 then 0.85
    else if ageDays <= 90.0 then 0.7
    else 0.5
  }

  function ItemOf(i: Insight): Item {
    Item(i.id, i.text, i.successRate * 0.05, i.successRate * RecencyMultiplier(i.ageDays))
  }

  function Items(insights: seq<Insight>): (r: seq<Item>)
    ensures |r| == |insights| && forall k :: 0 <= k < |r| ==> r[k] == ItemOf(insights[k])
  {
    seq(|insights|, k requires 0 <= k < |insights| => ItemOf(insights[k]))
  }

  function Descending(): Item -> real {
    (item: Item) => -item.quality
  }

  /** The repository's rows before the in-memory ones, best quality first, ties in that order. */
  function Ranked(repo: seq<Insight>, memory: seq<Insight>): seq<Item> {
    Sort(Items(repo) + Items(memory), Descending())
  }

  predicate SortedDown(s: seq<Item>) {
    forall i, j :: 0 <= i < j < |s| ==> s[i].quality >= s[j].quality
  }

  // ----- The greedy pick -----

  predicate Skips(item: Item, seen: set<string>, minQuality: real, norm: Normaliser) {
    norm(item.snippet) in seen || item.quality < minQuality
  }

  /** Pick from `items` what is not skipped, up to `room` items. */
  function Greedy(items: seq<Item>, seen: set<string>, room: nat, minQuality: real, norm: Normaliser): seq<Item> {
    if items == [] || room == 0 then []
    else if Skips(items[0], seen, minQuality, norm) then Greedy(items[1..], seen, room, minQuality, norm)
    else [items[0]] + Greedy(items[1..], seen + {norm(items[0].snippet)}, room - 1, minQuality, norm)
  }

  /** The loop tests its bound after it appends, so it always has room for one item. */
  function Room(maxItems: int): nat {
    if maxItems < 1 then 1 else maxItems
  }

  function Retrieved(repo: seq<Insight>, memory: seq<Insight>, maxItems: int, minQuality: real,
          norm: Normaliser): seq<Item> {
    Greedy(Ranked(repo, memory), {}, Room(maxItems), minQuality, norm)
  }

  /** The loop itself: skip, append, stop once the bound is reached. */
  method RetrievePersonaEvidence(repo: seq<Insight>, memory: seq<Insight>, maxItems: int, minQuality: real,
          norm: Normaliser)
    returns (evidence: seq<Item>)
    ensures evidence == Retrieved(repo, memory, maxItems, minQuality, norm)
  {
    var ranked := Ranked(repo, memory);
    evidence := [];
    var seen: set<string> := {};
    var i := 0;
    while i < |ranked|
      invariant 0 <= i <= |ranked| && |evidence| < Room(maxItems)
      invariant evidence + Greedy(ranked[i..], seen, Room(maxItems) - |evidence|, minQuality, norm)
             == Greedy(ranked, {}, Room(maxItems), minQuality, norm)
    {
      var item := ranked[i];
      assert ranked[i..][0] == item && ranked[i..][1..] == ranked[i + 1..];
      i := i + 1;
      var snippet := norm(item.snippet);
      if snippet in seen || item.quality < minQuality {
        continue;
      }
      seen := seen + {snippet};
      evidence := evidence + [item];
      if |evidence| >= maxItems {
        break;
      }
    }
  }

  // ----- The gates -----

  datatype GateReason =
    | PassThrough
    | BlockedNoItems
    | BlockedLowPeak
    | PassPeak
    | BlockedTooFew
    | BlockedLowAverage
    | PassAverage

  function Total(items: seq<Item>): real {
    if items == [] then 0.0 else items[0].quality + Total(items[1..])
  }

  function Peak(items: seq<Item>): real
    requires items != []
  {
    if |items| == 1 then items[0].quality
    else
      var rest := Peak(items[1..]);
      if items[0].quality >= rest then items[0].quality else rest
  }

  function Gate(stage: int, evidence: seq<Item>): (seq<Item>, GateReason) {
    if stage <= 1 then (evidence, PassThrough)
    else if evidence == [] then ([], BlockedNoItems)
    else if stage == 2 then
      if Peak(evidence) < 0.2 then ([], BlockedLowPeak) else (evidence, PassPeak)
    else if |evidence| < 2 then ([], BlockedTooFew)
    else if Total(evidence) / |evidence| as real < 0.25 then ([], BlockedLowAverage)
    else (evidence, PassAverage)
  }

  function MinQuality(stage: int): real {
    if stage <= 1 then 0.0 else if stage == 2 then 0.02 else 0.04
  }

  const MAX_ITEMS := 5

  /** What the strategist is given at a feedback stage. */
  function Gated(repo: seq<Insight>, memory: seq<Insight>, stage: int, norm: Normaliser): seq<Item> {
    Gate(stage, Retrieved(repo, memory, MAX_ITEMS, MinQuality(stage), norm)).0
  }

  // ----- The strategist -----

  function RawImpact(evidence: seq<Item>): real {
    if evidence == [] then 0.0 else evidence[0].impact + RawImpact(evidence[1..])
  }

  function Clamp(x: real): real {
    if x < 0.0 then 0.0 else if x > 0.15 then 0.15 else x
  }

  function Confidence(evidence: seq<Item>): real {
    if evidence == [] then 0.78 else 0.78 + Clamp(RawImpact(evidence))
  }
}
