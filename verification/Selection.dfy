/** Choosing a tick's winner: every bid is scored and ranked, the best eligible
    one wins. */
module Selection {
  import opened Results
  import opened Q32
  import opened Ordering
  import opened Settlement

  // ----- bids -----

  datatype Bid = Bid(predictedDelta: int, predictedCost: int, confidence: int, horizon: int, evidence: string)

  /** The numbers `build_bid_v1` puts into a bid. */
  function BuildBid(roi: int, confidence: int, horizon: int, predictedCost: int, evidence: string): Bid {
    var cost := Max(1, predictedCost);
    Bid(Max(0, Mul(Max(0, roi), cost)), cost, Clamp(confidence, 0, ONE), Max(1, horizon), evidence)
  }

  /** The return on investment `select_winner` recomputes from a bid. */
  function RecomputedRoi(b: Bid): int {
    (Max(0, b.predictedDelta) * ONE) / Max(1, Max(1, b.predictedCost))
  }

  // ----- eligibility -----

  datatype Budget = Budget(cpu: int, build: int, verifier: int)

  predicate HasBudget(b: Budget, cost: int) {
    b.cpu >= cost && b.build >= cost && b.verifier >= cost
  }

  datatype Skip = Eligible | Disabled | Cooldown | OverBudget

  /** Two copies of the selection exist: the orchestrator's, and the one vendored
      with the verifier for stand-alone use. They differ in the score and in the
      treatment of disabled campaigns. */
  datatype Copy = Orchestrator | Vendored

  /** What a selection reads besides bids and campaigns. */
  datatype Context = Context(tick: int, cooldowns: map<string, int>, budget: Budget)

  function SkipReason(copy: Copy, ctx: Context, id: string, c: Campaign, cost: int): Skip {
    if copy == Orchestrator && c.disabled then Disabled
    else if (if id in ctx.cooldowns then ctx.cooldowns[id] else 0) > ctx.tick then Cooldown
    else if !HasBudget(ctx.budget, cost) then OverBudget
    else Eligible
  }

  // ----- scoring -----

  /** Everything computed about one bid. */
  datatype Entry = Entry(
    id: string, skip: Skip, score: int, roi: int, credibility: int, confidence: int,
    predictedDelta: int, predictedCost: int, horizon: int, evidence: string)

  function Score(copy: Copy, roi: int, credibility: int, confidence: int): int {
    if copy == Orchestrator then Mul(Mul(roi, credibility), confidence) else Mul(roi, credibility)
  }

  function EntryOf(copy: Copy, ctx: Context, id: string, b: Bid, c: Campaign): Entry {
    var credibility := Clamp(c.credibility, 0, ONE);
    var confidence := Clamp(b.confidence, 0, ONE);
    var cost := Max(1, b.predictedCost);
    var roi := RecomputedRoi(b);
    Entry(id, SkipReason(copy, ctx, id, c, cost), Score(copy, roi, credibility, confidence), roi,
          credibility, confidence, Max(0, b.predictedDelta), cost, b.horizon, b.evidence)
  }

  /** Descending by the four numbers, then ascending by id. */
  function RankKey(e: Entry): seq<int> {
    [-e.score] + ([-e.roi] + ([-e.credibility] + ([-e.confidence] + Codes(e.id))))
  }

  // ----- the receipt -----

  datatype Candidate = Candidate(id: string, eligible: bool, skip: Skip, score: int, roi: int)

  datatype Winner = Winner(
    id: string, score: int, roi: int, credibility: int, confidence: int,
    predictedDelta: int, predictedCost: int, horizon: int, evidence: string)

  const OK := "OK"
  const NOOP := "NOOP"

  datatype Selected = Selected(tick: int, winner: Option<Winner>, candidates: seq<Candidate>, outcome: string)

  function CandidateOf(e: Entry): Candidate {
    Candidate(e.id, e.skip == Eligible, e.skip, e.score, e.roi)
  }

  function WinnerOf(e: Entry): Winner {
    Winner(e.id, e.score, e.roi, e.credibility, e.confidence, e.predictedDelta, e.predictedCost, Max(1, e.horizon), e.evidence)
  }

  function Entries(copy: Copy, ctx: Context, t: Table, bids: map<string, Bid>, ids: seq<string>): (r: seq<Entry>)
    requires forall i :: 0 <= i < |ids| ==> ids[i] in bids && ids[i] in t
    ensures |r| == |ids|
    ensures forall i :: 0 <= i < |ids| ==> r[i] == EntryOf(copy, ctx, ids[i], bids[ids[i]], t[ids[i]])
  {
    seq(|ids|, i requires 0 <= i < |ids| => EntryOf(copy, ctx, ids[i], bids[ids[i]], t[ids[i]]))
  }

  function KeyedCandidates(entries: seq<Entry>): seq<Keyed<Candidate>> {
    if |entries| == 0 then [] else
    var e := entries[|entries| - 1];
    KeyedCandidates(entries[..|entries| - 1]) + [Keyed(RankKey(e), CandidateOf(e))]
  }

  function KeyedEligible(entries: seq<Entry>): seq<Keyed<Entry>> {
    if |entries| == 0 then [] else
    var e := entries[|entries| - 1];
    KeyedEligible(entries[..|entries| - 1]) + if e.skip == Eligible then [Keyed(RankKey(e), e)] else []
  }

  function SelectionReceipt(tick: int, entries: seq<Entry>): Selected {
    var ranked := Sort(KeyedEligible(entries));
    var candidates := Items(Sort(KeyedCandidates(entries)));
    if |ranked| == 0 then Selected(tick, None, candidates, NOOP)
    else Selected(tick, Some(WinnerOf(ranked[0].item)), candidates, OK)
  }

  /** What `select_winner` returns on a table. */
  function SelectWinner(copy: Copy, ctx: Context, t: Table, bids: map<string, Bid>): Result<Selected> {
    if bids.Keys <= t.Keys then Ok(SelectionReceipt(ctx.tick, Entries(copy, ctx, t, bids, SortedSet(bids.Keys))))
    else Fail("SCHEMA_FAIL")
  }

  method Select(copy: Copy, ctx: Context, t: Table, bids: map<string, Bid>) returns (r: Result<Selected>)
    ensures r == SelectWinner(copy, ctx, t, bids)
  {
    hide EntryOf, RankKey, CandidateOf, WinnerOf, Sort, Entries;
    var ids := SortedSet(bids.Keys);
    var candidates: seq<Keyed<Candidate>> := [];
    var eligible: seq<Keyed<Entry>> := [];
    assert Entries(copy, ctx, t, bids, ids[..0]) == [];
    assert KeyedCandidates([]) == [] && KeyedEligible([]) == [];
    hide KeyedCandidates, KeyedEligible;
    for i := 0 to |ids|
      invariant forall j :: 0 <= j < i ==> ids[j] in t
      invariant candidates == KeyedCandidates(Entries(copy, ctx, t, bids, ids[..i]))
      invariant eligible == KeyedEligible(Entries(copy, ctx, t, bids, ids[..i]))
    {
      if ids[i] !in t {
        assert ids[i] in bids.Keys;
        return Fail("SCHEMA_FAIL");
      }
      var e := EntryOf(copy, ctx, ids[i], bids[ids[i]], t[ids[i]]);
      OneMoreEntry(copy, ctx, t, bids, ids, i);
      candidates := candidates + [Keyed(RankKey(e), CandidateOf(e))];
      if e.skip == Eligible {
        eligible := eligible + [Keyed(RankKey(e), e)];
      }
    }
    assert ids[..|ids|] == ids;
    SortedSetMembers(bids.Keys);
    var sortedCandidates := Items(Sort(candidates));
    SortMembers(eligible);
    if |eligible| != 0 {
      var ranked := Sort(eligible);
      r := Ok(Selected(ctx.tick, Some(WinnerOf(ranked[0].item)), sortedCandidates, OK));
    } else {
      r := Ok(Selected(ctx.tick, None, sortedCandidates, NOOP));
    }
  }

  lemma OneMoreEntry(copy: Copy, ctx: Context, t: Table, bids: map<string, Bid>, ids: seq<string>, i: nat)
    requires i < |ids| && forall j :: 0 <= j < |ids| ==> ids[j] in bids
    requires forall j :: 0 <= j <= i ==> ids[j] in t
    ensures var es := Entries(copy, ctx, t, bids, ids[..i]);
            var e := EntryOf(copy, ctx, ids[i], bids[ids[i]], t[ids[i]]);
            var more := Entries(copy, ctx, t, bids, ids[..i + 1]);
            && KeyedCandidates(more) == KeyedCandidates(es) + [Keyed(RankKey(e), CandidateOf(e))]
            && KeyedEligible(more) == KeyedEligible(es) + if e.skip == Eligible then [Keyed(RankKey(e), e)] else []
  {
    hide EntryOf, RankKey, CandidateOf;
    var more := Entries(copy, ctx, t, bids, ids[..i + 1]);
    assert more[..i] == Entries(copy, ctx, t, bids, ids[..i]);
  }
}
