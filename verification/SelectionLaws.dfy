/** What a selection means: who wins, why, and what can change it. */
module SelectionLaws {
  import opened Results
  import opened Q32
  import opened Ordering
  import opened Settlement
  import opened Selection

  // ----- the ranking, stated without keys or sorting -----

  /** `a` ranks strictly ahead of `b`. */
  predicate Beats(a: Entry, b: Entry) {
    || a.score > b.score
    || (a.score == b.score && (
        || a.roi > b.roi
        || (a.roi == b.roi && (
            || a.credibility > b.credibility
            || (a.credibility == b.credibility && (
                || a.confidence > b.confidence
                || (a.confidence == b.confidence && a.id != b.id && StringLeq(a.id, b.id))))))))
  }

  lemma RankKeyOrder(a: Entry, b: Entry)
    ensures Leq(RankKey(a), RankKey(b)) <==> !Beats(b, a)
    ensures a.id != b.id ==> (Beats(a, b) <==> !Beats(b, a))
  {
    var a3, b3 := [-a.confidence] + Codes(a.id), [-b.confidence] + Codes(b.id);
    var a2, b2 := [-a.credibility] + a3, [-b.credibility] + b3;
    var a1, b1 := [-a.roi] + a2, [-b.roi] + b2;
    LeqCons(-a.confidence, Codes(a.id), -b.confidence, Codes(b.id));
    LeqCons(-a.credibility, a3, -b.credibility, b3);
    LeqCons(-a.roi, a2, -b.roi, b2);
    LeqCons(-a.score, a1, -b.score, b1);
    LeqTotal(Codes(a.id), Codes(b.id));
    LeqReflexive(Codes(a.id));
    if StringLeq(a.id, b.id) && StringLeq(b.id, a.id) {
      LeqAntisymmetric(Codes(a.id), Codes(b.id));
      CodesInjective(a.id, b.id);
    }
  }

  /** The entry of one bid. */
  function E(copy: Copy, ctx: Context, t: Table, bids: map<string, Bid>, id: string): (e: Entry)
    requires id in bids && id in t
    ensures e.id == id
  {
    EntryOf(copy, ctx, id, bids[id], t[id])
  }

  predicate CanWin(copy: Copy, ctx: Context, t: Table, bids: map<string, Bid>, id: string) {
    id in bids && id in t && E(copy, ctx, t, bids, id).skip == Eligible
  }

  /** `id` may win and every other campaign that may win ranks behind it. */
  ghost predicate Best(copy: Copy, ctx: Context, t: Table, bids: map<string, Bid>, id: string) {
    && CanWin(copy, ctx, t, bids, id)
    && forall k :: k != id && CanWin(copy, ctx, t, bids, k) ==>
         Beats(E(copy, ctx, t, bids, id), E(copy, ctx, t, bids, k))
  }

  // ----- from the sorted lists to the ranking -----

  lemma {:induction false} EligibleRows(es: seq<Entry>)
    ensures forall x :: x in KeyedEligible(es) <==> x.item in es && x.item.skip == Eligible && x.key == RankKey(x.item)
  {
    if |es| != 0 {
      var n := |es| - 1;
      EligibleRows(es[..n]);
      assert es == es[..n] + [es[n]];
    }
  }

  lemma {:induction false} CandidateRows(es: seq<Entry>)
    ensures |KeyedCandidates(es)| == |es|
    ensures forall i :: 0 <= i < |es| ==> KeyedCandidates(es)[i] == Keyed(RankKey(es[i]), CandidateOf(es[i]))
  {
    if |es| != 0 {
      CandidateRows(es[..|es| - 1]);
    }
  }

  lemma SortHead<T>(s: seq<Keyed<T>>)
    requires |s| != 0
    ensures |Sort(s)| == |s| && Sort(s)[0] in s
    ensures forall x :: x in s ==> Leq(Sort(s)[0].key, x.key)
  {
    SortMembers(s);
    SortOrdered(s);
    assert Sort(s)[0] in Sort(s);
    forall x | x in s ensures Leq(Sort(s)[0].key, x.key) {
      OrderedHead(Sort(s), x);
    }
  }

  /** The entries are exactly the entries of the bids. */
  lemma EntryMembers(copy: Copy, ctx: Context, t: Table, bids: map<string, Bid>)
    requires bids.Keys <= t.Keys
    ensures forall e :: e in Entries(copy, ctx, t, bids, SortedSet(bids.Keys)) <==>
              e.id in bids && e == E(copy, ctx, t, bids, e.id)
  {
    var ids := SortedSet(bids.Keys);
    var es := Entries(copy, ctx, t, bids, ids);
    SortedSetMembers(bids.Keys);
    forall e ensures e in es <==> e.id in bids && e == E(copy, ctx, t, bids, e.id) {
      if e in es {
        var i :| 0 <= i < |es| && es[i] == e;
        assert e == E(copy, ctx, t, bids, ids[i]);
      }
      if e.id in bids && e == E(copy, ctx, t, bids, e.id) {
        assert e.id in ids;
        var i :| 0 <= i < |ids| && ids[i] == e.id;
        assert es[i] == e;
      }
    }
  }

  // ----- main results -----

  /** The winner is the one best campaign, its payload is its own entry, and
      there is a winner exactly when some campaign may win. */
  lemma WinnerIsBest(copy: Copy, ctx: Context, t: Table, bids: map<string, Bid>, s: Selected)
    requires SelectWinner(copy, ctx, t, bids) == Ok(s)
    ensures forall id :: s.winner.Some? && s.winner.value.id == id <==> Best(copy, ctx, t, bids, id)
    ensures s.winner.Some? ==>
      && s.winner.value.id in bids && s.winner.value.id in t
      && s.winner.value == WinnerOf(E(copy, ctx, t, bids, s.winner.value.id))
    ensures s.outcome == (if s.winner.Some? then "OK" else "NOOP")
    ensures s.outcome == "OK" <==> exists id :: CanWin(copy, ctx, t, bids, id)
  {
    var es := Entries(copy, ctx, t, bids, SortedSet(bids.Keys));
    var rows := KeyedEligible(es);
    EntryMembers(copy, ctx, t, bids);
    EligibleRows(es);
    forall id | CanWin(copy, ctx, t, bids, id)
      ensures Keyed(RankKey(E(copy, ctx, t, bids, id)), E(copy, ctx, t, bids, id)) in rows
    {
      assert E(copy, ctx, t, bids, id) in es;
    }
    if |rows| == 0 {
      assert Sort(rows) == [];
    } else {
      SortHead(rows);
      var top := Sort(rows)[0].item;
      assert CanWin(copy, ctx, t, bids, top.id) && top == E(copy, ctx, t, bids, top.id);
      forall k | k != top.id && CanWin(copy, ctx, t, bids, k)
        ensures Beats(top, E(copy, ctx, t, bids, k)) && !Best(copy, ctx, t, bids, k)
      {
        RankKeyOrder(top, E(copy, ctx, t, bids, k));
      }
    }
  }

  /** Every sorted row is the row of one entry, and every entry has one. */
  lemma CandidateAt(es: seq<Entry>, j: nat) returns (e: Entry)
    requires j < |Sort(KeyedCandidates(es))|
    ensures e in es && Sort(KeyedCandidates(es))[j] == Keyed(RankKey(e), CandidateOf(e))
  {
    var n := SortSource(KeyedCandidates(es), j);
    CandidateRows(es);
    e := es[n];
  }

  lemma CandidateOfEntry(es: seq<Entry>, e: Entry) returns (j: nat)
    requires e in es
    ensures j < |Sort(KeyedCandidates(es))| && Sort(KeyedCandidates(es))[j] == Keyed(RankKey(e), CandidateOf(e))
  {
    var n :| 0 <= n < |es| && es[n] == e;
    CandidateRows(es);
    j := SortTarget(KeyedCandidates(es), n);
  }

  /** An earlier row is never beaten by a later one. */
  lemma CandidatesInOrder(es: seq<Entry>, i: nat, j: nat, a: Entry, b: Entry)
    requires i <= j < |Sort(KeyedCandidates(es))|
    requires Sort(KeyedCandidates(es))[i].key == RankKey(a) && Sort(KeyedCandidates(es))[j].key == RankKey(b)
    ensures !Beats(b, a)
  {
    SortOrdered(KeyedCandidates(es));
    LeqReflexive(RankKey(a));
    RankKeyOrder(a, b);
  }

  /** The rows of two entries, of which the second does not beat the first. */
  ghost predicate RowsInOrder(es: seq<Entry>, first: Candidate, second: Candidate) {
    exists a, b :: a in es && b in es && !Beats(b, a) && first == CandidateOf(a) && second == CandidateOf(b)
  }

  lemma RankedPair(tick: int, es: seq<Entry>, i: int, j: int)
    requires 0 <= i < j < |SelectionReceipt(tick, es).candidates|
    ensures RowsInOrder(es, SelectionReceipt(tick, es).candidates[i], SelectionReceipt(tick, es).candidates[j])
  {
    CandidateRows(es);
    hide RankKey, Beats, CandidateOf;
    var a := CandidateAt(es, i);
    var b := CandidateAt(es, j);
    CandidatesInOrder(es, i, j, a, b);
  }

  /** The full list has one row for each entry and is in ranking order. */
  lemma CandidatesAreRanked(tick: int, es: seq<Entry>)
    ensures |SelectionReceipt(tick, es).candidates| == |es|
    ensures forall e :: e in es ==> CandidateOf(e) in SelectionReceipt(tick, es).candidates
    ensures forall i, j :: 0 <= i < j < |es| ==>
      RowsInOrder(es, SelectionReceipt(tick, es).candidates[i], SelectionReceipt(tick, es).candidates[j])
  {
    hide Beats, RankKey, CandidateOf, KeyedEligible, KeyedCandidates, RowsInOrder;
    var cs := SelectionReceipt(tick, es).candidates;
    CandidateRows(es);
    SortMembers(KeyedCandidates(es));
    hide Sort;
    forall e | e in es ensures CandidateOf(e) in cs {
      var j := CandidateOfEntry(es, e);
      assert cs[j] == CandidateOf(e);
    }
    forall i, j | 0 <= i < j < |es|
      ensures RowsInOrder(es, cs[i], cs[j])
    {
      RankedPair(tick, es, i, j);
    }
  }

  /** The two sorts agree: the first eligible row of the full list is the
      winner's, and there is no winner when no row is eligible. */
  lemma WinnerIsFirstEligible(tick: int, es: seq<Entry>, i: nat)
    requires i <= |SelectionReceipt(tick, es).candidates|
    requires forall j :: 0 <= j < i ==> !SelectionReceipt(tick, es).candidates[j].eligible
    ensures var s := SelectionReceipt(tick, es);
      && (i == |s.candidates| ==> s.winner.None?)
      && (i < |s.candidates| && s.candidates[i].eligible ==>
            && s.winner.Some?
            && s.candidates[i] == Candidate(s.winner.value.id, true, Eligible, s.winner.value.score, s.winner.value.roi))
  {
    var s := SelectionReceipt(tick, es);
    var rows := KeyedEligible(es);
    EligibleRows(es);
    if |rows| != 0 {
      SortHead(rows);
      var w := Sort(rows)[0].item;
      var n := CandidateOfEntry(es, w);
      assert s.candidates[n] == CandidateOf(w);
      if i < |s.candidates| && s.candidates[i].eligible {
        var e := CandidateAt(es, i);
        assert Keyed(RankKey(e), e) in rows;
        CandidatesInOrder(es, i, n, e, w);
        RankKeyOrder(w, e);
      }
    } else if i < |s.candidates| {
      var e := CandidateAt(es, i);
      assert Keyed(RankKey(e), e) !in rows;
      assert Sort(rows) == [];
    }
  }

  /** A winner may run: it is enabled, its cooldown is over, every budget covers
      its cost, and its score is at most its return. */
  lemma WinnerMayRun(ctx: Context, t: Table, bids: map<string, Bid>, s: Selected)
    requires SelectWinner(Orchestrator, ctx, t, bids) == Ok(s) && s.winner.Some?
    ensures var w := s.winner.value;
      && w.id in t && !t[w.id].disabled
      && (w.id in ctx.cooldowns ==> ctx.cooldowns[w.id] <= ctx.tick)
      && 1 <= w.predictedCost <= ctx.budget.cpu
      && w.predictedCost <= ctx.budget.build && w.predictedCost <= ctx.budget.verifier
      && 0 <= w.score <= w.roi
  {
    WinnerIsBest(Orchestrator, ctx, t, bids, s);
    var id := s.winner.value.id;
    assert Best(Orchestrator, ctx, t, bids, id);
    RoiNonNegative(bids[id]);
    MulFraction(RecomputedRoi(bids[id]), Clamp(t[id].credibility, 0, ONE));
    MulFraction(Mul(RecomputedRoi(bids[id]), Clamp(t[id].credibility, 0, ONE)), Clamp(bids[id].confidence, 0, ONE));
  }

  /** Why a bidder cannot run now: disabled, cooling down, or too expensive. */
  predicate Blocked(ctx: Context, c: Campaign, bid: Bid, id: string) {
    || c.disabled
    || (if id in ctx.cooldowns then ctx.cooldowns[id] else 0) > ctx.tick
    || Max(1, bid.predictedCost) > Min(ctx.budget.cpu, Min(ctx.budget.build, ctx.budget.verifier))
  }

  /** Nobody wins exactly when every bidder is blocked. */
  lemma NobodyWinsIff(ctx: Context, t: Table, bids: map<string, Bid>, s: Selected)
    requires SelectWinner(Orchestrator, ctx, t, bids) == Ok(s)
    ensures s.winner.None? <==> forall id :: id in bids && id in t ==> Blocked(ctx, t[id], bids[id], id)
  {
    WinnerIsBest(Orchestrator, ctx, t, bids, s);
    forall id | id in bids && id in t
      ensures CanWin(Orchestrator, ctx, t, bids, id) <==> !Blocked(ctx, t[id], bids[id], id)
    {
    }
  }

  // ----- what a score is -----

  /** The numbers of an entry read off the bid and the campaign. The return is the
      promised change over the cost, the score is return times credibility times
      confidence, and both products are floored in this order: `x` is the first. */
  lemma EntryMeaning(copy: Copy, ctx: Context, id: string, b: Bid, c: Campaign, x: int)
    requires IsFloor(x, EntryOf(copy, ctx, id, b, c).roi * Clamp(c.credibility, 0, ONE), ONE)
    ensures var e := EntryOf(copy, ctx, id, b, c);
            var credibility, confidence := Clamp(c.credibility, 0, ONE), Clamp(b.confidence, 0, ONE);
      && e.id == id && e.credibility == credibility && e.confidence == confidence
      && e.predictedDelta == Max(0, b.predictedDelta) && e.predictedCost == Max(1, b.predictedCost)
      && e.horizon == b.horizon && e.evidence == b.evidence
      && IsFloor(e.roi, Max(0, b.predictedDelta) * ONE, Max(1, b.predictedCost))
      && (copy == Vendored ==> e.score == x)
      && (copy == Orchestrator ==>
            && IsFloor(e.score, x * confidence, ONE)
            && e.roi * credibility * confidence - 2 * ONE * ONE < e.score * ONE * ONE <= e.roi * credibility * confidence)
  {
    var e := EntryOf(copy, ctx, id, b, c);
    FloorIff(e.roi, Max(0, b.predictedDelta) * ONE, Max(1, b.predictedCost));
    MulIff(x, e.roi, e.credibility);
    if copy == Orchestrator {
      MulIff(e.score, x, e.confidence);
      hide EntryOf, IsFloor;
      TwoFloors(e.roi, e.credibility, e.confidence, x, e.score);
    }
  }

  /** Return times credibility times confidence, without any rounding of products. */
  function Merit(t: Table, bids: map<string, Bid>, id: string): int
    requires id in bids && id in t
  {
    ((Max(0, bids[id].predictedDelta) * ONE) / Max(1, bids[id].predictedCost))
      * Clamp(t[id].credibility, 0, ONE) * Clamp(bids[id].confidence, 0, ONE)
  }

  lemma ScoreIsMerit(ctx: Context, t: Table, bids: map<string, Bid>, id: string)
    requires id in bids && id in t
    ensures var e := E(Orchestrator, ctx, t, bids, id);
      Merit(t, bids, id) - 2 * ONE * ONE < e.score * ONE * ONE <= Merit(t, bids, id)
  {
    var e := E(Orchestrator, ctx, t, bids, id);
    var x := Mul(e.roi, e.credibility);
    MulIff(x, e.roi, e.credibility);
    EntryMeaning(Orchestrator, ctx, id, bids[id], t[id], x);
    hide EntryOf;
    FloorIff(e.roi, Max(0, bids[id].predictedDelta) * ONE, Max(1, bids[id].predictedCost));
  }

  /** A merit larger by two units in the last place always ranks ahead: neither
      rounding nor a tie-break can turn it round. */
  lemma LargerMeritWins(ctx: Context, t: Table, bids: map<string, Bid>, s: Selected, a: string, b: string)
    requires SelectWinner(Orchestrator, ctx, t, bids) == Ok(s)
    requires CanWin(Orchestrator, ctx, t, bids, a) && b in bids && b in t
    requires Merit(t, bids, a) >= Merit(t, bids, b) + 2 * ONE * ONE
    ensures Beats(E(Orchestrator, ctx, t, bids, a), E(Orchestrator, ctx, t, bids, b))
    ensures s.winner.Some? && s.winner.value.id != b
  {
    ScoreAhead(ctx, t, bids, a, b);
    hide Merit, SelectWinner, EntryOf, Best;
    WinnerIsBest(Orchestrator, ctx, t, bids, s);
    AtMostOneBeats(E(Orchestrator, ctx, t, bids, a), E(Orchestrator, ctx, t, bids, b));
    assert s.outcome == OK;
    BestBeats(ctx, t, bids, b, a);
  }

  lemma ScoreAhead(ctx: Context, t: Table, bids: map<string, Bid>, a: string, b: string)
    requires a in bids && a in t && b in bids && b in t
    requires Merit(t, bids, a) >= Merit(t, bids, b) + 2 * ONE * ONE
    ensures E(Orchestrator, ctx, t, bids, a).score > E(Orchestrator, ctx, t, bids, b).score
  {
    hide Merit, E;
    ScoreIsMerit(ctx, t, bids, a);
    ScoreIsMerit(ctx, t, bids, b);
  }

  lemma BestBeats(ctx: Context, t: Table, bids: map<string, Bid>, best: string, k: string)
    requires CanWin(Orchestrator, ctx, t, bids, k) && best != k && best in bids && best in t
    ensures Best(Orchestrator, ctx, t, bids, best) ==>
      Beats(E(Orchestrator, ctx, t, bids, best), E(Orchestrator, ctx, t, bids, k))
  {
  }

  lemma AtMostOneBeats(a: Entry, b: Entry)
    requires a.score > b.score
    ensures a != b && Beats(a, b) && !Beats(b, a)
  {
  }

  /** What a winner's payload says: its bid's promise, cost, confidence, horizon and
      evidence, made admissible, and its campaign's credibility. */
  lemma WinnerPayload(copy: Copy, ctx: Context, t: Table, bids: map<string, Bid>, s: Selected)
    requires SelectWinner(copy, ctx, t, bids) == Ok(s) && s.winner.Some?
    ensures s.tick == ctx.tick
    ensures var w := s.winner.value;
      && w.id in bids && w.id in t
      && w.predictedDelta == Max(0, bids[w.id].predictedDelta)
      && w.predictedCost == Max(1, bids[w.id].predictedCost)
      && w.confidence == Clamp(bids[w.id].confidence, 0, ONE)
      && w.credibility == Clamp(t[w.id].credibility, 0, ONE)
      && w.horizon == Max(1, bids[w.id].horizon) && w.evidence == bids[w.id].evidence
      && w.roi == E(copy, ctx, t, bids, w.id).roi && w.score == E(copy, ctx, t, bids, w.id).score
  {
    WinnerIsBest(copy, ctx, t, bids, s);
    hide SelectionReceipt, RecomputedRoi, Score, SkipReason;
    assert s == SelectionReceipt(ctx.tick, Entries(copy, ctx, t, bids, SortedSet(bids.Keys)));
    TickKept(ctx.tick, Entries(copy, ctx, t, bids, SortedSet(bids.Keys)));
  }

  lemma TickKept(tick: int, es: seq<Entry>)
    ensures SelectionReceipt(tick, es).tick == tick
  {
  }

  /** Why a row of the receipt is skipped: the first reason that applies. */
  predicate SkippedFor(copy: Copy, ctx: Context, c: Campaign, b: Bid, id: string, skip: Skip) {
    var off := copy == Orchestrator && c.disabled;
    var cooling := (id in ctx.cooldowns && ctx.tick < ctx.cooldowns[id]) || (id !in ctx.cooldowns && ctx.tick < 0);
    var dear := ctx.budget.cpu < Max(1, b.predictedCost) || ctx.budget.build < Max(1, b.predictedCost)
                || ctx.budget.verifier < Max(1, b.predictedCost);
    && (skip == Disabled <==> off)
    && (skip == Cooldown <==> !off && cooling)
    && (skip == OverBudget <==> !off && !cooling && dear)
    && (skip == Eligible <==> !off && !cooling && !dear)
  }

  /** What a row of the receipt says. */
  lemma CandidateMeaning(copy: Copy, ctx: Context, t: Table, bids: map<string, Bid>, s: Selected, c: Candidate)
    requires SelectWinner(copy, ctx, t, bids) == Ok(s) && c in s.candidates
    ensures c.id in bids && c.id in t
    ensures SkippedFor(copy, ctx, t[c.id], bids[c.id], c.id, c.skip) && (c.eligible <==> c.skip == Eligible)
    ensures c.roi == E(copy, ctx, t, bids, c.id).roi && c.score == E(copy, ctx, t, bids, c.id).score
  {
    CandidateIsEntry(copy, ctx, t, bids, s, c);
    hide SelectionReceipt, RecomputedRoi, Score;
  }

  // ----- raising the winner's bid -----

  lemma RaiseKeepsRank(a: Entry, b: Entry, c: Entry)
    requires Beats(a, c)
    requires b.id == a.id && b.score >= a.score && b.roi >= a.roi
    requires b.credibility >= a.credibility && b.confidence >= a.confidence
    ensures Beats(b, c)
  {
  }

  lemma ScoreMonotone(copy: Copy, a: Bid, b: Bid, low: int, high: int)
    requires a.predictedDelta <= b.predictedDelta && a.predictedCost == b.predictedCost && a.confidence <= b.confidence
    requires low <= high
    ensures 0 <= RecomputedRoi(a) <= RecomputedRoi(b)
    ensures Score(copy, RecomputedRoi(a), Clamp(low, 0, ONE), Clamp(a.confidence, 0, ONE))
         <= Score(copy, RecomputedRoi(b), Clamp(high, 0, ONE), Clamp(b.confidence, 0, ONE))
  {
    var d, c := Max(0, a.predictedDelta), Max(1, a.predictedCost);
    FloorIsGreatest(Max(0, b.predictedDelta) * ONE, c, RecomputedRoi(a));
    FloorIsGreatest(d * ONE, c, RecomputedRoi(a));
    FloorIsGreatest(d * ONE, c, 0);
    MulMonotone(RecomputedRoi(a), Clamp(low, 0, ONE), RecomputedRoi(b), Clamp(high, 0, ONE));
    MulMonotone(Mul(RecomputedRoi(a), Clamp(low, 0, ONE)), Clamp(a.confidence, 0, ONE),
                Mul(RecomputedRoi(b), Clamp(high, 0, ONE)), Clamp(b.confidence, 0, ONE));
  }

  lemma RaisedEntry(copy: Copy, ctx: Context, id: string, a: Bid, b: Bid, c: Campaign, d: Campaign, rival: Entry)
    requires a.predictedDelta <= b.predictedDelta && a.predictedCost == b.predictedCost && a.confidence <= b.confidence
    requires c.credibility <= d.credibility && c.disabled == d.disabled
    ensures EntryOf(copy, ctx, id, b, d).skip == EntryOf(copy, ctx, id, a, c).skip
    ensures Beats(EntryOf(copy, ctx, id, a, c), rival) ==> Beats(EntryOf(copy, ctx, id, b, d), rival)
  {
    ScoreMonotone(copy, a, b, c.credibility, d.credibility);
    if Beats(EntryOf(copy, ctx, id, a, c), rival) {
      RaiseKeepsRank(EntryOf(copy, ctx, id, a, c), EntryOf(copy, ctx, id, b, d), rival);
    }
  }

  /** A winner that promises more, is surer of it, or is more credible still wins. */
  lemma WinnerMonotone(copy: Copy, ctx: Context, t: Table, bids: map<string, Bid>, id: string,
                       delta: int, confidence: int, credibility: int)
    requires SelectWinner(copy, ctx, t, bids).Ok? && id in bids && id in t
    requires SelectWinner(copy, ctx, t, bids).value.winner.Some?
    requires SelectWinner(copy, ctx, t, bids).value.winner.value.id == id
    requires bids[id].predictedDelta <= delta && bids[id].confidence <= confidence && t[id].credibility <= credibility
    ensures var r := SelectWinner(copy, ctx, t[id := t[id].(credibility := credibility)],
                       bids[id := bids[id].(predictedDelta := delta, confidence := confidence)]);
            r.Ok? && r.value.winner.Some? && r.value.winner.value.id == id
  {
    var t', bids' := t[id := t[id].(credibility := credibility)],
                     bids[id := bids[id].(predictedDelta := delta, confidence := confidence)];
    assert bids'.Keys == bids.Keys && t'.Keys == t.Keys;
    var r := SelectWinner(copy, ctx, t', bids');
    WinnerIsBest(copy, ctx, t, bids, SelectWinner(copy, ctx, t, bids).value);
    WinnerIsBest(copy, ctx, t', bids', r.value);
    assert Best(copy, ctx, t, bids, id);
    RaisedEntry(copy, ctx, id, bids[id], bids'[id], t[id], t'[id], E(copy, ctx, t, bids, id));
    forall k | k != id && CanWin(copy, ctx, t', bids', k)
      ensures Beats(E(copy, ctx, t', bids', id), E(copy, ctx, t', bids', k))
    {
      assert CanWin(copy, ctx, t, bids, k);
      RaisedEntry(copy, ctx, id, bids[id], bids'[id], t[id], t'[id], E(copy, ctx, t, bids, k));
    }
    assert Best(copy, ctx, t', bids', id);
  }

  // ----- the two copies of the selection -----

  /** The bid is of an enabled campaign and the confidence factor is idle. */
  predicate CopiesCoincide(b: Bid, c: Campaign) {
    !c.disabled && (b.confidence >= ONE || Mul(RecomputedRoi(b), Clamp(c.credibility, 0, ONE)) == 0)
  }

  lemma ScoresCoincide(roi: int, credibility: int, confidence: int)
    requires 0 <= roi && 0 <= credibility <= ONE && 0 <= confidence <= ONE
    ensures Score(Orchestrator, roi, credibility, confidence) == Score(Vendored, roi, credibility, confidence)
       <==> confidence == ONE || Mul(roi, credibility) == 0
  {
    MulFraction(roi, credibility);
    MulFraction(Mul(roi, credibility), confidence);
  }

  lemma RoiNonNegative(b: Bid)
    ensures 0 <= RecomputedRoi(b)
  {
    FloorIsGreatest(Max(0, b.predictedDelta) * ONE, Max(1, b.predictedCost), 0);
  }

  lemma EntriesCoincide(ctx: Context, t: Table, bids: map<string, Bid>, id: string)
    requires id in bids && id in t
    ensures CandidateOf(E(Orchestrator, ctx, t, bids, id)) == CandidateOf(E(Vendored, ctx, t, bids, id))
       <==> CopiesCoincide(bids[id], t[id])
    ensures CopiesCoincide(bids[id], t[id]) ==>
            E(Orchestrator, ctx, t, bids, id) == E(Vendored, ctx, t, bids, id)
  {
    RoiNonNegative(bids[id]);
    ScoresCoincide(RecomputedRoi(bids[id]), Clamp(t[id].credibility, 0, ONE), Clamp(bids[id].confidence, 0, ONE));
  }

  /** The row of a bid in a receipt is the row of its entry. */
  lemma CandidateIsEntry(copy: Copy, ctx: Context, t: Table, bids: map<string, Bid>, s: Selected, c: Candidate)
    requires SelectWinner(copy, ctx, t, bids) == Ok(s)
    requires c in s.candidates
    ensures c.id in bids && c == CandidateOf(E(copy, ctx, t, bids, c.id))
  {
    var es := Entries(copy, ctx, t, bids, SortedSet(bids.Keys));
    var i :| 0 <= i < |s.candidates| && s.candidates[i] == c;
    var e := CandidateAt(es, i);
    EntryMembers(copy, ctx, t, bids);
  }

  /** The copies return the same receipt exactly when every bidding campaign is
      enabled and every bid has full confidence or a zero product of return and
      credibility. (When a bidder is unknown, both fail.) */
  lemma CopiesAgreeIff(ctx: Context, t: Table, bids: map<string, Bid>)
    ensures SelectWinner(Orchestrator, ctx, t, bids) == SelectWinner(Vendored, ctx, t, bids)
       <==> (bids.Keys <= t.Keys ==> forall id :: id in bids ==> CopiesCoincide(bids[id], t[id]))
  {
    hide EntryOf, CopiesCoincide;
    if bids.Keys <= t.Keys {
      var ids := SortedSet(bids.Keys);
      var o, v := SelectWinner(Orchestrator, ctx, t, bids).value, SelectWinner(Vendored, ctx, t, bids).value;
      forall id | id in bids
        ensures CopiesCoincide(bids[id], t[id]) ==> E(Orchestrator, ctx, t, bids, id) == E(Vendored, ctx, t, bids, id)
        ensures o == v ==> CopiesCoincide(bids[id], t[id])
      {
        EntriesCoincide(ctx, t, bids, id);
        if o == v {
          var e := E(Orchestrator, ctx, t, bids, id);
          EntryMembers(Orchestrator, ctx, t, bids);
          CandidatesAreRanked(ctx.tick, Entries(Orchestrator, ctx, t, bids, ids));
          CandidateIsEntry(Vendored, ctx, t, bids, v, CandidateOf(e));
        }
      }
      if forall id :: id in bids ==> CopiesCoincide(bids[id], t[id]) {
        assert forall i :: 0 <= i < |ids| ==>
          E(Orchestrator, ctx, t, bids, ids[i]) == E(Vendored, ctx, t, bids, ids[i]);
        assert Entries(Orchestrator, ctx, t, bids, ids) == Entries(Vendored, ctx, t, bids, ids);
      }
    }
  }

  const TWO_CAMPAIGNS: Table := map["a" := Campaign("a", ONE, ONE, 0, false, NOT_DISABLED),
                                    "b" := Campaign("b", ONE, ONE, 0, false, NOT_DISABLED)]

  const TWO_BIDS: map<string, Bid> := map["a" := BuildBid(2 * ONE, ONE / 4, 1, ONE, ""),
                                          "b" := BuildBid(ONE, ONE, 1, ONE, "")]

  lemma BestOfTwo(copy: Copy, ctx: Context, t: Table, bids: map<string, Bid>, x: string, y: string)
    requires bids.Keys == t.Keys == {x, y} && x != y
    requires CanWin(copy, ctx, t, bids, x)
    requires E(copy, ctx, t, bids, x).score > E(copy, ctx, t, bids, y).score
    ensures SelectWinner(copy, ctx, t, bids).Ok?
    ensures SelectWinner(copy, ctx, t, bids).value.winner.Some?
    ensures SelectWinner(copy, ctx, t, bids).value.winner.value.id == x
  {
    hide EntryOf;
    WinnerIsBest(copy, ctx, t, bids, SelectWinner(copy, ctx, t, bids).value);
    assert Best(copy, ctx, t, bids, x);
  }

  /** Two well-formed bids on which the copies choose different winners. */
  lemma CopiesCanDisagree(ctx: Context)
    requires HasBudget(ctx.budget, ONE) && ctx.cooldowns == map[] && 0 <= ctx.tick
    ensures var o, v := SelectWinner(Orchestrator, ctx, TWO_CAMPAIGNS, TWO_BIDS), SelectWinner(Vendored, ctx, TWO_CAMPAIGNS, TWO_BIDS);
            && o.Ok? && o.value.winner.Some? && o.value.winner.value.id == "b"
            && v.Ok? && v.value.winner.Some? && v.value.winner.value.id == "a"
  {
    assert TWO_BIDS["a"] == Bid(2 * ONE, ONE, ONE / 4, 1, "") && TWO_BIDS["b"] == Bid(ONE, ONE, ONE, 1, "");
    assert RecomputedRoi(TWO_BIDS["a"]) == 2 * ONE && RecomputedRoi(TWO_BIDS["b"]) == ONE;
    BestOfTwo(Orchestrator, ctx, TWO_CAMPAIGNS, TWO_BIDS, "b", "a");
    BestOfTwo(Vendored, ctx, TWO_CAMPAIGNS, TWO_BIDS, "a", "b");
  }

  // ----- the declared and the recomputed return -----

  /** Dividing `r * c - m` by `c`: `r` less the rounded-up quotient of `m`. */
  lemma ShortQuotient(n: int, r: int, c: int, m: int)
    requires c >= 1 && 0 <= m && n == r * c - m
    ensures n / c == r - (m + c - 1) / c
  {
    var short := (m + c - 1) / c;
    FloorIsGreatest(m + c - 1, c, short);
    FloorIsGreatest(m + c - 1, c, short + 1);
    FloorIsGreatest(n, c, r - short);
    FloorIsGreatest(n, c, r - short + 1);
    assert (r - short) * c == r * c - short * c;
    assert (r - short + 1) * c == r * c - short * c + c;
    assert (short + 1) * c == short * c + c;
  }

  lemma RoundedUp(m: int, c: int)
    requires c >= 1 && 0 <= m < ONE
    ensures 0 <= (m + c - 1) / c
    ensures (m + c - 1) / c == 0 <==> m == 0
    ensures c >= ONE ==> (m + c - 1) / c <= 1
  {
    FloorIsGreatest(m + c - 1, c, 0);
    FloorIsGreatest(m + c - 1, c, 1);
    FloorIsGreatest(m + c - 1, c, 2);
  }

  /** The return recomputed from a built bid falls short of the declared one by
      the rounding of the product, divided by the cost and rounded up. */
  lemma RoiRoundTrip(roi: int, confidence: int, horizon: int, predictedCost: int, evidence: string)
    ensures var r, c := Max(0, roi), Max(1, predictedCost);
            var back := RecomputedRoi(BuildBid(roi, confidence, horizon, predictedCost, evidence));
            var b := BuildBid(roi, confidence, horizon, predictedCost, evidence);
            && IsFloor(b.predictedDelta, r * c, ONE) && b.predictedCost == c
            && b.confidence == Clamp(confidence, 0, ONE) && b.horizon == Max(1, horizon) && b.evidence == evidence
            && back == r - ((r * c) % ONE + c - 1) / c
            && back <= r
            && (c >= ONE ==> r - 1 <= back)
            && (back == r <==> (r * c) % ONE == 0)
  {
    var r, c := Max(0, roi), Max(1, predictedCost);
    var m := (r * c) % ONE;
    assert 0 <= r * c;
    assert Max(0, Mul(r, c)) * ONE == r * c - m;
    ShortQuotient(Max(0, Mul(r, c)) * ONE, r, c, m);
    RoundedUp(m, c);
  }
}
