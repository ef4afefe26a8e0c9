/** One settlement of the bid market: last tick's winner is paid or charged by
    how well its bid predicted the realised change, then the bankruptcy rule
    runs on every campaign. */
module Settlement {
  import opened Results
  import opened Q32
  import opened Ordering
  import opened Text

  // ----- configuration -----

  /** The settlement keys of the market configuration; None is an absent key. */
  datatype Config = Config(
    initialBankroll: Option<int>, initialCredibility: Option<int>,
    learningRate: Option<int>, minCredibility: Option<int>, errorCap: Option<int>,
    penaltyRate: Option<int>, rewardRate: Option<int>,
    disableThreshold: Option<int>, disableAfter: Option<int>)

  datatype Params = Params(
    initialBankroll: int, initialCredibility: int,
    learningRate: int, minCredibility: int, errorCap: int,
    penaltyRate: int, rewardRate: int,
    disableThreshold: int, disableAfter: int)
  {
    predicate Valid() {
      && 0 <= initialBankroll
      && 0 <= initialCredibility <= ONE
      && 0 <= learningRate <= ONE
      && 0 <= minCredibility <= ONE
      && 1 <= errorCap
      && 0 <= penaltyRate <= ONE
      && 0 <= rewardRate <= ONE
      && 0 <= disableThreshold
      && 1 <= disableAfter
    }
  }

  function Value(raw: Option<int>, default: int): int {
    if raw.Some? then raw.value else default
  }

  /** Defaults, then clamping: whatever the file says, the result is valid. */
  function ResolveSettlementParams(cfg: Config): (p: Params)
    ensures p.Valid()
  {
    Params(
      Max(0, Value(cfg.initialBankroll, ONE)),
      Min(ONE, Max(0, Value(cfg.initialCredibility, ONE / 2))),
      Min(ONE, Max(0, Value(cfg.learningRate, ONE / 2))),
      Min(ONE, Max(0, Value(cfg.minCredibility, 0))),
      Max(1, Value(cfg.errorCap, ONE)),
      Min(ONE, Max(0, Value(cfg.penaltyRate, ONE / 2))),
      Min(ONE, Max(0, Value(cfg.rewardRate, ONE / 20))),
      Max(0, Value(cfg.disableThreshold, ONE / 4)),
      Max(1, Value(cfg.disableAfter, 3)))
  }

  /** Parameters as a configuration that sets every key. */
  function AsConfig(p: Params): Config {
    Config(Some(p.initialBankroll), Some(p.initialCredibility), Some(p.learningRate), Some(p.minCredibility), Some(p.errorCap),
           Some(p.penaltyRate), Some(p.rewardRate), Some(p.disableThreshold), Some(p.disableAfter))
  }

  /** `q` is the configured or default value if that is in range, else the bound it
      is beyond; None is no upper bound. */
  predicate Resolved(q: int, raw: Option<int>, default: int, lo: int, hi: Option<int>) {
    var v := if raw.Some? then raw.value else default;
    && (v < lo ==> q == lo)
    && (hi.Some? && hi.value < v ==> q == hi.value)
    && (lo <= v && (hi.Some? ==> v <= hi.value) ==> q == v)
  }

  /** Every parameter with its default and its range. */
  lemma ResolveMeaning(cfg: Config)
    ensures var p := ResolveSettlementParams(cfg);
      && Resolved(p.initialBankroll, cfg.initialBankroll, 4294967296, 0, None)
      && Resolved(p.initialCredibility, cfg.initialCredibility, 2147483648, 0, Some(4294967296))
      && Resolved(p.learningRate, cfg.learningRate, 2147483648, 0, Some(4294967296))
      && Resolved(p.minCredibility, cfg.minCredibility, 0, 0, Some(4294967296))
      && Resolved(p.errorCap, cfg.errorCap, 4294967296, 1, None)
      && Resolved(p.penaltyRate, cfg.penaltyRate, 2147483648, 0, Some(4294967296))
      && Resolved(p.rewardRate, cfg.rewardRate, 214748364, 0, Some(4294967296))
      && Resolved(p.disableThreshold, cfg.disableThreshold, 1073741824, 0, None)
      && Resolved(p.disableAfter, cfg.disableAfter, 3, 1, None)
  {
    hide Resolved, Max, Min, Value;
    FromBelow(cfg.initialBankroll, ONE, 0);
    InUnit(cfg.initialCredibility, ONE / 2);
    InUnit(cfg.learningRate, ONE / 2);
    InUnit(cfg.minCredibility, 0);
    FromBelow(cfg.errorCap, ONE, 1);
    InUnit(cfg.penaltyRate, ONE / 2);
    InUnit(cfg.rewardRate, ONE / 20);
    FromBelow(cfg.disableThreshold, ONE / 4, 0);
    FromBelow(cfg.disableAfter, 3, 1);
  }

  /** Resolving twice changes nothing more. */
  lemma ResolveTwice(cfg: Config)
    ensures ResolveSettlementParams(AsConfig(ResolveSettlementParams(cfg))) == ResolveSettlementParams(cfg)
  {
    var p := ResolveSettlementParams(cfg);
    assert p.Valid();
  }

  lemma FromBelow(raw: Option<int>, default: int, lo: int)
    ensures Resolved(Max(lo, Value(raw, default)), raw, default, lo, None)
  {
  }

  lemma InUnit(raw: Option<int>, default: int)
    ensures Resolved(Min(ONE, Max(0, Value(raw, default))), raw, default, 0, Some(ONE))
  {
  }

  // ----- the campaign table -----

  datatype Campaign = Campaign(
    id: string, bankroll: int, credibility: int, streak: int, disabled: bool, reason: string)

  type Table = map<string, Campaign>

  const NOT_DISABLED := "N/A"
  const BELOW_THRESHOLD := "BANKROLL_BELOW_THRESHOLD"

  /** Keys are the stripped ids of the rows they hold. */
  ghost predicate WellKeyed(t: Table) {
    forall k :: k in t ==> k != "" && Strip(t[k].id) == k
  }

  /** The rows of a state as a table: the last row of an id counts, an id that
      is blank is refused. */
  function TableOf(rows: seq<Campaign>): (r: Result<Table>)
    ensures r.Ok? ==> WellKeyed(r.value)
  {
    if |rows| == 0 then Ok(map[]) else
    var t :- TableOf(rows[..|rows| - 1]);
    var row := rows[|rows| - 1];
    if Strip(row.id) == "" then Fail("SCHEMA_FAIL") else Ok(t[Strip(row.id) := row])
  }

  method MarketStateMap(rows: seq<Campaign>) returns (r: Result<Table>)
    ensures r == TableOf(rows)
  {
    var out: Table := map[];
    for i := 0 to |rows|
      invariant TableOf(rows[..i]) == Ok(out)
    {
      var cid := Strip(rows[i].id);
      assert rows[..i + 1][..i] == rows[..i];
      if cid == "" {
        BadPrefix(rows, i + 1);
        return Fail("SCHEMA_FAIL");
      }
      out := out[cid := rows[i]];
    }
    assert rows[..|rows|] == rows;
    r := Ok(out);
  }

  /** Row `i` is the last one of key `k`. */
  ghost predicate LastOf(rows: seq<Campaign>, k: string, i: nat) {
    && i < |rows| && Strip(rows[i].id) == k
    && forall j :: i < j < |rows| ==> Strip(rows[j].id) != k
  }

  /** What a table holds: a table there is exactly when no id is blank, and key `k`
      holds exactly the last row whose stripped id is `k`. */
  lemma {:induction false} TableOfMeaning(rows: seq<Campaign>, k: string)
    ensures TableOf(rows).Ok? <==> forall i :: 0 <= i < |rows| ==> Strip(rows[i].id) != ""
    ensures TableOf(rows).Ok? ==> (k in TableOf(rows).value <==> exists i: nat :: LastOf(rows, k, i))
    ensures TableOf(rows).Ok? ==> forall i: nat :: LastOf(rows, k, i) ==> TableOf(rows).value[k] == rows[i]
  {
    hide Strip;
    if |rows| != 0 {
      var n := |rows| - 1;
      TableOfMeaning(rows[..n], k);
      if Strip(rows[n].id) == k {
        assert LastOf(rows, k, n);
      } else {
        forall i: nat ensures LastOf(rows, k, i) <==> LastOf(rows[..n], k, i) {
        }
      }
    }
  }

  lemma {:induction false} BadPrefix(rows: seq<Campaign>, n: nat)
    requires n <= |rows| && TableOf(rows[..n]) == Fail("SCHEMA_FAIL")
    ensures TableOf(rows) == Fail("SCHEMA_FAIL")
    decreases |rows|
  {
    if n == |rows| {
      assert rows[..n] == rows;
    } else {
      assert rows[..|rows| - 1][..n] == rows[..n];
      BadPrefix(rows[..|rows| - 1], n);
    }
  }

  /** The rows of a table, ascending by key. */
  function RowsOf(t: Table): seq<Campaign> {
    Values(t, SortedSet(t.Keys))
  }

  lemma {:induction false} TableOfSomeRows(t: Table, ids: seq<string>)
    requires WellKeyed(t)
    requires forall i :: 0 <= i < |ids| ==> ids[i] in t
    ensures TableOf(Values(t, ids)) == Ok(map k | k in t && k in ids :: t[k])
  {
    if |ids| == 0 {
      assert Values(t, ids) == [];
    } else {
      var n := |ids| - 1;
      TableOfSomeRows(t, ids[..n]);
      assert Values(t, ids)[..n] == Values(t, ids[..n]);
      forall k ensures k in ids <==> k in ids[..n] || k == ids[n] {
        assert ids == ids[..n] + [ids[n]];
      }
      assert (map k | k in t && k in ids :: t[k]) == (map k | k in t && k in ids[..n] :: t[k])[ids[n] := t[ids[n]]];
    }
  }

  /** Writing a table out and reading it back gives the same table. */
  lemma TableRoundTrip(t: Table)
    requires WellKeyed(t)
    ensures TableOf(RowsOf(t)) == Ok(t)
  {
    var ids := SortedSet(t.Keys);
    TableOfSomeRows(t, ids);
    SortedSetMembers(t.Keys);
    assert (map k | k in t && k in ids :: t[k]) == t;
  }

  /** The distinct non-blank ids of the capability registry. */
  function RegistryIds(registry: seq<string>): set<string> {
    set r | r in registry && Strip(r) != "" :: Strip(r)
  }

  lemma RegistryMeaning(registry: seq<string>, id: string)
    ensures id in RegistryIds(registry) <==> id != "" && exists i :: 0 <= i < |registry| && Strip(registry[i]) == id
  {
  }

  function NewCampaign(p: Params, id: string): Campaign {
    Campaign(id, p.initialBankroll, p.initialCredibility, 0, false, NOT_DISABLED)
  }

  function BootstrapTable(p: Params, registry: seq<string>): (t: Table)
    ensures WellKeyed(t)
    ensures t.Keys == RegistryIds(registry)
    ensures forall id :: id in t ==>
      && t[id].id == id && t[id].bankroll == p.initialBankroll && t[id].credibility == p.initialCredibility
      && t[id].streak == 0 && !t[id].disabled && t[id].reason == "N/A"
  {
    assert forall id :: id in RegistryIds(registry) ==> Strip(id) == id by {
      forall r | r in registry ensures Strip(Strip(r)) == Strip(r) { StripStripped(r); }
    }
    map id | id in RegistryIds(registry) :: NewCampaign(p, id)
  }

  // ----- one campaign -----

  /** What the winner bid and what then happened. */
  datatype Event = Event(predicted: int, confidence: int, realized: int, effect: string)

  const HEAVY_NO_UTILITY := "EFFECT_HEAVY_NO_UTILITY"
  const REJECTED := "EFFECT_REJECTED"

  predicate Punished(effect: string) {
    Strip(effect) == HEAVY_NO_UTILITY || Strip(effect) == REJECTED
  }

  function AbsError(e: Event): (r: nat) {
    var d := e.realized - Max(0, e.predicted);
    if d < 0 then -d else d
  }

  function ErrorNorm(p: Params, e: Event): int {
    Min(ONE, (AbsError(e) * ONE) / Max(1, p.errorCap))
  }

  function Accuracy(p: Params, e: Event): int {
    ONE - ErrorNorm(p, e)
  }

  function PenaltyFraction(p: Params, e: Event): int {
    var base := Mul(Mul(p.penaltyRate, Clamp(e.confidence, 0, ONE)), ErrorNorm(p, e));
    if Strip(e.effect) == HEAVY_NO_UTILITY then Min(ONE, base + ONE / 100)
    else if Strip(e.effect) == REJECTED then Min(ONE, base + ONE / 200)
    else base
  }

  function RewardFraction(p: Params, e: Event): int {
    if Punished(e.effect) then 0
    else Mul(Mul(p.rewardRate, Clamp(e.confidence, 0, ONE)), Accuracy(p, e))
  }

  /** The bankroll factor before its clamp at zero. */
  function RawFactor(p: Params, e: Event): int {
    ONE - PenaltyFraction(p, e) + RewardFraction(p, e)
  }

  function NewBankroll(p: Params, bankroll: int, e: Event): int {
    Max(0, Mul(Max(0, bankroll), Max(0, RawFactor(p, e))))
  }

  /** The credibility update before its clamp. */
  function RawCredibility(p: Params, prior: int, e: Event): int {
    prior + Mul(p.learningRate, Accuracy(p, e) - prior)
  }

  function NewCredibility(p: Params, credibility: int, e: Event): int {
    var prior := Clamp(credibility, 0, ONE);
    var next := Clamp(RawCredibility(p, prior, e), p.minCredibility, ONE);
    if Punished(e.effect) && next > prior then prior else next
  }

  function SettleWinner(p: Params, c: Campaign, e: Event): Campaign {
    c.(bankroll := NewBankroll(p, c.bankroll, e), credibility := NewCredibility(p, c.credibility, e))
  }

  /** Streak, flag and reason after one look at the bankroll. */
  function ApplyBankruptcyRules(c: Campaign, bankroll: int, threshold: int, after: int): (int, bool, string, int) {
    if c.disabled then (Max(0, c.streak), true, if c.reason == "" then NOT_DISABLED else c.reason, bankroll) else
    var streak := if bankroll < threshold then Max(0, c.streak) + 1 else 0;
    if streak >= after then (streak, true, BELOW_THRESHOLD, bankroll) else (streak, false, NOT_DISABLED, bankroll)
  }

  function Review(p: Params, c: Campaign): Campaign {
    var (streak, disabled, reason, bankroll) :=
      ApplyBankruptcyRules(c, Max(0, c.bankroll), p.disableThreshold, p.disableAfter);
    c.(streak := streak, disabled := disabled, reason := if reason == "" then NOT_DISABLED else reason, bankroll := bankroll)
  }

  /** The whole life of one campaign during one settlement. */
  function Step(p: Params, c: Campaign, e: Option<Event>): Campaign {
    Review(p, if e.Some? then SettleWinner(p, c, e.value) else c)
  }

  // ----- the whole table -----

  /** The settled winner, when there is one. */
  datatype Due = Due(winner: string, event: Event)

  function EventFor(due: Option<Due>, k: string): Option<Event> {
    if due.Some? && due.value.winner == k then Some(due.value.event) else None
  }

  function StepAll(p: Params, t: Table, due: Option<Due>): (r: Table)
    ensures r.Keys == t.Keys
  {
    map k | k in t :: Step(p, t[k], EventFor(due, k))
  }

  /** The ones of `ids` that are enabled before and disabled after, in order. */
  function NewlyAmong(before: Table, after: Table, ids: seq<string>): seq<string>
    requires forall i :: 0 <= i < |ids| ==> ids[i] in before && ids[i] in after
  {
    if |ids| == 0 then [] else
    var k := ids[|ids| - 1];
    NewlyAmong(before, after, ids[..|ids| - 1]) + if !before[k].disabled && after[k].disabled then [k] else []
  }

  function NewlyDisabled(before: Table, after: Table): seq<string>
    requires before.Keys == after.Keys
  {
    NewlyAmong(before, after, SortedSet(before.Keys))
  }

  lemma {:induction false} NewlyAmongMembers(before: Table, after: Table, ids: seq<string>)
    requires forall i :: 0 <= i < |ids| ==> ids[i] in before && ids[i] in after
    ensures forall k :: k in NewlyAmong(before, after, ids) <==>
      k in ids && k in before && k in after && !before[k].disabled && after[k].disabled
  {
    if |ids| != 0 {
      var n := |ids| - 1;
      NewlyAmongMembers(before, after, ids[..n]);
      assert ids == ids[..n] + [ids[n]];
    }
  }

  lemma {:induction false} NewlyAmongAscending(before: Table, after: Table, ids: seq<string>)
    requires forall i :: 0 <= i < |ids| ==> ids[i] in before && ids[i] in after
    requires Ascending(ids)
    ensures Ascending(NewlyAmong(before, after, ids))
  {
    if |ids| != 0 {
      var n := |ids| - 1;
      assert Ascending(ids[..n]);
      hide Ascending;
      NewlyAmongAscending(before, after, ids[..n]);
      NewlyAmongMembers(before, after, ids[..n]);
      AscendingAppend(ids, n, NewlyAmong(before, after, ids[..n]));
    }
  }

  /** The last id can follow any ascending selection of the ids before it. */
  lemma AscendingAppend(ids: seq<string>, n: nat, s: seq<string>)
    requires Ascending(ids) && n < |ids|
    requires Ascending(s) && forall k :: k in s ==> k in ids[..n]
    ensures Ascending(s + [ids[n]])
  {
    hide StringLeq;
    forall j | 0 <= j < |s| ensures s[j] != ids[n] && StringLeq(s[j], ids[n]) {
      assert s[j] in ids[..n];
    }
  }

  ghost predicate Distinct(s: seq<string>) {
    forall i, j :: 0 <= i < j < |s| ==> s[i] != s[j]
  }

  /** The list of a settlement: exactly the campaigns it disables, each once, in
      ascending order. */
  lemma NewlyDisabledMembers(before: Table, after: Table)
    requires before.Keys == after.Keys
    ensures forall k :: k in NewlyDisabled(before, after) <==> k in before && !before[k].disabled && after[k].disabled
    ensures Ascending(NewlyDisabled(before, after)) && Distinct(NewlyDisabled(before, after))
  {
    SortedSetAscending(before.Keys);
    SortedSetMembers(before.Keys);
    NewlyAmongMembers(before, after, SortedSet(before.Keys));
    NewlyAmongAscending(before, after, SortedSet(before.Keys));
  }

  datatype Receipt = Receipt(
    winner: Option<string>,
    bankrollBefore: int, bankrollAfter: int, credibilityBefore: int, credibilityAfter: int,
    disabledIds: seq<string>)

  function SettlementReceipt(p: Params, t: Table, due: Option<Due>, winner: Option<string>): Receipt
    requires due.Some? ==> due.value.winner in t
  {
    var ids := NewlyDisabled(t, StepAll(p, t, due));
    if due.None? then Receipt(winner, 0, 0, 0, 0, ids) else
    var c := t[due.value.winner];
    Receipt(winner, Max(0, c.bankroll), NewBankroll(p, c.bankroll, due.value.event),
            Clamp(c.credibility, 0, ONE), NewCredibility(p, c.credibility, due.value.event), ids)
  }

  /** What `settle_and_advance_market_state` computes once its inputs are read. */
  function Settled(p: Params, t: Table, due: Option<Due>, winner: Option<string>): Result<(Receipt, seq<Campaign>)> {
    if due.Some? && due.value.winner !in t then Fail("SCHEMA_FAIL")
    else Ok((SettlementReceipt(p, t, due, winner), RowsOf(StepAll(p, t, due))))
  }

  lemma StepAllWellKeyed(p: Params, t: Table, due: Option<Due>)
    requires WellKeyed(t)
    ensures WellKeyed(StepAll(p, t, due))
  {
  }

  /** The table once the winner's row is overwritten. */
  function Paid(p: Params, t: Table, due: Option<Due>): Table
    requires due.Some? ==> due.value.winner in t
  {
    if due.None? then t else t[due.value.winner := SettleWinner(p, t[due.value.winner], due.value.event)]
  }

  function Reviewed(p: Params, t: Table): (r: Table)
    ensures r.Keys == t.Keys
  {
    map k | k in t :: Review(p, t[k])
  }

  lemma OneMoreRow(before: Table, after: Table, ids: seq<string>, i: nat)
    requires i < |ids| && forall j :: 0 <= j < |ids| ==> ids[j] in before && ids[j] in after
    ensures Values(after, ids[..i + 1]) == Values(after, ids[..i]) + [after[ids[i]]]
    ensures NewlyAmong(before, after, ids[..i + 1])
         == NewlyAmong(before, after, ids[..i]) + if !before[ids[i]].disabled && after[ids[i]].disabled then [ids[i]] else []
  {
    assert ids[..i + 1][..i] == ids[..i];
  }

  /** The loop of the settlement: every row is reviewed in key order. */
  method ReviewAll(p: Params, cmap: Table) returns (next: seq<Campaign>, newly: seq<string>)
    ensures next == RowsOf(Reviewed(p, cmap))
    ensures newly == NewlyDisabled(cmap, Reviewed(p, cmap))
  {
    hide Review;
    var ids := SortedSet(cmap.Keys);
    ghost var after := Reviewed(p, cmap);
    next, newly := [], [];
    for i := 0 to |ids|
      invariant next == Values(after, ids[..i])
      invariant newly == NewlyAmong(cmap, after, ids[..i])
    {
      var row := Review(p, cmap[ids[i]]);
      OneMoreRow(cmap, after, ids, i);
      if !cmap[ids[i]].disabled && row.disabled {
        newly := newly + [ids[i]];
      }
      next := next + [row];
    }
    assert ids[..|ids|] == ids;
  }

  /** The settlement itself: the winner is paid, then every row is reviewed. */
  method SettleTable(p: Params, t: Table, due: Option<Due>, winner: Option<string>)
      returns (r: Result<(Receipt, seq<Campaign>)>)
    ensures r == Settled(p, t, due, winner)
  {
    var cmap := t;
    var bankrollBefore, bankrollAfter, credibilityBefore, credibilityAfter := 0, 0, 0, 0;
    if due.Some? {
      var Due(w, e) := due.value;
      if w !in cmap {
        return Fail("SCHEMA_FAIL");
      }
      var c := cmap[w];
      bankrollBefore := Max(0, c.bankroll);
      credibilityBefore := Clamp(c.credibility, 0, ONE);
      bankrollAfter := NewBankroll(p, c.bankroll, e);
      credibilityAfter := NewCredibility(p, c.credibility, e);
      cmap := cmap[w := c.(bankroll := bankrollAfter, credibility := credibilityAfter)];
    }
    PaidThenReviewed(p, t, due);
    PaymentDisablesNobody(p, t, due, StepAll(p, t, due));
    var next, newly := ReviewAll(p, cmap);
    r := Ok((Receipt(winner, bankrollBefore, bankrollAfter, credibilityBefore, credibilityAfter, newly), next));
  }

  lemma {:induction false} NewlyAmongSame(a: Table, b: Table, after: Table, ids: seq<string>)
    requires forall i :: 0 <= i < |ids| ==>
      ids[i] in a && ids[i] in b && ids[i] in after && a[ids[i]].disabled == b[ids[i]].disabled
    ensures NewlyAmong(a, after, ids) == NewlyAmong(b, after, ids)
  {
    if |ids| != 0 {
      NewlyAmongSame(a, b, after, ids[..|ids| - 1]);
    }
  }

  /** Row by row, a settlement is one `Step` of each campaign. */
  lemma PaidThenReviewed(p: Params, t: Table, due: Option<Due>)
    requires due.Some? ==> due.value.winner in t
    ensures Paid(p, t, due).Keys == t.Keys
    ensures Reviewed(p, Paid(p, t, due)) == StepAll(p, t, due)
  {
    assert Paid(p, t, due).Keys == t.Keys;
  }

  lemma PaymentDisablesNobody(p: Params, t: Table, due: Option<Due>, after: Table)
    requires due.Some? ==> due.value.winner in t
    requires after.Keys == t.Keys == Paid(p, t, due).Keys
    ensures NewlyDisabled(Paid(p, t, due), after) == NewlyDisabled(t, after)
  {
    NewlyAmongSame(Paid(p, t, due), t, after, SortedSet(t.Keys));
  }
}
