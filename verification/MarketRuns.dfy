/** Laws of whole market runs: who is disabled, when, and for how long. */
module MarketRuns {
  import opened Results
  import opened Q32
  import opened Text
  import opened Settlement
  import opened Selection
  import opened SelectionLaws
  import opened MarketLoop

  // ----- runs -----

  ghost predicate TickAt(cfg: Config, registry: seq<string>, ls: seq<Ledger>, ins: seq<Input>, i: nat)
    requires i < |ins| && |ls| == |ins| + 1
  {
    Tick(cfg, registry, ls[i], ins[i]) == Ok(ls[i + 1])
  }

  /** The ledgers of a run from genesis, one before each input and one after the last. */
  ghost predicate IsRun(cfg: Config, registry: seq<string>, ls: seq<Ledger>, ins: seq<Input>) {
    && |ls| == |ins| + 1
    && ls[0] == GENESIS
    && forall i :: 0 <= i < |ins| ==> TickAt(cfg, registry, ls, ins, i)
  }

  /** The campaign table a tick starts from. */
  ghost function TableAt(cfg: Config, registry: seq<string>, l: Ledger): Table {
    var t := TableOf(RowsBefore(cfg, registry, l.rows));
    if t.Ok? then t.value else map[]
  }

  ghost function DueAt(l: Ledger, i: Input): Option<Due> {
    DueOf(l.selection, i.realized, i.effect)
  }

  /** A row as every reachable table holds it. */
  ghost predicate SoundRow(p: Params, c: Campaign) {
    && 0 <= c.bankroll
    && 0 <= c.streak
    && (c.disabled ==> c.streak == p.disableAfter && c.reason == BELOW_THRESHOLD && c.bankroll < p.disableThreshold)
    && (!c.disabled ==> c.streak < p.disableAfter && c.reason == NOT_DISABLED)
  }

  ghost predicate SoundTable(p: Params, t: Table, winner: Option<string>) {
    && WellKeyed(t)
    && (forall k :: k in t ==> SoundRow(p, t[k]))
    && (winner.Some? ==> winner.value in t && !t[winner.value].disabled)
  }

  ghost predicate Sound(cfg: Config, registry: seq<string>, l: Ledger) {
    && TableOf(RowsBefore(cfg, registry, l.rows)).Ok?
    && TableAt(cfg, registry, l).Keys == RegistryIds(registry)
    && SoundTable(ResolveSettlementParams(cfg), TableAt(cfg, registry, l), NamedWinner(l.selection))
  }

  lemma StepSound(p: Params, c: Campaign, e: Option<Event>)
    requires p.Valid() && SoundRow(p, c) && (c.disabled ==> e.None?)
    ensures SoundRow(p, Step(p, c, e))
    ensures c.disabled ==> Step(p, c, e) == c
  {
    if e.Some? {
      var paid := SettleWinner(p, c, e.value);
      assert paid.bankroll >= 0 && paid.disabled == c.disabled && paid.streak == c.streak;
    }
  }

  lemma GenesisSound(cfg: Config, registry: seq<string>)
    ensures Sound(cfg, registry, GENESIS)
    ensures TableAt(cfg, registry, GENESIS) == BootstrapTable(ResolveSettlementParams(cfg), registry)
  {
    TableRoundTrip(BootstrapTable(ResolveSettlementParams(cfg), registry));
  }

  lemma StepAllSound(p: Params, t: Table, due: Option<Due>)
    requires p.Valid() && SoundTable(p, t, if due.Some? then Some(due.value.winner) else None)
    ensures SoundTable(p, StepAll(p, t, due), None)
  {
    forall k | k in t ensures SoundRow(p, StepAll(p, t, due)[k]) {
      StepSound(p, t[k], EventFor(due, k));
    }
    StepAllWellKeyed(p, t, due);
  }

  /** The winner chosen on a table is an enabled campaign of that table. */
  lemma WinnerEnabled(ctx: Context, bids: map<string, Bid>, t: Table, s: Selected)
    requires SelectWinner(Orchestrator, ctx, t, bids) == Ok(s)
    ensures s.winner.Some? ==> s.winner.value.id in t && !t[s.winner.value.id].disabled
  {
    WinnerIsBest(Orchestrator, ctx, t, bids, s);
    if s.winner.Some? {
      assert Best(Orchestrator, ctx, t, bids, s.winner.value.id);
    }
  }

  lemma NamedIsWinner(t: Table, s: Selected)
    requires WellKeyed(t) && s.winner.Some? && s.winner.value.id in t
    ensures NamedWinner(Some(s)).Some? ==> NamedWinner(Some(s)).value == s.winner.value.id
  {
    StripStripped(t[s.winner.value.id].id);
  }

  /** One tick of a sound ledger: every row makes one step, the receipt lists the
      rows that became disabled, and the new winner is an enabled campaign. */
  lemma TickSteps(cfg: Config, registry: seq<string>, l: Ledger, i: Input, next: Ledger)
    requires Sound(cfg, registry, l) && Tick(cfg, registry, l, i) == Ok(next)
    ensures Sound(cfg, registry, next)
    ensures TableAt(cfg, registry, next) == StepAll(ResolveSettlementParams(cfg), TableAt(cfg, registry, l), DueAt(l, i))
    ensures next.receipt.Some?
    ensures next.receipt.value.disabledIds == NewlyDisabled(TableAt(cfg, registry, l), TableAt(cfg, registry, next))
    ensures DueAt(l, i).Some? ==> DueAt(l, i).value.winner in TableAt(cfg, registry, l)
    ensures next.receipt.value
         == SettlementReceipt(ResolveSettlementParams(cfg), TableAt(cfg, registry, l), DueAt(l, i), NamedWinner(l.selection))
    ensures next.selection.Some?
    ensures SelectWinner(Orchestrator, i.ctx, TableAt(cfg, registry, next), i.bids) == Ok(next.selection.value)
  {
    hide Step, SoundRow, SelectWinner, ResolveSettlementParams, NewlyDisabled, NewBankroll, NewCredibility, Strip;
    var p, t := ResolveSettlementParams(cfg), TableAt(cfg, registry, l);
    var after := StepAll(p, t, DueAt(l, i));
    StepAllSound(p, t, DueAt(l, i));
    TableRoundTrip(after);
    var s := next.selection.value;
    WinnerEnabled(i.ctx, i.bids, after, s);
    if s.winner.Some? {
      NamedIsWinner(after, s);
    }
  }

  /** A tick of a sound ledger fails only on a bid by an unregistered campaign. */
  lemma TickSucceedsIff(cfg: Config, registry: seq<string>, l: Ledger, i: Input)
    requires Sound(cfg, registry, l)
    ensures Tick(cfg, registry, l, i).Ok? <==> i.bids.Keys <= RegistryIds(registry)
  {
    hide Step, SoundRow, ResolveSettlementParams, NewlyDisabled, NewBankroll, NewCredibility, Strip, RegistryIds, SelectionReceipt;
    var p, t := ResolveSettlementParams(cfg), TableAt(cfg, registry, l);
    StepAllWellKeyed(p, t, DueAt(l, i));
    TableRoundTrip(StepAll(p, t, DueAt(l, i)));
  }

  lemma RunSoundStep(cfg: Config, registry: seq<string>, ls: seq<Ledger>, ins: seq<Input>, i: nat)
    requires IsRun(cfg, registry, ls, ins) && i < |ins| && Sound(cfg, registry, ls[i])
    ensures Sound(cfg, registry, ls[i + 1])
  {
    assert TickAt(cfg, registry, ls, ins, i);
    TickSteps(cfg, registry, ls[i], ins[i], ls[i + 1]);
  }

  lemma {:induction false} RunSound(cfg: Config, registry: seq<string>, ls: seq<Ledger>, ins: seq<Input>, i: nat)
    requires IsRun(cfg, registry, ls, ins) && i < |ls|
    ensures Sound(cfg, registry, ls[i])
  {
    if i == 0 {
      GenesisSound(cfg, registry);
    } else {
      RunSound(cfg, registry, ls, ins, i - 1);
      RunSoundStep(cfg, registry, ls, ins, i - 1);
    }
  }

  // ----- the life of one campaign in a run -----

  ghost function RowIn(t: Table, k: string): Campaign {
    if k in t then t[k] else Campaign("", 0, 0, 0, false, "")
  }

  /** The rows of campaign `k`: before each tick, and after the last. */
  ghost function RowsOfRun(cfg: Config, registry: seq<string>, ls: seq<Ledger>, k: string): (r: seq<Campaign>)
    ensures |r| == |ls| && forall i :: 0 <= i < |ls| ==> r[i] == RowIn(TableAt(cfg, registry, ls[i]), k)
  {
    seq(|ls|, i requires 0 <= i < |ls| => RowIn(TableAt(cfg, registry, ls[i]), k))
  }

  /** What each tick settles for campaign `k`, if it settles it. */
  ghost function EventsOfRun(ls: seq<Ledger>, ins: seq<Input>, k: string): (r: seq<Option<Event>>)
    requires |ls| == |ins| + 1
    ensures |r| == |ins| && forall i :: 0 <= i < |ins| ==> r[i] == EventFor(DueAt(ls[i], ins[i]), k)
  {
    seq(|ins|, i requires 0 <= i < |ins| => EventFor(DueAt(ls[i], ins[i]), k))
  }

  ghost predicate Moves(p: Params, rows: seq<Campaign>, evs: seq<Option<Event>>, i: nat)
    requires i < |evs| && |rows| == |evs| + 1
  {
    rows[i + 1] == Step(p, rows[i], evs[i]) && (rows[i].disabled ==> evs[i].None?)
  }

  /** A campaign's life: it starts new, makes one step a tick, and is settled
      only while enabled. */
  ghost predicate IsLife(p: Params, rows: seq<Campaign>, evs: seq<Option<Event>>) {
    && p.Valid()
    && |rows| == |evs| + 1
    && rows[0] == NewCampaign(p, rows[0].id)
    && forall i :: 0 <= i < |evs| ==> Moves(p, rows, evs, i)
  }

  /** The ids a settlement receipt lists as newly disabled. */
  function Listed(l: Ledger): seq<string> {
    if l.receipt.Some? then l.receipt.value.disabledIds else []
  }

  lemma RunMoves(cfg: Config, registry: seq<string>, ls: seq<Ledger>, ins: seq<Input>, k: string, i: nat)
    requires IsRun(cfg, registry, ls, ins) && k in RegistryIds(registry) && i < |ins|
    ensures var rows := RowsOfRun(cfg, registry, ls, k);
      && Moves(ResolveSettlementParams(cfg), rows, EventsOfRun(ls, ins, k), i)
      && Distinct(Listed(ls[i + 1]))
      && (k in Listed(ls[i + 1]) <==> !rows[i].disabled && rows[i + 1].disabled)
  {
    RunSound(cfg, registry, ls, ins, i);
    assert TickAt(cfg, registry, ls, ins, i);
    TickSteps(cfg, registry, ls[i], ins[i], ls[i + 1]);
    NewlyDisabledMembers(TableAt(cfg, registry, ls[i]), TableAt(cfg, registry, ls[i + 1]));
  }

  /** In every run, every registered campaign leads a life. */
  lemma RunIsLife(cfg: Config, registry: seq<string>, ls: seq<Ledger>, ins: seq<Input>, k: string)
    requires IsRun(cfg, registry, ls, ins) && k in RegistryIds(registry)
    ensures IsLife(ResolveSettlementParams(cfg), RowsOfRun(cfg, registry, ls, k), EventsOfRun(ls, ins, k))
  {
    GenesisSound(cfg, registry);
    forall i | 0 <= i < |ins|
      ensures Moves(ResolveSettlementParams(cfg), RowsOfRun(cfg, registry, ls, k), EventsOfRun(ls, ins, k), i)
    {
      RunMoves(cfg, registry, ls, ins, k, i);
    }
  }

  lemma {:induction false} LifeSound(p: Params, rows: seq<Campaign>, evs: seq<Option<Event>>, i: nat)
    requires IsLife(p, rows, evs) && i < |rows|
    ensures SoundRow(p, rows[i])
  {
    if i != 0 {
      LifeSound(p, rows, evs, i - 1);
      assert Moves(p, rows, evs, i - 1);
      StepSound(p, rows[i - 1], evs[i - 1]);
    }
  }

  // ----- a run told by its inputs -----

  /** The winner a tick names is the best campaign of its settled table, with the
      promise and confidence of its bid. */
  lemma NamedIsBest(cfg: Config, registry: seq<string>, l: Ledger, i: Input, next: Ledger, k: string)
    requires Sound(cfg, registry, l) && Tick(cfg, registry, l, i) == Ok(next)
    ensures NamedWinner(next.selection) == Some(k) <==> Best(Orchestrator, i.ctx, TableAt(cfg, registry, next), i.bids, k)
    ensures NamedWinner(next.selection) == Some(k) ==>
      && k in i.bids && next.selection.value.winner.value.predictedDelta == Max(0, i.bids[k].predictedDelta)
      && next.selection.value.winner.value.confidence == Clamp(i.bids[k].confidence, 0, ONE)
  {
    TickSteps(cfg, registry, l, i, next);
    hide Tick, SelectWinner, Best, Strip, Step;
    var t, s := TableAt(cfg, registry, next), next.selection.value;
    WinnerIsBest(Orchestrator, i.ctx, t, i.bids, s);
    if s.winner.Some? {
      WinnerPayload(Orchestrator, i.ctx, t, i.bids, s);
      StripStripped(t[s.winner.value.id].id);
    }
  }

  /** What tick `i` of a run settles, told by the inputs of two ticks: campaign `k`
      is settled exactly when it was the best on the table that the tick before left
      and the realised change is known, and then with the promise and confidence of
      its bid of that tick, and with the change and effect of this one. The first
      tick settles nothing. */
  lemma EventsAreBids(cfg: Config, registry: seq<string>, ls: seq<Ledger>, ins: seq<Input>, k: string, i: nat)
    requires IsRun(cfg, registry, ls, ins) && i < |ins|
    ensures i == 0 ==> EventsOfRun(ls, ins, k)[i] == None && NamedWinner(ls[i].selection) == None
    ensures 0 < i ==>
      (NamedWinner(ls[i].selection) == Some(k) <==>
         Best(Orchestrator, ins[i - 1].ctx, TableAt(cfg, registry, ls[i]), ins[i - 1].bids, k))
    ensures 0 < i ==> forall e ::
      EventsOfRun(ls, ins, k)[i] == Some(e) <==>
        && Best(Orchestrator, ins[i - 1].ctx, TableAt(cfg, registry, ls[i]), ins[i - 1].bids, k)
        && ins[i].realized.Some?
        && k in ins[i - 1].bids
        && e == Event(Max(0, ins[i - 1].bids[k].predictedDelta), Clamp(ins[i - 1].bids[k].confidence, 0, ONE),
                      ins[i].realized.value, ins[i].effect)
  {
    hide Tick, Best, Step;
    if 0 < i {
      RunSound(cfg, registry, ls, ins, i - 1);
      assert TickAt(cfg, registry, ls, ins, i - 1);
      NamedIsBest(cfg, registry, ls[i - 1], ins[i - 1], ls[i], k);
    }
  }

  // ----- disabled is for ever -----

  lemma {:induction false} FrozenInLife(p: Params, rows: seq<Campaign>, evs: seq<Option<Event>>, i: nat, j: nat)
    requires IsLife(p, rows, evs) && i <= j < |rows| && rows[i].disabled
    ensures rows[j] == rows[i]
    decreases j
  {
    if i < j {
      FrozenInLife(p, rows, evs, i, j - 1);
      assert Moves(p, rows, evs, j - 1);
      LifeSound(p, rows, evs, j - 1);
      StepSound(p, rows[j - 1], evs[j - 1]);
    }
  }

  /** Once disabled, a campaign keeps its whole row and is never a winner again. */
  lemma DisabledForever(cfg: Config, registry: seq<string>, ls: seq<Ledger>, ins: seq<Input>, k: string, i: nat, j: nat)
    requires IsRun(cfg, registry, ls, ins) && k in RegistryIds(registry) && i <= j < |ls|
    requires RowsOfRun(cfg, registry, ls, k)[i].disabled
    ensures RowsOfRun(cfg, registry, ls, k)[j] == RowsOfRun(cfg, registry, ls, k)[i]
    ensures NamedWinner(ls[j].selection) != Some(k)
  {
    RunIsLife(cfg, registry, ls, ins, k);
    FrozenInLife(ResolveSettlementParams(cfg), RowsOfRun(cfg, registry, ls, k), EventsOfRun(ls, ins, k), i, j);
    RunSound(cfg, registry, ls, ins, j);
  }

  // ----- the streak is history -----

  /** For how many rows in a row, up to `j`, the bankroll was below the threshold.
      The row before the first tick has not been reviewed and does not count. */
  ghost function BelowRun(threshold: int, rows: seq<Campaign>, j: nat): nat
    requires j < |rows|
  {
    if j == 0 || rows[j].bankroll >= threshold then 0 else BelowRun(threshold, rows, j - 1) + 1
  }

  lemma StepFlag(p: Params, c: Campaign, e: Option<Event>)
    requires p.Valid() && SoundRow(p, c) && (c.disabled ==> e.None?)
    ensures var d := Step(p, c, e);
      && (!c.disabled && d.bankroll < p.disableThreshold ==> d.streak == c.streak + 1)
      && (!c.disabled && d.bankroll >= p.disableThreshold ==> d.streak == 0)
      && (d.disabled <==> c.disabled || d.streak >= p.disableAfter)
  {
    if e.Some? {
      assert SettleWinner(p, c, e.value).disabled == c.disabled && SettleWinner(p, c, e.value).streak == c.streak;
    }
  }

  lemma {:induction false} StreakInLife(p: Params, rows: seq<Campaign>, evs: seq<Option<Event>>, j: nat)
    requires IsLife(p, rows, evs) && j < |rows|
    ensures !rows[j].disabled ==> rows[j].streak == BelowRun(p.disableThreshold, rows, j) < p.disableAfter
    ensures rows[j].disabled ==> rows[j].streak == p.disableAfter
    ensures rows[j].disabled <==> exists i :: 0 <= i <= j && BelowRun(p.disableThreshold, rows, i) >= p.disableAfter
  {
    LifeSound(p, rows, evs, j);
    if j != 0 {
      StreakInLife(p, rows, evs, j - 1);
      LifeSound(p, rows, evs, j - 1);
      assert Moves(p, rows, evs, j - 1);
      StepFlag(p, rows[j - 1], evs[j - 1]);
      assert BelowRun(p.disableThreshold, rows, j) >= p.disableAfter ==> rows[j].disabled;
      assert rows[j].disabled && !rows[j - 1].disabled ==> BelowRun(p.disableThreshold, rows, j) >= p.disableAfter;
    }
  }

  /** How often the settlement receipts up to ledger `j` listed `k` as newly disabled. */
  ghost function TimesListed(ls: seq<Ledger>, j: nat, k: string): nat
    requires j < |ls|
  {
    if j == 0 then 0 else TimesListed(ls, j - 1, k) + if k in Listed(ls[j]) then 1 else 0
  }

  /** An enabled campaign's streak is its current run below the threshold and is
      short of the limit; a disabled one's is exactly the limit; and a campaign is
      disabled exactly when such a run has once reached the limit. */
  lemma StreakIsHistory(cfg: Config, registry: seq<string>, ls: seq<Ledger>, ins: seq<Input>, k: string, j: nat)
    requires IsRun(cfg, registry, ls, ins) && k in RegistryIds(registry) && j < |ls|
    ensures var p, rows := ResolveSettlementParams(cfg), RowsOfRun(cfg, registry, ls, k);
      && (!rows[j].disabled ==> rows[j].streak == BelowRun(p.disableThreshold, rows, j) < p.disableAfter && rows[j].reason == "N/A")
      && (rows[j].disabled ==> rows[j].streak == p.disableAfter && rows[j].reason == "BANKROLL_BELOW_THRESHOLD")
      && (rows[j].disabled <==> exists i :: 0 <= i <= j && BelowRun(p.disableThreshold, rows, i) >= p.disableAfter)
  {
    RunIsLife(cfg, registry, ls, ins, k);
    StreakInLife(ResolveSettlementParams(cfg), RowsOfRun(cfg, registry, ls, k), EventsOfRun(ls, ins, k), j);
    LifeSound(ResolveSettlementParams(cfg), RowsOfRun(cfg, registry, ls, k), EventsOfRun(ls, ins, k), j);
  }

  /** A receipt lists `k` exactly when the tick disables it, which is for good. */
  ghost predicate ListsChange(ls: seq<Ledger>, rows: seq<Campaign>, k: string, i: nat)
    requires i + 1 < |ls| == |rows|
  {
    && (rows[i].disabled ==> rows[i + 1].disabled)
    && (k in Listed(ls[i + 1]) <==> !rows[i].disabled && rows[i + 1].disabled)
    && Distinct(Listed(ls[i + 1]))
  }

  lemma RunListsChange(cfg: Config, registry: seq<string>, ls: seq<Ledger>, ins: seq<Input>, k: string, i: nat)
    requires IsRun(cfg, registry, ls, ins) && k in RegistryIds(registry) && i < |ins|
    ensures ListsChange(ls, RowsOfRun(cfg, registry, ls, k), k, i)
  {
    RunMoves(cfg, registry, ls, ins, k, i);
    if RowsOfRun(cfg, registry, ls, k)[i].disabled {
      DisabledForever(cfg, registry, ls, ins, k, i, i + 1);
    }
  }

  lemma {:induction false} CountListed(ls: seq<Ledger>, rows: seq<Campaign>, k: string, j: nat)
    requires j < |ls| == |rows| && !rows[0].disabled
    requires forall i :: 0 <= i < j ==> ListsChange(ls, rows, k, i)
    ensures TimesListed(ls, j, k) == (if rows[j].disabled then 1 else 0)
  {
    if j != 0 {
      CountListed(ls, rows, k, j - 1);
      assert ListsChange(ls, rows, k, j - 1);
    }
  }

  lemma NewAtGenesis(cfg: Config, registry: seq<string>, ls: seq<Ledger>, ins: seq<Input>, k: string)
    requires IsRun(cfg, registry, ls, ins) && k in RegistryIds(registry)
    ensures !RowsOfRun(cfg, registry, ls, k)[0].disabled
  {
    GenesisSound(cfg, registry);
  }

  lemma OnlyRegisteredListed(cfg: Config, registry: seq<string>, ls: seq<Ledger>, ins: seq<Input>, k: string, i: nat)
    requires IsRun(cfg, registry, ls, ins) && i < |ins|
    ensures k in Listed(ls[i + 1]) ==> k in RegistryIds(registry)
  {
    hide Tick, RegistryIds, NewlyDisabled, SoundTable, Step;
    RunSound(cfg, registry, ls, ins, i);
    assert TickAt(cfg, registry, ls, ins, i);
    TickSteps(cfg, registry, ls[i], ins[i], ls[i + 1]);
    NewlyDisabledMembers(TableAt(cfg, registry, ls[i]), TableAt(cfg, registry, ls[i + 1]));
  }

  /** The receipts of a run list every disabled campaign exactly once, no other
      campaign, and no id twice in one receipt. */
  lemma ListedOnce(cfg: Config, registry: seq<string>, ls: seq<Ledger>, ins: seq<Input>, k: string, j: nat)
    requires IsRun(cfg, registry, ls, ins) && 0 < j < |ls|
    ensures Distinct(Listed(ls[j]))
    ensures k !in RegistryIds(registry) ==> k !in Listed(ls[j])
    ensures k in RegistryIds(registry) ==>
      TimesListed(ls, j, k) == (if RowsOfRun(cfg, registry, ls, k)[j].disabled then 1 else 0)
  {
    assert j - 1 < |ins|;
    hide IsRun, RegistryIds, ListsChange;
    OnlyRegisteredListed(cfg, registry, ls, ins, k, j - 1);
    ListedDistinct(cfg, registry, ls, ins, j - 1);
    if k in RegistryIds(registry) {
      var rows := RowsOfRun(cfg, registry, ls, k);
      forall i | 0 <= i < j ensures ListsChange(ls, rows, k, i) {
        RunListsChange(cfg, registry, ls, ins, k, i);
      }
      NewAtGenesis(cfg, registry, ls, ins, k);
      CountListed(ls, rows, k, j);
    }
  }

  lemma ListedDistinct(cfg: Config, registry: seq<string>, ls: seq<Ledger>, ins: seq<Input>, i: nat)
    requires IsRun(cfg, registry, ls, ins) && i < |ins|
    ensures Distinct(Listed(ls[i + 1]))
  {
    hide Tick, NewlyDisabled, SoundTable, Step;
    RunSound(cfg, registry, ls, ins, i);
    assert TickAt(cfg, registry, ls, ins, i);
    TickSteps(cfg, registry, ls[i], ins[i], ls[i + 1]);
    NewlyDisabledMembers(TableAt(cfg, registry, ls[i]), TableAt(cfg, registry, ls[i + 1]));
  }
}
