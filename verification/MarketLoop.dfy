/** The closed loop of the market: what one tick reads from the ledger on disk,
    settles, selects and writes back. */
module MarketLoop {
  import opened Results
  import opened Text
  import opened Settlement
  import opened Selection

  /** What the previous ticks left behind: the campaign rows, the last selection
      and the last settlement receipt. All are absent before the first tick. */
  datatype Ledger = Ledger(rows: Option<seq<Campaign>>, selection: Option<Selected>, receipt: Option<Receipt>)

  const GENESIS := Ledger(None, None, None)

  /** What a tick observes: the realised change of the objective (absent when
      there is no previous value), the effect class of the winner's run, the
      bids, and the cooldowns and budget they are checked against. */
  datatype Input = Input(realized: Option<int>, effect: string, ctx: Context, bids: map<string, Bid>)

  /** The winner named by a selection receipt, if it names one. */
  function NamedWinner(s: Option<Selected>): Option<string> {
    if s.Some? && s.value.winner.Some? && s.value.outcome == OK && Strip(s.value.winner.value.id) != ""
    then Some(Strip(s.value.winner.value.id)) else None
  }

  /** The settlement that is due, if the winner and the realised change are known. */
  function DueOf(s: Option<Selected>, realized: Option<int>, effect: string): Option<Due> {
    if NamedWinner(s).Some? && realized.Some?
    then var w := s.value.winner.value;
         Some(Due(NamedWinner(s).value, Event(w.predictedDelta, w.confidence, realized.value, effect)))
    else None
  }

  function RowsBefore(cfg: Config, registry: seq<string>, rows: Option<seq<Campaign>>): seq<Campaign> {
    if rows.Some? then rows.value else RowsOf(BootstrapTable(ResolveSettlementParams(cfg), registry))
  }

  function Settle(cfg: Config, registry: seq<string>, l: Ledger, i: Input): Result<(Receipt, seq<Campaign>)> {
    var t :- TableOf(RowsBefore(cfg, registry, l.rows));
    Settled(ResolveSettlementParams(cfg), t, DueOf(l.selection, i.realized, i.effect), NamedWinner(l.selection))
  }

  /** One tick: settle the previous winner, then select on the settled rows. */
  function Tick(cfg: Config, registry: seq<string>, l: Ledger, i: Input): Result<Ledger> {
    var settled :- Settle(cfg, registry, l, i);
    var t :- TableOf(settled.1);
    var s :- SelectWinner(Orchestrator, i.ctx, t, i.bids);
    Ok(Ledger(Some(settled.1), Some(s), Some(settled.0)))
  }

  method SettleAndAdvance(cfg: Config, registry: seq<string>, l: Ledger, i: Input)
      returns (r: Result<(Receipt, seq<Campaign>)>)
    ensures r == Settle(cfg, registry, l, i)
  {
    var table := MarketStateMap(RowsBefore(cfg, registry, l.rows));
    if table.Fail? {
      return Fail(table.reason);
    }
    r := SettleTable(ResolveSettlementParams(cfg), table.value,
                     DueOf(l.selection, i.realized, i.effect), NamedWinner(l.selection));
  }

  /** The coordinator's state directory. */
  class MarketLedger {
    var rows: Option<seq<Campaign>>
    var selection: Option<Selected>
    var receipt: Option<Receipt>

    constructor ()
      ensures Contents() == GENESIS
    {
      rows, selection, receipt := None, None, None;
    }

    ghost function Contents(): Ledger
      reads this
    {
      Ledger(rows, selection, receipt)
    }

    /** Runs one tick; a tick that fails advances nothing. */
    method RunTick(cfg: Config, registry: seq<string>, i: Input) returns (ok: bool)
      modifies this
      ensures ok <==> Tick(cfg, registry, old(Contents()), i).Ok?
      ensures Contents() == if ok then Tick(cfg, registry, old(Contents()), i).value else old(Contents())
    {
      var settled := SettleAndAdvance(cfg, registry, Ledger(rows, selection, receipt), i);
      if settled.Fail? {
        return false;
      }
      var table := MarketStateMap(settled.value.1);
      if table.Fail? {
        return false;
      }
      var s := Select(Orchestrator, i.ctx, table.value, i.bids);
      if s.Fail? {
        return false;
      }
      rows, selection, receipt := Some(settled.value.1), Some(s.value), Some(settled.value.0);
      ok := true;
    }
  }
}
