/** What a settlement does to a winner, said without its formulas; what a run does,
    said by its inputs; and how fast credibility learns. */
module MarketMeaning {
  import opened Results
  import opened Q32
  import opened Text
  import opened Settlement
  import opened Selection
  import opened SelectionLaws
  import opened MarketLoop
  import opened MarketRuns
  import opened MarketBounds

  // ----- one settlement -----

  /** `norm` is the distance of the realised from the promised change as a share of
      the error cap, rounded down; at or above the cap it is one. */
  predicate IsErrorShare(p: Params, e: Event, norm: int) {
    var promised := Max(0, e.predicted);
    var distance := Max(e.realized - promised, promised - e.realized);
    if distance >= p.errorCap then norm == ONE else IsFloor(norm, distance * ONE, p.errorCap)
  }

  lemma ErrorShareIff(p: Params, e: Event, norm: int)
    requires p.Valid()
    ensures IsErrorShare(p, e, norm) <==> norm == ErrorNorm(p, e)
  {
    FloorIff(norm, AbsError(e) * ONE, p.errorCap);
    FloorIsGreatest(AbsError(e) * ONE, p.errorCap, ONE);
    if AbsError(e) < p.errorCap {
      assert AbsError(e) * ONE < p.errorCap * ONE;
    } else {
      CappedErrorFullNorm(p, e);
    }
  }

  /** `f` is a rate times the confidence times a share, floored after each product;
      `x` is the first product. */
  predicate IsFraction(f: int, x: int, rate: int, confidence: int, share: int) {
    IsFloor(x, rate * Clamp(confidence, 0, ONE), ONE) && IsFloor(f, x * share, ONE)
  }

  lemma FractionIff(f: int, x: int, rate: int, confidence: int, share: int)
    requires IsFraction(f, x, rate, confidence, share)
    ensures f == Mul(Mul(rate, Clamp(confidence, 0, ONE)), share)
  {
    MulIff(x, rate, Clamp(confidence, 0, ONE));
    MulIff(f, x, share);
  }

  /** What is added to the penalty: one part in a hundred for a run without utility,
      one in two hundred for a rejected one, nothing otherwise. */
  function Surcharge(effect: string): int {
    if Strip(effect) == "EFFECT_HEAVY_NO_UTILITY" then 42949672
    else if Strip(effect) == "EFFECT_REJECTED" then 21474836
    else 0
  }

  /** The intermediate results of one settlement: the error share, the penalty and
      reward fractions with their first products, and the unclamped credibility. */
  datatype Working = Working(norm: int, x: int, penalty: int, y: int, reward: int, credibility: int)

  /** The error share is measured; the penalty grows with it and the reward with the
      accuracy; credibility is the mean of the old one and the accuracy, weighted by
      the learning rate. Everything is rounded down. */
  predicate Works(p: Params, c: Campaign, e: Event, w: Working) {
    && IsErrorShare(p, e, w.norm)
    && IsFraction(w.penalty, w.x, p.penaltyRate, e.confidence, w.norm)
    && IsFraction(w.reward, w.y, p.rewardRate, e.confidence, ONE - w.norm)
    && IsFloor(w.credibility, c.credibility * (ONE - p.learningRate) + (ONE - w.norm) * p.learningRate, ONE)
  }

  /** The bankroll is multiplied by one less the penalty plus the reward, where a
      surcharge forfeits the reward, and rounded down. Credibility is raised to the
      configured floor, and after a surcharge never above the old one. */
  predicate PaidAs(p: Params, c: Campaign, d: Campaign, e: Event, w: Working) {
    var extra := Surcharge(e.effect);
    var factor := ONE - Min(ONE, w.penalty + extra) + (if extra == 0 then w.reward else 0);
    && IsFloor(d.bankroll, c.bankroll * factor, ONE)
    && d.credibility == (if extra == 0 then Max(w.credibility, p.minCredibility)
                         else Min(c.credibility, Max(w.credibility, p.minCredibility)))
  }

  /** What a settlement does to bankroll and credibility. */
  lemma SettlementMeaning(p: Params, c: Campaign, e: Event, w: Working)
    requires p.Valid() && 0 <= c.bankroll && 0 <= c.credibility <= ONE && Works(p, c, e, w)
    ensures PaidAs(p, c, Step(p, c, Some(e)), e, w)
  {
    BankrollMeaning(p, c, e, w);
    CredibilityMeaning(p, c, e, w);
    hide Step, IsFloor, Works, Surcharge;
  }

  /** The working of a settlement exists. */
  lemma WorkingExists(p: Params, c: Campaign, e: Event) returns (w: Working)
    requires p.Valid()
    ensures Works(p, c, e, w)
  {
    var norm, conf := ErrorNorm(p, e), Clamp(e.confidence, 0, ONE);
    var x, y := Mul(p.penaltyRate, conf), Mul(p.rewardRate, conf);
    w := Working(norm, x, Mul(x, norm), y, Mul(y, ONE - norm), RawCredibility(p, c.credibility, e));
    ErrorShareIff(p, e, norm);
    hide ErrorNorm, RawCredibility, IsErrorShare;
    MulIff(x, p.penaltyRate, conf);
    MulIff(w.penalty, x, norm);
    MulIff(y, p.rewardRate, conf);
    MulIff(w.reward, y, ONE - norm);
    UpdateIsMean(p, c.credibility, e, w.credibility);
    hide IsFloor;
  }

  lemma BankrollMeaning(p: Params, c: Campaign, e: Event, w: Working)
    requires p.Valid() && 0 <= c.bankroll && Works(p, c, e, w)
    ensures var extra := Surcharge(e.effect);
            var factor := ONE - Min(ONE, w.penalty + extra) + (if extra == 0 then w.reward else 0);
      IsFloor(Step(p, c, Some(e)).bankroll, c.bankroll * factor, ONE)
  {
    ErrorShareIff(p, e, w.norm);
    FractionIff(w.penalty, w.x, p.penaltyRate, e.confidence, w.norm);
    FractionIff(w.reward, w.y, p.rewardRate, e.confidence, ONE - w.norm);
    FractionBounds(p, e);
    hide IsErrorShare, IsFraction;
    FactorBounds(p, c.bankroll, e);
    BankrollFactor(p, e);
    MulIff(NewBankroll(p, c.bankroll, e), c.bankroll, RawFactor(p, e));
    StepMoves(p, c, Some(e));
  }

  lemma BankrollFactor(p: Params, e: Event)
    requires p.Valid()
    ensures var penalty := Mul(Mul(p.penaltyRate, Clamp(e.confidence, 0, ONE)), ErrorNorm(p, e));
            var reward := Mul(Mul(p.rewardRate, Clamp(e.confidence, 0, ONE)), ONE - ErrorNorm(p, e));
      RawFactor(p, e) == ONE - Min(ONE, penalty + Surcharge(e.effect)) + (if Surcharge(e.effect) == 0 then reward else 0)
  {
    FractionBounds(p, e);
  }

  lemma CredibilityMeaning(p: Params, c: Campaign, e: Event, w: Working)
    requires p.Valid() && 0 <= c.credibility <= ONE && Works(p, c, e, w)
    ensures var next := Step(p, c, Some(e)).credibility;
      && (Surcharge(e.effect) == 0 ==> next == Max(w.credibility, p.minCredibility))
      && (Surcharge(e.effect) != 0 ==> next == Min(c.credibility, Max(w.credibility, p.minCredibility)))
  {
    ErrorShareIff(p, e, w.norm);
    UpdateIsMean(p, c.credibility, e, w.credibility);
    CredibilityBetween(p, c.credibility, e);
    ErrorNormBounds(p, e);
    hide IsErrorShare, RawCredibility, ErrorNorm, NewBankroll;
  }

  lemma UpdateIsMean(p: Params, prior: int, e: Event, x: int)
    ensures IsFloor(x, prior * (ONE - p.learningRate) + Accuracy(p, e) * p.learningRate, ONE) <==> x == RawCredibility(p, prior, e)
  {
    var d := Accuracy(p, e) - prior;
    assert p.learningRate * d == Accuracy(p, e) * p.learningRate - prior * p.learningRate;
    assert prior * (ONE - p.learningRate) == prior * ONE - prior * p.learningRate;
    MulIff(x - prior, p.learningRate, d);
  }

  // ----- a tick of a run -----

  lemma CredibilityInUnit(cfg: Config, registry: seq<string>, ls: seq<Ledger>, ins: seq<Input>, k: string, i: nat)
    requires IsRun(cfg, registry, ls, ins) && k in RegistryIds(registry) && i < |ls|
    ensures 0 <= RowsOfRun(cfg, registry, ls, k)[i].credibility <= ONE
    ensures 0 <= RowsOfRun(cfg, registry, ls, k)[i].bankroll
  {
    CredibilityBounded(cfg, registry, ls, ins, k, i);
    BankrollBounded(cfg, registry, ls, ins, k, i);
  }

  /** The receipt of tick `i`: it names the winner of the tick before, gives its
      bankroll and credibility before and after the tick if it is settled, and
      zeros if nobody is. */
  lemma ReceiptNumbers(cfg: Config, registry: seq<string>, ls: seq<Ledger>, ins: seq<Input>, k: string, i: nat)
    requires IsRun(cfg, registry, ls, ins) && k in RegistryIds(registry) && i < |ins|
    ensures ls[i + 1].receipt.Some?
    ensures var r, rows := ls[i + 1].receipt.value, RowsOfRun(cfg, registry, ls, k);
      && r.winner == NamedWinner(ls[i].selection)
      && (EventsOfRun(ls, ins, k)[i].Some? ==>
            && r.winner == Some(k)
            && r.bankrollBefore == rows[i].bankroll && r.bankrollAfter == rows[i + 1].bankroll
            && r.credibilityBefore == rows[i].credibility && r.credibilityAfter == rows[i + 1].credibility)
      && (r.winner.None? || ins[i].realized.None? ==>
            r.bankrollBefore == r.bankrollAfter == r.credibilityBefore == r.credibilityAfter == 0)
  {
    RunSound(cfg, registry, ls, ins, i);
    assert TickAt(cfg, registry, ls, ins, i);
    TickSteps(cfg, registry, ls[i], ins[i], ls[i + 1]);
    RunMoves(cfg, registry, ls, ins, k, i);
    CredibilityInUnit(cfg, registry, ls, ins, k, i);
    ReceiptOfStep(ResolveSettlementParams(cfg), TableAt(cfg, registry, ls[i]), DueAt(ls[i], ins[i]), NamedWinner(ls[i].selection));
    hide Tick, IsRun, Sound, Step, SettlementReceipt, StepAll, RegistryIds;
  }

  lemma ReceiptOfStep(p: Params, t: Table, due: Option<Due>, winner: Option<string>)
    requires p.Valid() && (due.Some? ==> due.value.winner in t)
    ensures var r := SettlementReceipt(p, t, due, winner);
      && r.winner == winner
      && (due.None? ==> r.bankrollBefore == r.bankrollAfter == r.credibilityBefore == r.credibilityAfter == 0)
      && (due.Some? && 0 <= t[due.value.winner].bankroll && 0 <= t[due.value.winner].credibility <= ONE ==>
            var c, d := t[due.value.winner], Step(p, t[due.value.winner], Some(due.value.event));
            && r.bankrollBefore == c.bankroll && r.bankrollAfter == d.bankroll
            && r.credibilityBefore == c.credibility && r.credibilityAfter == d.credibility)
  {
    if due.Some? && 0 <= t[due.value.winner].bankroll {
      StepMoves(p, t[due.value.winner], Some(due.value.event));
    }
    hide NewBankroll, NewCredibility, NewlyDisabled;
  }

  /** The event that the inputs of ticks `i - 1` and `i` make for campaign `k`. */
  function EventOfInputs(ins: seq<Input>, k: string, i: nat): Event
    requires 0 < i < |ins| && k in ins[i - 1].bids && ins[i].realized.Some?
  {
    Event(Max(0, ins[i - 1].bids[k].predictedDelta), Clamp(ins[i - 1].bids[k].confidence, 0, ONE),
          ins[i].realized.value, ins[i].effect)
  }

  /** A tick of a run from its inputs to its rows: if `k` was the best campaign of
      the tick before and the realised change is known, its bankroll and credibility
      become what promise, confidence, change and effect demand. */
  lemma TickPaysWinner(cfg: Config, registry: seq<string>, ls: seq<Ledger>, ins: seq<Input>, k: string, i: nat, w: Working)
    requires IsRun(cfg, registry, ls, ins) && k in RegistryIds(registry) && 0 < i < |ins|
    requires Best(Orchestrator, ins[i - 1].ctx, TableAt(cfg, registry, ls[i]), ins[i - 1].bids, k)
    requires k in ins[i - 1].bids && ins[i].realized.Some?
    requires Works(ResolveSettlementParams(cfg), RowsOfRun(cfg, registry, ls, k)[i], EventOfInputs(ins, k, i), w)
    ensures PaidAs(ResolveSettlementParams(cfg), RowsOfRun(cfg, registry, ls, k)[i], RowsOfRun(cfg, registry, ls, k)[i + 1],
                   EventOfInputs(ins, k, i), w)
  {
    assert |ls| == |ins| + 1;
    hide Best, Step, IsRun, Works, PaidAs, ResolveSettlementParams, RegistryIds, TableAt, DueOf;
    EventsAreBids(cfg, registry, ls, ins, k, i);
    RunMoves(cfg, registry, ls, ins, k, i);
    CredibilityInUnit(cfg, registry, ls, ins, k, i);
    assert EventsOfRun(ls, ins, k)[i] == Some(EventOfInputs(ins, k, i));
    SettlementMeaning(ResolveSettlementParams(cfg), RowsOfRun(cfg, registry, ls, k)[i], EventOfInputs(ins, k, i), w);
  }

  /** ... and otherwise the tick leaves both alone. */
  lemma TickSparesOthers(cfg: Config, registry: seq<string>, ls: seq<Ledger>, ins: seq<Input>, k: string, i: nat)
    requires IsRun(cfg, registry, ls, ins) && k in RegistryIds(registry) && i < |ins|
    requires i == 0 || ins[i].realized.None?
          || !Best(Orchestrator, ins[i - 1].ctx, TableAt(cfg, registry, ls[i]), ins[i - 1].bids, k)
    ensures var before, after := RowsOfRun(cfg, registry, ls, k)[i], RowsOfRun(cfg, registry, ls, k)[i + 1];
      after.bankroll == before.bankroll && after.credibility == before.credibility
  {
    assert |ls| == |ins| + 1;
    hide Best, Step, IsRun, ResolveSettlementParams, RegistryIds, TableAt, DueOf;
    EventsAreBids(cfg, registry, ls, ins, k, i);
    RunMoves(cfg, registry, ls, ins, k, i);
    CredibilityInUnit(cfg, registry, ls, ins, k, i);
    NoEvent(EventsOfRun(ls, ins, k)[i]);
    IdleLeaves(ResolveSettlementParams(cfg), RowsOfRun(cfg, registry, ls, k)[i]);
  }

  lemma NoEvent(e: Option<Event>)
    ensures e.None? || e == Some(e.value)
  {
  }

  lemma IdleLeaves(p: Params, c: Campaign)
    requires 0 <= c.bankroll
    ensures Step(p, c, None).bankroll == c.bankroll && Step(p, c, None).credibility == c.credibility
  {
  }

  // ----- how credibility learns -----

  /** How far credibility is below `a`, times the learning rate, beyond one unit in
      the last place. */
  function Lag(p: Params, c: Campaign, a: int): int {
    Max(0, p.learningRate * (a - c.credibility) - ONE)
  }

  function Lead(c: Campaign, a: int): int {
    Max(0, c.credibility - a)
  }

  /** Every settlement is at least this accurate and carries no surcharge. */
  ghost predicate AllAccurate(p: Params, es: seq<Option<Event>>, a: int) {
    forall i :: 0 <= i < |es| && es[i].Some? ==> !Punished(es[i].value.effect) && a <= Accuracy(p, es[i].value)
  }

  /** No settlement is more accurate than this. */
  ghost predicate NoneMoreAccurate(p: Params, es: seq<Option<Event>>, a: int) {
    forall i :: 0 <= i < |es| && es[i].Some? ==> Accuracy(p, es[i].value) <= a
  }

  lemma LagArithmetic(lr: int, prior: int, acc: int, a: int, x: int)
    requires 0 <= lr <= ONE && a <= acc
    requires IsFloor(x, prior * (ONE - lr) + acc * lr, ONE)
    ensures (lr * (a - x) - ONE) * ONE <= (lr * (a - prior) - ONE) * (ONE - lr)
  {
    assert a * lr <= acc * lr;
    assert (a - prior) * (ONE - lr) == a * ONE - a * lr - prior * (ONE - lr);
    ScaledLag(lr, a - prior, a - x);
  }

  lemma ScaledLag(lr: int, g: int, h: int)
    requires 0 <= lr && h * ONE <= g * (ONE - lr) + ONE
    ensures (lr * h - ONE) * ONE <= (lr * g - ONE) * (ONE - lr)
  {
    var k := g * (ONE - lr);
    assert lr * (h * ONE) <= lr * (k + ONE);
    assert (lr * g) * (ONE - lr) == lr * k;
    assert (lr * g - ONE) * (ONE - lr) == (lr * g) * (ONE - lr) - ONE * (ONE - lr);
  }

  lemma LagStep(lr: int, prior: int, acc: int, a: int, x: int, next: int)
    requires 0 <= lr <= ONE && a <= acc && x <= next
    requires IsFloor(x, prior * (ONE - lr) + acc * lr, ONE)
    ensures Max(0, lr * (a - next) - ONE) * ONE <= Max(0, lr * (a - prior) - ONE) * (ONE - lr)
  {
    LagArithmetic(lr, prior, acc, a, x);
    assert lr * (a - next) <= lr * (a - x);
    hide IsFloor;
    MaxScaled(lr * (a - next) - ONE, lr * (a - prior) - ONE, ONE - lr);
  }

  lemma LeadArithmetic(lr: int, prior: int, acc: int, a: int, x: int)
    requires 0 <= lr <= ONE && acc <= a
    requires IsFloor(x, prior * (ONE - lr) + acc * lr, ONE)
    ensures (x - a) * ONE <= (prior - a) * (ONE - lr)
  {
    assert acc * lr <= a * lr;
    assert (prior - a) * (ONE - lr) == prior * (ONE - lr) - a * ONE + a * lr;
  }

  lemma MaxScaled(v: int, w: int, f: int)
    requires 0 <= f && v * ONE <= w * f
    ensures Max(0, v) * ONE <= Max(0, w) * f
  {
    if w < 0 {
      assert w * f <= 0;
    } else {
      assert 0 <= w * f;
    }
  }

  lemma OnlyRaised(p: Params, c: Campaign, e: Event)
    requires p.Valid() && 0 <= c.credibility <= ONE && !Punished(e.effect)
    ensures RawCredibility(p, c.credibility, e) <= Step(p, c, Some(e)).credibility
  {
    ErrorNormBounds(p, e);
    CredibilityBetween(p, c.credibility, e);
    hide RawCredibility, Accuracy, Punished, NewBankroll;
  }

  lemma LagShrinks(p: Params, c: Campaign, e: Event, a: int)
    requires p.Valid() && 0 <= c.credibility <= ONE
    requires !Punished(e.effect) && a <= Accuracy(p, e)
    ensures Lag(p, Step(p, c, Some(e)), a) * ONE <= Lag(p, c, a) * (ONE - p.learningRate)
  {
    var lr, x, next := p.learningRate, RawCredibility(p, c.credibility, e), Step(p, c, Some(e)).credibility;
    UpdateIsMean(p, c.credibility, e, x);
    ErrorNormBounds(p, e);
    CredibilityBetween(p, c.credibility, e);
    hide Step, RawCredibility, Accuracy, IsFloor, Punished;
    OnlyRaised(p, c, e);
    LagStep(lr, c.credibility, Accuracy(p, e), a, x, next);
  }

  lemma LeadShrinks(p: Params, c: Campaign, e: Event, a: int)
    requires p.Valid() && 0 <= c.credibility <= ONE
    requires Accuracy(p, e) <= a && p.minCredibility <= a
    ensures Lead(Step(p, c, Some(e)), a) * ONE <= Lead(c, a) * (ONE - p.learningRate)
  {
    var lr, x, next := p.learningRate, RawCredibility(p, c.credibility, e), Step(p, c, Some(e)).credibility;
    UpdateIsMean(p, c.credibility, e, x);
    assert next <= Max(x, p.minCredibility);
    hide Step, RawCredibility, Accuracy, IsFloor;
    LeadArithmetic(lr, c.credibility, Accuracy(p, e), a, x);
    MaxScaled(x - a, c.credibility - a, ONE - lr);
  }

  lemma StepInUnit(p: Params, c: Campaign, e: Option<Event>)
    requires p.Valid() && 0 <= c.credibility <= ONE
    ensures 0 <= Step(p, c, e).credibility <= ONE
    ensures e.None? ==> Step(p, c, e).credibility == c.credibility
  {
    CredibilityKept(p, c, e, 0);
  }

  /** After `n` settlements a lag of `from` is at most from * (1 - rate)^n, scaled. */
  ghost predicate Decayed(p: Params, now: int, from: int, n: nat) {
    now * Pow(ONE, n) <= from * Pow(ONE - p.learningRate, n)
  }

  lemma {:induction false} LagDecays(p: Params, c: Campaign, es: seq<Option<Event>>, a: int)
    requires p.Valid() && 0 <= c.credibility <= ONE && AllAccurate(p, es, a)
    ensures 0 <= After(p, c, es).credibility <= ONE
    ensures Decayed(p, Lag(p, After(p, c, es), a), Lag(p, c, a), Settlements(es, |es|))
  {
    hide Step, Lag, Accuracy, Punished;
    if |es| != 0 {
      var n := |es| - 1;
      LagDecays(p, c, es[..n], a);
      SettlementsOfPrefix(es, n, n);
      var mid := After(p, c, es[..n]);
      StepInUnit(p, mid, es[n]);
      if es[n].Some? {
        LagShrinks(p, mid, es[n].value, a);
        Compound(Lag(p, mid, a), Lag(p, After(p, c, es), a), ONE - p.learningRate, ONE, Lag(p, c, a), Settlements(es, n));
      } else {
        SameLag(p, mid, After(p, c, es), a);
      }
    }
  }

  lemma SameLag(p: Params, c: Campaign, d: Campaign, a: int)
    requires c.credibility == d.credibility
    ensures Lag(p, c, a) == Lag(p, d, a) && Lead(c, a) == Lead(d, a)
  {
  }

  lemma {:induction false} LeadDecays(p: Params, c: Campaign, es: seq<Option<Event>>, a: int)
    requires p.Valid() && 0 <= c.credibility <= ONE && NoneMoreAccurate(p, es, a) && p.minCredibility <= a
    ensures 0 <= After(p, c, es).credibility <= ONE
    ensures Decayed(p, Lead(After(p, c, es), a), Lead(c, a), Settlements(es, |es|))
  {
    hide Step, Lead, Accuracy;
    if |es| != 0 {
      var n := |es| - 1;
      LeadDecays(p, c, es[..n], a);
      SettlementsOfPrefix(es, n, n);
      var mid := After(p, c, es[..n]);
      StepInUnit(p, mid, es[n]);
      if es[n].Some? {
        LeadShrinks(p, mid, es[n].value, a);
        Compound(Lead(mid, a), Lead(After(p, c, es), a), ONE - p.learningRate, ONE, Lead(c, a), Settlements(es, n));
      } else {
        SameLag(p, mid, After(p, c, es), a);
      }
    }
  }

  /** In every run: while the settlements of a campaign reach accuracy `a` and carry
      no surcharge, its lag behind `a` shrinks by the learning rate at each of them,
      to within one unit in the last place over that rate. */
  lemma CredibilityCatchesUp(cfg: Config, registry: seq<string>, ls: seq<Ledger>, ins: seq<Input>, k: string, i: nat, j: nat, a: int)
    requires IsRun(cfg, registry, ls, ins) && k in RegistryIds(registry) && i <= j <= |ins|
    requires AllAccurate(ResolveSettlementParams(cfg), Window(ls, ins, k, i, j), a)
    ensures var p, rows := ResolveSettlementParams(cfg), RowsOfRun(cfg, registry, ls, k);
      Decayed(p, Lag(p, rows[j], a), Lag(p, rows[i], a), Settlements(Window(ls, ins, k, i, j), j - i))
  {
    var p, rows, evs := ResolveSettlementParams(cfg), RowsOfRun(cfg, registry, ls, k), EventsOfRun(ls, ins, k);
    RunIsLife(cfg, registry, ls, ins, k);
    CredibilityInUnit(cfg, registry, ls, ins, k, i);
    hide Step, Lag, Decayed, AllAccurate, ResolveSettlementParams, RegistryIds;
    LifeIsAfter(p, rows, evs, i, j);
    LagDecays(p, rows[i], evs[i..j], a);
  }

  /** ... and while none is more accurate than `a`, at least the configured floor,
      its lead over `a` shrinks by the learning rate at each of them, punished or not. */
  lemma CredibilityComesDown(cfg: Config, registry: seq<string>, ls: seq<Ledger>, ins: seq<Input>, k: string, i: nat, j: nat, a: int)
    requires IsRun(cfg, registry, ls, ins) && k in RegistryIds(registry) && i <= j <= |ins|
    requires NoneMoreAccurate(ResolveSettlementParams(cfg), Window(ls, ins, k, i, j), a)
    requires ResolveSettlementParams(cfg).minCredibility <= a
    ensures var p, rows := ResolveSettlementParams(cfg), RowsOfRun(cfg, registry, ls, k);
      Decayed(p, Lead(rows[j], a), Lead(rows[i], a), Settlements(Window(ls, ins, k, i, j), j - i))
  {
    var p, rows, evs := ResolveSettlementParams(cfg), RowsOfRun(cfg, registry, ls, k), EventsOfRun(ls, ins, k);
    RunIsLife(cfg, registry, ls, ins, k);
    CredibilityInUnit(cfg, registry, ls, ins, k, i);
    hide Step, Lead, Decayed, NoneMoreAccurate, ResolveSettlementParams, RegistryIds;
    LifeIsAfter(p, rows, evs, i, j);
    LeadDecays(p, rows[i], evs[i..j], a);
  }
}
