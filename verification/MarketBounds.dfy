/** Arithmetic laws of settlement: what accuracy earns, what stays in bounds, and
    how fast a campaign that keeps losing is disabled. */
module MarketBounds {
  import opened Results
  import opened Q32
  import opened Text
  import opened Settlement
  import opened MarketLoop
  import opened MarketRuns

  // ----- one settlement -----

  lemma ErrorNormBounds(p: Params, e: Event)
    ensures 0 <= ErrorNorm(p, e) <= ONE && 0 <= Accuracy(p, e) <= ONE
  {
    FloorIsGreatest(AbsError(e) * ONE, Max(1, p.errorCap), 0);
  }

  lemma FractionBounds(p: Params, e: Event)
    requires p.Valid()
    ensures 0 <= PenaltyFraction(p, e) <= ONE
    ensures 0 <= RewardFraction(p, e) <= p.rewardRate
    ensures Punished(e.effect) ==> ONE / 200 <= PenaltyFraction(p, e) && RewardFraction(p, e) == 0
  {
    var conf := Clamp(e.confidence, 0, ONE);
    ErrorNormBounds(p, e);
    MulFraction(p.penaltyRate, conf);
    MulFraction(Mul(p.penaltyRate, conf), ErrorNorm(p, e));
    MulFraction(p.rewardRate, conf);
    MulFraction(Mul(p.rewardRate, conf), Accuracy(p, e));
  }

  /** The bankroll factor never needs its clamp at zero, and neither does the
      new bankroll; a reward adds at most the reward rate. */
  lemma FactorBounds(p: Params, bankroll: int, e: Event)
    requires p.Valid() && 0 <= bankroll
    ensures 0 <= RawFactor(p, e) <= ONE + p.rewardRate
    ensures NewBankroll(p, bankroll, e) == Mul(bankroll, RawFactor(p, e))
    ensures 0 <= NewBankroll(p, bankroll, e)
    ensures NewBankroll(p, bankroll, e) * ONE <= bankroll * (ONE + p.rewardRate)
  {
    FractionBounds(p, e);
    ScaledDown(bankroll, RawFactor(p, e), ONE + p.rewardRate);
  }

  lemma ScaledDown(a: int, f: int, limit: int)
    requires 0 <= a && 0 <= f <= limit
    ensures 0 <= Mul(a, f) && Mul(a, f) * ONE <= a * limit
  {
    MulMonotone(0, 0, a, f);
    MulBounds(a, f);
    assert a * f <= a * limit;
  }

  /** Before its clamp, the new credibility lies between the old one and the
      measured accuracy. */
  lemma CredibilityBetween(p: Params, prior: int, e: Event)
    requires p.Valid()
    ensures var a, r := Accuracy(p, e), RawCredibility(p, prior, e);
            Min(prior, a) <= r <= Max(prior, a)
  {
    MulTowardsZero(p.learningRate, Accuracy(p, e) - prior);
  }

  /** Credibility stays at or above any floor no higher than the configured one. */
  lemma CredibilityKept(p: Params, c: Campaign, e: Option<Event>, floor: int)
    requires p.Valid() && 0 <= floor <= p.minCredibility && floor <= c.credibility <= ONE
    ensures floor <= Step(p, c, e).credibility <= ONE
  {
  }

  // ----- accuracy pays -----

  lemma NormMonotone(p: Params, near: Event, far: Event)
    requires AbsError(near) <= AbsError(far)
    ensures ErrorNorm(p, near) <= ErrorNorm(p, far) && Accuracy(p, far) <= Accuracy(p, near)
  {
    var cap := Max(1, p.errorCap);
    FloorIsGreatest(AbsError(far) * ONE, cap, (AbsError(near) * ONE) / cap);
    FloorIsGreatest(AbsError(near) * ONE, cap, (AbsError(near) * ONE) / cap);
  }

  lemma FactorMonotone(p: Params, near: Event, far: Event)
    requires p.Valid() && AbsError(near) <= AbsError(far)
    requires near.confidence == far.confidence && near.effect == far.effect
    ensures RawFactor(p, far) <= RawFactor(p, near)
  {
    var conf := Clamp(near.confidence, 0, ONE);
    NormMonotone(p, near, far);
    ErrorNormBounds(p, near);
    ErrorNormBounds(p, far);
    MulFraction(p.penaltyRate, conf);
    MulFraction(p.rewardRate, conf);
    MulMonotoneRight(Mul(p.penaltyRate, conf), ErrorNorm(p, near), ErrorNorm(p, far));
    MulMonotoneRight(Mul(p.rewardRate, conf), Accuracy(p, far), Accuracy(p, near));
  }

  /** With the same confidence and effect class, the smaller error never leaves
      the winner with less credibility or bankroll, and disables it only if the
      larger error does too. */
  lemma AccuracyPays(p: Params, c: Campaign, near: Event, far: Event)
    requires p.Valid() && AbsError(near) <= AbsError(far)
    requires near.confidence == far.confidence && near.effect == far.effect
    ensures var a, b := Step(p, c, Some(near)), Step(p, c, Some(far));
      && b.credibility <= a.credibility
      && b.bankroll <= a.bankroll
      && (a.disabled ==> b.disabled)
  {
    NormMonotone(p, near, far);
    FactorMonotone(p, near, far);
    MulMonotoneRight(Max(0, c.bankroll), Max(0, RawFactor(p, far)), Max(0, RawFactor(p, near)));
    var prior := Clamp(c.credibility, 0, ONE);
    MulMonotoneRight(p.learningRate, Accuracy(p, far) - prior, Accuracy(p, near) - prior);
  }

  lemma NoErrorNoNorm(p: Params, e: Event)
    requires AbsError(e) == 0
    ensures ErrorNorm(p, e) == 0 && Accuracy(p, e) == ONE
  {
  }

  lemma CappedErrorFullNorm(p: Params, e: Event)
    requires p.Valid() && AbsError(e) >= p.errorCap
    ensures ErrorNorm(p, e) == ONE && Accuracy(p, e) == 0
  {
    FloorIsGreatest(AbsError(e) * ONE, p.errorCap, ONE);
    assert ONE * p.errorCap <= AbsError(e) * ONE;
  }

  /** At the ends of the scale: an exact prediction that is not punished never
      costs anything, and an error at or above the cap never earns anything. */
  lemma ExactAndHopeless(p: Params, c: Campaign, e: Event)
    requires p.Valid() && 0 <= c.bankroll
    ensures AbsError(e) == 0 && !Punished(e.effect) ==>
      c.bankroll <= NewBankroll(p, c.bankroll, e) && Clamp(c.credibility, 0, ONE) <= NewCredibility(p, c.credibility, e)
    ensures AbsError(e) >= p.errorCap ==>
      && NewBankroll(p, c.bankroll, e) <= c.bankroll
      && NewCredibility(p, c.credibility, e) <= Max(Clamp(c.credibility, 0, ONE), p.minCredibility)
  {
    FractionBounds(p, e);
    FactorBounds(p, c.bankroll, e);
    var conf, prior, f := Clamp(e.confidence, 0, ONE), Clamp(c.credibility, 0, ONE), RawFactor(p, e);
    CredibilityBetween(p, prior, e);
    if AbsError(e) == 0 && !Punished(e.effect) {
      NoErrorNoNorm(p, e);
      assert f >= ONE;
      MulFraction(c.bankroll, ONE);
      MulMonotoneRight(c.bankroll, ONE, f);
    }
    if AbsError(e) >= p.errorCap {
      CappedErrorFullNorm(p, e);
      assert f <= ONE;
      MulFraction(c.bankroll, f);
    }
  }

  /** With all else equal, a run without utility costs at least as much as a
      rejected one, and a rejected one at least as much as any other. */
  lemma EffectsAreOrdered(p: Params, c: Campaign, e: Event, heavy: Event, rejected: Event)
    requires p.Valid()
    requires !Punished(e.effect) && Strip(heavy.effect) == HEAVY_NO_UTILITY && Strip(rejected.effect) == REJECTED
    requires heavy == e.(effect := heavy.effect) && rejected == e.(effect := rejected.effect)
    ensures NewBankroll(p, c.bankroll, heavy) <= NewBankroll(p, c.bankroll, rejected) <= NewBankroll(p, c.bankroll, e)
    ensures NewCredibility(p, c.credibility, heavy) == NewCredibility(p, c.credibility, rejected) <= NewCredibility(p, c.credibility, e)
  {
    assert ErrorNorm(p, heavy) == ErrorNorm(p, rejected) == ErrorNorm(p, e);
    FractionBounds(p, e);
    assert RawFactor(p, heavy) <= RawFactor(p, rejected) <= RawFactor(p, e);
    MulMonotoneRight(Max(0, c.bankroll), Max(0, RawFactor(p, heavy)), Max(0, RawFactor(p, rejected)));
    MulMonotoneRight(Max(0, c.bankroll), Max(0, RawFactor(p, rejected)), Max(0, RawFactor(p, e)));
  }

  // ----- whole runs -----

  function Pow(b: int, n: nat): int {
    if n == 0 then 1 else b * Pow(b, n - 1)
  }

  lemma {:induction false} PowPositive(b: int, n: nat)
    requires b > 0
    ensures Pow(b, n) > 0
  {
    if n != 0 {
      PowPositive(b, n - 1);
      assert b * Pow(b, n - 1) > 0;
    }
  }

  /** How many of the first `j` ticks settled the campaign. */
  ghost function Settlements(evs: seq<Option<Event>>, j: nat): nat
    requires j <= |evs|
  {
    if j == 0 then 0 else Settlements(evs, j - 1) + if evs[j - 1].Some? then 1 else 0
  }

  /** `x` grows to `y` by at most the factor `num / den`: the compounded bound follows. */
  lemma Compound(x: int, y: int, num: int, den: int, start: int, n: nat)
    requires 0 <= num && 0 < den
    requires y * den <= x * num
    requires x * Pow(den, n) <= start * Pow(num, n)
    ensures y * Pow(den, n + 1) <= start * Pow(num, n + 1)
  {
    var d, m := Pow(den, n), Pow(num, n);
    PowPositive(den, n);
    assert Pow(den, n + 1) == den * d && Pow(num, n + 1) == num * m;
    hide Pow;
    TimesKeepsOrder(y * den, x * num, d);
    TimesKeepsOrder(x * d, start * m, num);
    Regroup(y, den, d);
    Regroup(x, num, d);
    Regroup(start, num, m);
  }

  lemma TimesKeepsOrder(a: int, b: int, f: int)
    requires a <= b && 0 <= f
    ensures a * f <= b * f
  {
  }

  lemma Regroup(a: int, b: int, c: int)
    ensures (a * b) * c == a * (b * c) == (a * c) * b
  {
  }

  /** No more than the initial bankroll, rewarded in full `n` times. */
  ghost predicate WithinReward(p: Params, b: int, n: nat) {
    0 <= b && b * Pow(ONE, n) <= p.initialBankroll * Pow(ONE + p.rewardRate, n)
  }

  lemma {:induction false} BankrollInLife(p: Params, rows: seq<Campaign>, evs: seq<Option<Event>>, j: nat)
    requires IsLife(p, rows, evs) && j < |rows|
    ensures WithinReward(p, rows[j].bankroll, Settlements(evs, j))
  {
    if j != 0 {
      BankrollInLife(p, rows, evs, j - 1);
      assert Moves(p, rows, evs, j - 1);
      if evs[j - 1].Some? {
        FactorBounds(p, rows[j - 1].bankroll, evs[j - 1].value);
        Compound(rows[j - 1].bankroll, rows[j].bankroll, ONE + p.rewardRate, ONE, p.initialBankroll, Settlements(evs, j - 1));
      }
    }
  }

  lemma {:induction false} CredibilityInLife(p: Params, rows: seq<Campaign>, evs: seq<Option<Event>>, j: nat)
    requires IsLife(p, rows, evs) && j < |rows|
    ensures Min(p.initialCredibility, p.minCredibility) <= rows[j].credibility <= ONE
  {
    if j != 0 {
      CredibilityInLife(p, rows, evs, j - 1);
      assert Moves(p, rows, evs, j - 1);
      CredibilityKept(p, rows[j - 1], evs[j - 1], Min(p.initialCredibility, p.minCredibility));
    }
  }

  /** In every run, a bankroll stays non-negative and within the compounded reward. */
  lemma BankrollBounded(cfg: Config, registry: seq<string>, ls: seq<Ledger>, ins: seq<Input>, k: string, j: nat)
    requires IsRun(cfg, registry, ls, ins) && k in RegistryIds(registry) && j < |ls|
    ensures WithinReward(ResolveSettlementParams(cfg), RowsOfRun(cfg, registry, ls, k)[j].bankroll,
                         Settlements(EventsOfRun(ls, ins, k), j))
  {
    RunIsLife(cfg, registry, ls, ins, k);
    BankrollInLife(ResolveSettlementParams(cfg), RowsOfRun(cfg, registry, ls, k), EventsOfRun(ls, ins, k), j);
  }

  /** In every run, credibility stays between one and the lesser of its start and
      the configured floor, so above the floor when it starts there. */
  lemma CredibilityBounded(cfg: Config, registry: seq<string>, ls: seq<Ledger>, ins: seq<Input>, k: string, j: nat)
    requires IsRun(cfg, registry, ls, ins) && k in RegistryIds(registry) && j < |ls|
    ensures var p, c := ResolveSettlementParams(cfg), RowsOfRun(cfg, registry, ls, k)[j];
      Min(p.initialCredibility, p.minCredibility) <= c.credibility <= ONE
  {
    RunIsLife(cfg, registry, ls, ins, k);
    CredibilityInLife(ResolveSettlementParams(cfg), RowsOfRun(cfg, registry, ls, k), EventsOfRun(ls, ins, k), j);
  }

  // ----- losing every time -----

  /** The row after these ticks; a tick settles the campaign or leaves it idle. */
  ghost function After(p: Params, c: Campaign, es: seq<Option<Event>>): Campaign {
    if |es| == 0 then c
    else Step(p, After(p, c, es[..|es| - 1]), es[|es| - 1])
  }

  /** The settlement takes more than it gives. */
  predicate Losing(p: Params, e: Event) {
    RawFactor(p, e) < ONE
  }

  /** Whenever the campaign is settled it loses. */
  ghost predicate AllLosing(p: Params, es: seq<Option<Event>>) {
    forall i :: 0 <= i < |es| && es[i].Some? ==> Losing(p, es[i].value)
  }

  /** Whenever the campaign is settled it is punished. */
  ghost predicate AllPunished(es: seq<Option<Event>>) {
    forall i :: 0 <= i < |es| && es[i].Some? ==> Punished(es[i].value.effect)
  }

  /** With an error at or above the cap a winner loses exactly when it is punished
      or its confidence makes the penalty positive. */
  lemma HopelessLoses(p: Params, e: Event)
    requires p.Valid() && AbsError(e) >= p.errorCap
    ensures Losing(p, e) <==> Punished(e.effect) || Mul(p.penaltyRate, Clamp(e.confidence, 0, ONE)) > 0
  {
    var rate, reward := Mul(p.penaltyRate, Clamp(e.confidence, 0, ONE)), Mul(p.rewardRate, Clamp(e.confidence, 0, ONE));
    FractionBounds(p, e);
    CappedErrorFullNorm(p, e);
    assert Mul(rate, ONE) == rate && Mul(reward, 0) == 0;
  }

  /** A losing settlement strictly shrinks the bankroll until it is zero. */
  lemma LosingShrinks(p: Params, c: Campaign, e: Event)
    requires p.Valid() && 0 <= c.bankroll && Losing(p, e)
    ensures var b := Step(p, c, Some(e)).bankroll;
      && 0 <= b && b == NewBankroll(p, c.bankroll, e)
      && (c.bankroll > 0 ==> b < c.bankroll)
      && (c.bankroll == 0 ==> b == 0)
  {
    FactorBounds(p, c.bankroll, e);
    MulFraction(c.bankroll, RawFactor(p, e));
  }

  const WORST := ONE - ONE / 200

  /** A punished winner loses, and at least one part in two hundred. */
  lemma PunishedShrinks(p: Params, bankroll: int, e: Event)
    requires p.Valid() && 0 <= bankroll && Punished(e.effect)
    ensures Losing(p, e)
    ensures 0 <= NewBankroll(p, bankroll, e) && NewBankroll(p, bankroll, e) * ONE <= bankroll * WORST
  {
    FractionBounds(p, e);
    FactorBounds(p, bankroll, e);
    ScaledDown(bankroll, RawFactor(p, e), WORST);
  }

  lemma PunishedLose(p: Params, es: seq<Option<Event>>)
    requires p.Valid() && AllPunished(es)
    ensures AllLosing(p, es)
  {
    forall i | 0 <= i < |es| && es[i].Some? ensures Losing(p, es[i].value) {
      FractionBounds(p, es[i].value);
    }
  }

  /** An upper bound on the losses an enabled campaign survives. */
  function Patience(p: Params, c: Campaign): int {
    if c.bankroll < p.disableThreshold then p.disableAfter - c.streak
    else c.bankroll - p.disableThreshold + p.disableAfter
  }

  lemma PatienceShrinks(p: Params, c: Campaign, e: Event)
    requires p.Valid() && p.disableThreshold > 0 && Losing(p, e)
    requires SoundRow(p, c) && !c.disabled
    ensures var d := Step(p, c, Some(e));
      SoundRow(p, d) && (!d.disabled ==> 1 <= Patience(p, d) < Patience(p, c))
  {
    hide NewBankroll, NewCredibility, Losing;
    LosingShrinks(p, c, e);
    StepSound(p, c, Some(e));
    StepFlag(p, c, Some(e));
  }

  /** An idle tick leaves the bankroll alone and can only lengthen the streak. */
  lemma PatienceWaits(p: Params, c: Campaign)
    requires p.Valid() && SoundRow(p, c) && !c.disabled
    ensures var d := Step(p, c, None);
      && SoundRow(p, d) && d.bankroll == c.bankroll
      && (!d.disabled ==> 1 <= Patience(p, d) <= Patience(p, c))
  {
    StepSound(p, c, None);
    StepFlag(p, c, None);
  }

  /** A disabled row stays disabled whatever is settled against it. */
  lemma {:induction false} DisabledAfter(p: Params, c: Campaign, es: seq<Option<Event>>, n: nat)
    requires n <= |es| && After(p, c, es[..n]).disabled
    ensures After(p, c, es).disabled
    decreases |es|
  {
    if n == |es| {
      assert es[..n] == es;
    } else {
      assert es[..|es| - 1][..n] == es[..n];
      DisabledAfter(p, c, es[..|es| - 1], n);
    }
  }

  /** Every loss costs patience and no idle tick restores any. */
  lemma {:induction false} PatienceSpent(p: Params, c: Campaign, es: seq<Option<Event>>)
    requires p.Valid() && p.disableThreshold > 0 && SoundRow(p, c) && AllLosing(p, es)
    ensures var d := After(p, c, es);
      !d.disabled ==> SoundRow(p, d) && !c.disabled && 1 <= Patience(p, d) <= Patience(p, c) - Settlements(es, |es|)
  {
    hide Step, SoundRow, Losing, Patience;
    if |es| == 0 {
      assert After(p, c, es) == c;
      if !c.disabled {
        SoundIsPatient(p, c);
      }
    } else {
      var n := |es| - 1;
      PatienceSpent(p, c, es[..n]);
      SettlementsOfPrefix(es, n, n);
      var mid := After(p, c, es[..n]);
      if mid.disabled {
        DisabledAfter(p, c, es, n);
      } else if es[n].Some? {
        PatienceShrinks(p, mid, es[n].value);
      } else {
        PatienceWaits(p, mid);
      }
    }
  }

  lemma SoundIsPatient(p: Params, c: Campaign)
    requires p.Valid() && SoundRow(p, c) && !c.disabled
    ensures 1 <= Patience(p, c) <= Max(0, c.bankroll - p.disableThreshold) + p.disableAfter
  {
  }

  lemma {:induction false} SettlementsOfPrefix(es: seq<Option<Event>>, n: nat, j: nat)
    requires j <= n <= |es|
    ensures Settlements(es[..n], j) == Settlements(es, j)
  {
    if j != 0 {
      SettlementsOfPrefix(es, n, j - 1);
    }
  }

  /** Bounded-time disabling: with a positive threshold T and limit N, a campaign
      with bankroll b is disabled by any max(0, b - T) + N losses, however many
      idle ticks lie between them. */
  lemma DisabledWithin(p: Params, c: Campaign, es: seq<Option<Event>>)
    requires p.Valid() && p.disableThreshold > 0 && SoundRow(p, c) && AllLosing(p, es)
    requires Settlements(es, |es|) >= Max(0, c.bankroll - p.disableThreshold) + p.disableAfter
    ensures After(p, c, es).disabled
  {
    hide Step, SoundRow, Losing, Patience;
    PatienceSpent(p, c, es);
    if !c.disabled {
      SoundIsPatient(p, c);
    }
  }

  lemma LowStep(p: Params, c: Campaign, e: Option<Event>)
    requires p.Valid() && SoundRow(p, c) && !c.disabled && c.bankroll < p.disableThreshold
    requires e.Some? ==> Losing(p, e.value)
    ensures var d := Step(p, c, e);
      SoundRow(p, d) && d.bankroll < p.disableThreshold && (!d.disabled ==> c.streak < d.streak < p.disableAfter)
  {
    hide NewBankroll, NewCredibility, Losing;
    if e.Some? {
      LosingShrinks(p, c, e.value);
    }
    StepSound(p, c, e);
    StepFlag(p, c, e);
  }

  /** Below the threshold the ticks alone count: a campaign that never wins there
      again, or only at a loss, is disabled within N ticks. */
  lemma {:induction false} LowIsDisabledWithin(p: Params, c: Campaign, es: seq<Option<Event>>)
    requires p.Valid() && SoundRow(p, c) && c.bankroll < p.disableThreshold && AllLosing(p, es)
    ensures var d := After(p, c, es);
      && (!d.disabled ==> SoundRow(p, d) && d.bankroll < p.disableThreshold && c.streak + |es| <= d.streak < p.disableAfter)
      && (|es| >= p.disableAfter ==> d.disabled)
  {
    hide Step, Losing;
    if |es| != 0 {
      var n := |es| - 1;
      LowIsDisabledWithin(p, c, es[..n]);
      var mid := After(p, c, es[..n]);
      if mid.disabled {
        DisabledAfter(p, c, es, n);
      } else {
        LowStep(p, mid, es[n]);
      }
    }
  }

  // ----- the bankroll halves -----

  /** The bankroll after these settlements. */
  function BankrollAfter(p: Params, bankroll: int, es: seq<Event>): int {
    if |es| == 0 then bankroll else NewBankroll(p, BankrollAfter(p, bankroll, es[..|es| - 1]), es[|es| - 1])
  }

  /** The settlements among these ticks. */
  ghost function SettledEvents(es: seq<Option<Event>>): (r: seq<Event>)
    ensures |r| == Settlements(es, |es|)
  {
    if |es| == 0 then [] else
    var n := |es| - 1;
    SettlementsOfPrefix(es, n, n);
    SettledEvents(es[..n]) + if es[n].Some? then [es[n].value] else []
  }

  ghost predicate EachPunished(es: seq<Event>) {
    forall i :: 0 <= i < |es| ==> Punished(es[i].effect)
  }

  lemma {:induction false} SettledPunished(es: seq<Option<Event>>)
    requires AllPunished(es)
    ensures EachPunished(SettledEvents(es))
  {
    if |es| != 0 {
      SettledPunished(es[..|es| - 1]);
    }
  }

  lemma StepMoves(p: Params, c: Campaign, e: Option<Event>)
    requires p.Valid() && 0 <= c.bankroll
    ensures 0 <= Step(p, c, e).bankroll == if e.Some? then NewBankroll(p, c.bankroll, e.value) else c.bankroll
  {
    if e.Some? {
      FactorBounds(p, c.bankroll, e.value);
    }
    hide NewBankroll, NewCredibility;
  }

  /** Only settlements move a bankroll. */
  lemma {:induction false} OnlySettlementsMove(p: Params, c: Campaign, es: seq<Option<Event>>)
    requires p.Valid() && 0 <= c.bankroll
    ensures 0 <= After(p, c, es).bankroll == BankrollAfter(p, c.bankroll, SettledEvents(es))
  {
    hide Step, NewBankroll;
    if |es| != 0 {
      var n := |es| - 1;
      OnlySettlementsMove(p, c, es[..n]);
      StepMoves(p, After(p, c, es[..n]), es[n]);
      if es[n].Some? {
        assert SettledEvents(es)[..|SettledEvents(es)| - 1] == SettledEvents(es[..n]);
      } else {
        assert SettledEvents(es) == SettledEvents(es[..n]);
      }
    }
  }

  lemma {:induction false} BankrollSplit(p: Params, bankroll: int, es: seq<Event>, n: nat)
    requires n <= |es|
    ensures BankrollAfter(p, bankroll, es) == BankrollAfter(p, BankrollAfter(p, bankroll, es[..n]), es[n..])
    decreases |es|
  {
    hide NewBankroll;
    if n == |es| {
      assert es[..n] == es;
    } else {
      var m := |es| - 1;
      BankrollSplit(p, bankroll, es[..m], n);
      assert es[..m][..n] == es[..n] && es[..m][n..] == es[n..][..|es[n..]| - 1];
    }
  }

  /** `n` punishments leave at most `num` parts in a million of any bankroll. */
  ghost predicate LeavesAtMost(p: Params, n: nat, num: nat) {
    forall b: nat, es: seq<Event> :: |es| == n && EachPunished(es) ==>
      0 <= BankrollAfter(p, b, es) && BankrollAfter(p, b, es) * 1_000_000 <= b * num
  }

  lemma WorstIsBelow(x: nat, y: nat)
    requires y * ONE <= x * WORST
    ensures y * 1_000_000 <= x * 995_001
  {
  }

  lemma LeavesOnce(p: Params)
    requires p.Valid()
    ensures LeavesAtMost(p, 1, 995_001)
  {
    forall b: nat, es: seq<Event> | |es| == 1 && EachPunished(es)
      ensures 0 <= BankrollAfter(p, b, es) && BankrollAfter(p, b, es) * 1_000_000 <= b * 995_001
    {
      assert BankrollAfter(p, b, es[..0]) == b;
      hide NewBankroll;
      PunishedShrinks(p, b, es[0]);
      WorstIsBelow(b, NewBankroll(p, b, es[0]));
    }
  }

  lemma LeavesBoth(p: Params, n: nat, num: nat, m: nat, num': nat, both: nat)
    requires LeavesAtMost(p, n, num) && LeavesAtMost(p, m, num')
    requires num * num' <= both * 1_000_000
    ensures LeavesAtMost(p, n + m, both)
  {
    hide BankrollAfter;
    forall b: nat, es: seq<Event> | |es| == n + m && EachPunished(es)
      ensures 0 <= BankrollAfter(p, b, es) && BankrollAfter(p, b, es) * 1_000_000 <= b * both
    {
      BankrollSplit(p, b, es, n);
      assert EachPunished(es[..n]) && EachPunished(es[n..]);
      var mid := BankrollAfter(p, b, es[..n]);
      ScaleTwice(b, mid, BankrollAfter(p, mid, es[n..]), num, num', both);
    }
  }

  lemma ScaleTwice(x: nat, y: nat, z: nat, a: nat, b: nat, ab: nat)
    requires y * 1_000_000 <= x * a && z * 1_000_000 <= y * b && a * b <= ab * 1_000_000
    ensures z * 1_000_000 <= x * ab
  {
    assert (y * 1_000_000) * b <= (x * a) * b;
    assert (x * a) * b == x * (a * b);
    assert x * (a * b) <= x * (ab * 1_000_000);
  }

  /** A hundred and forty punishments halve any bankroll. */
  lemma Halving(p: Params)
    requires p.Valid()
    ensures LeavesAtMost(p, 140, 500_000)
  {
    LeavesOnce(p);
    LeavesBoth(p, 1, 995_001, 1, 995_001, 990_027);
    LeavesBoth(p, 2, 990_027, 2, 990_027, 980_154);
    LeavesBoth(p, 4, 980_154, 4, 980_154, 960_702);
    LeavesBoth(p, 8, 960_702, 8, 960_702, 922_949);
    LeavesBoth(p, 16, 922_949, 16, 922_949, 851_835);
    LeavesBoth(p, 32, 851_835, 32, 851_835, 725_623);
    LeavesBoth(p, 64, 725_623, 64, 725_623, 526_529);
    LeavesBoth(p, 128, 526_529, 8, 960_702, 505_838);
    LeavesBoth(p, 136, 505_838, 4, 980_154, 500_000);
  }

  lemma {:induction false} HalvedAfter(p: Params, b: nat, es: seq<Event>, m: nat)
    requires p.Valid() && |es| == 140 * m && EachPunished(es)
    ensures 0 <= BankrollAfter(p, b, es) && BankrollAfter(p, b, es) * Pow(2, m) <= b
    decreases m
  {
    hide NewBankroll, LeavesAtMost;
    if m != 0 {
      var mid := BankrollAfter(p, b, es[..140]);
      assert EachPunished(es[..140]) && EachPunished(es[140..]);
      assert 0 <= mid && 2 * mid <= b by { HalvedOnce(p, b, es[..140]); }
      HalvedAfter(p, mid, es[140..], m - 1);
      BankrollSplit(p, b, es, 140);
      DoubleBound(b, mid, BankrollAfter(p, b, es), Pow(2, m - 1));
    }
  }

  lemma HalvedOnce(p: Params, b: nat, es: seq<Event>)
    requires p.Valid() && |es| == 140 && EachPunished(es)
    ensures 0 <= BankrollAfter(p, b, es) && 2 * BankrollAfter(p, b, es) <= b
  {
    hide BankrollAfter;
    Halving(p);
  }

  lemma DoubleBound(x: int, y: int, z: int, w: int)
    requires 2 * y <= x && z * w <= y
    ensures z * (2 * w) <= x
  {
    assert z * (2 * w) == 2 * (z * w);
  }

  lemma BelowThreshold(b: int, t: int, w: int, c: int)
    requires b * w <= c < t * w && 0 < w
    ensures b < t
  {
    assert (t - b) * w > 0;
  }

  // ----- from the bankroll to the disabling -----

  lemma {:induction false} AfterSplit(p: Params, c: Campaign, es: seq<Option<Event>>, n: nat)
    requires n <= |es|
    ensures After(p, c, es) == After(p, After(p, c, es[..n]), es[n..])
    decreases |es|
  {
    hide Step;
    if n == |es| {
      assert es[..n] == es;
    } else {
      var m := |es| - 1;
      AfterSplit(p, c, es[..m], n);
      assert es[..m][..n] == es[..n] && es[..m][n..] == es[n..][..|es[n..]| - 1];
    }
  }

  lemma {:induction false} SettlementsSplit(es: seq<Option<Event>>, n: nat, j: nat)
    requires n <= j <= |es|
    ensures Settlements(es, j) == Settlements(es, n) + Settlements(es[n..], j - n)
  {
    if n < j {
      SettlementsSplit(es, n, j - 1);
    }
  }

  /** The first ticks that settle exactly `w` times; more settlements follow at once. */
  lemma {:induction false} FirstSettlements(es: seq<Option<Event>>, j: nat, w: nat) returns (n: nat)
    requires j <= |es| && w <= Settlements(es, j)
    ensures n <= j && Settlements(es, n) == w
    ensures w < Settlements(es, j) ==> n < j && es[n].Some?
  {
    if Settlements(es, j) == w {
      n := j;
    } else if Settlements(es, j - 1) == w {
      n := j - 1;
    } else {
      n := FirstSettlements(es, j - 1, w);
    }
  }

  lemma {:induction false} AfterSound(p: Params, c: Campaign, es: seq<Option<Event>>)
    requires p.Valid() && SoundRow(p, c)
    ensures After(p, c, es).disabled || SoundRow(p, After(p, c, es))
  {
    hide SoundRow;
    if |es| != 0 {
      var n := |es| - 1;
      AfterSound(p, c, es[..n]);
      if After(p, c, es[..n]).disabled {
        DisabledAfter(p, c, es, n);
      } else {
        StepSound(p, After(p, c, es[..n]), es[n]);
      }
    }
  }

  /** After 140 m punishments a bankroll below 2^m thresholds is below one. */
  lemma HalvedBelow(p: Params, c: Campaign, es: seq<Option<Event>>, m: nat)
    requires p.Valid() && 0 <= c.bankroll < p.disableThreshold * Pow(2, m)
    requires AllPunished(es) && Settlements(es, |es|) == 140 * m
    ensures After(p, c, es).bankroll < p.disableThreshold
  {
    hide After, BankrollAfter;
    SettledPunished(es);
    OnlySettlementsMove(p, c, es);
    HalvedAfter(p, c.bankroll, SettledEvents(es), m);
    PowPositive(2, m);
    BelowThreshold(After(p, c, es).bankroll, p.disableThreshold, Pow(2, m), c.bankroll);
  }

  /** Disabling in logarithmic time: if the bankroll is below 2^m thresholds,
      140 m + N punishments are enough, however many idle ticks lie between them. */
  lemma DisabledWithinHalvings(p: Params, c: Campaign, es: seq<Option<Event>>, m: nat)
    requires p.Valid() && p.disableThreshold > 0 && SoundRow(p, c) && AllPunished(es)
    requires c.bankroll < p.disableThreshold * Pow(2, m)
    requires Settlements(es, |es|) >= 140 * m + p.disableAfter
    ensures After(p, c, es).disabled
  {
    assert 0 <= c.bankroll;
    hide After, Step, SoundRow, Losing, Punished, Settlements, Pow;
    var n := FirstSettlements(es, |es|, 140 * m);
    SettlementsOfPrefix(es, n, n);
    SettlementsSplit(es, n, |es|);
    AfterSplit(p, c, es, n);
    AfterSound(p, c, es[..n]);
    var mid := After(p, c, es[..n]);
    if mid.disabled {
      DisabledAfter(p, c, es, n);
    } else {
      HalvedBelow(p, c, es[..n], m);
      PunishedLose(p, es[n..]);
      DisabledWithin(p, mid, es[n..]);
    }
  }

  // ----- losing every time, in a run -----

  lemma {:induction false} LifeIsAfter(p: Params, rows: seq<Campaign>, evs: seq<Option<Event>>, i: nat, j: nat)
    requires IsLife(p, rows, evs) && i <= j <= |evs|
    ensures rows[j] == After(p, rows[i], evs[i..j])
    decreases j
  {
    hide Step;
    if i < j {
      LifeIsAfter(p, rows, evs, i, j - 1);
      assert Moves(p, rows, evs, j - 1);
      assert evs[i..j][..j - 1 - i] == evs[i..j - 1];
    }
  }

  lemma PrefixRow(p: Params, rows: seq<Campaign>, evs: seq<Option<Event>>, i: nat, j: nat, n: nat)
    requires IsLife(p, rows, evs) && i + n <= j <= |evs|
    ensures rows[i + n] == After(p, rows[i], evs[i..j][..n])
  {
    LifeIsAfter(p, rows, evs, i, i + n);
    assert evs[i..i + n] == evs[i..j][..n];
  }

  lemma SettledWhileEnabled(p: Params, rows: seq<Campaign>, evs: seq<Option<Event>>, t: nat)
    requires IsLife(p, rows, evs) && t < |evs| && evs[t].Some?
    ensures !rows[t].disabled
  {
    assert Moves(p, rows, evs, t);
  }

  /** If `most` settlements of a window disable a campaign, no window has more of
      them: a disabled campaign is not settled again. */
  lemma NoMoreThan(p: Params, rows: seq<Campaign>, evs: seq<Option<Event>>, i: nat, j: nat, most: nat)
    requires IsLife(p, rows, evs) && i <= j <= |evs|
    requires forall n: nat :: n <= j - i && Settlements(evs[i..j][..n], n) >= most ==> After(p, rows[i], evs[i..j][..n]).disabled
    ensures Settlements(evs[i..j], j - i) <= most
    ensures Settlements(evs[i..j], j - i) == most ==> rows[j].disabled
  {
    hide After, Step;
    var es := evs[i..j];
    assert es[..j - i] == es;
    LifeIsAfter(p, rows, evs, i, j);
    if Settlements(es, j - i) > most {
      var n := FirstSettlements(es, j - i, most);
      SettledWhileEnabled(p, rows, evs, i + n);
      SettlementsOfPrefix(es, n, n);
      PrefixRow(p, rows, evs, i, j, n);
    }
  }

  lemma LosingLifeEnds(p: Params, rows: seq<Campaign>, evs: seq<Option<Event>>, i: nat, j: nat)
    requires IsLife(p, rows, evs) && i <= j <= |evs| && p.disableThreshold > 0 && AllLosing(p, evs[i..j])
    ensures var most := Max(0, rows[i].bankroll - p.disableThreshold) + p.disableAfter;
      && Settlements(evs[i..j], j - i) <= most
      && (Settlements(evs[i..j], j - i) == most ==> rows[j].disabled)
  {
    hide After, Step, Losing;
    var most := Max(0, rows[i].bankroll - p.disableThreshold) + p.disableAfter;
    LifeSound(p, rows, evs, i);
    forall n: nat | n <= j - i && Settlements(evs[i..j][..n], n) >= most
      ensures After(p, rows[i], evs[i..j][..n]).disabled
    {
      DisabledWithin(p, rows[i], evs[i..j][..n]);
    }
    NoMoreThan(p, rows, evs, i, j, most);
  }

  lemma PunishedLifeEnds(p: Params, rows: seq<Campaign>, evs: seq<Option<Event>>, i: nat, j: nat, m: nat)
    requires IsLife(p, rows, evs) && i <= j <= |evs| && p.disableThreshold > 0 && AllPunished(evs[i..j])
    requires rows[i].bankroll < p.disableThreshold * Pow(2, m)
    ensures Settlements(evs[i..j], j - i) <= 140 * m + p.disableAfter
    ensures Settlements(evs[i..j], j - i) == 140 * m + p.disableAfter ==> rows[j].disabled
  {
    hide After, Step;
    var most := 140 * m + p.disableAfter;
    LifeSound(p, rows, evs, i);
    forall n: nat | n <= j - i && Settlements(evs[i..j][..n], n) >= most
      ensures After(p, rows[i], evs[i..j][..n]).disabled
    {
      DisabledWithinHalvings(p, rows[i], evs[i..j][..n], m);
    }
    NoMoreThan(p, rows, evs, i, j, most);
  }

  /** What ticks `i` to `j` of a run settle for campaign `k`. */
  ghost function Window(ls: seq<Ledger>, ins: seq<Input>, k: string, i: nat, j: nat): (es: seq<Option<Event>>)
    requires |ls| == |ins| + 1 && i <= j <= |ins|
    ensures |es| == j - i
  {
    EventsOfRun(ls, ins, k)[i..j]
  }

  /** In every run: while all settlements of a campaign with bankroll b lose, there
      are at most max(0, b - T) + N of them, at whatever ticks they fall, and that
      many disable it. */
  lemma LosingWinsAreBounded(cfg: Config, registry: seq<string>, ls: seq<Ledger>, ins: seq<Input>, k: string, i: nat, j: nat)
    requires IsRun(cfg, registry, ls, ins) && k in RegistryIds(registry) && i <= j <= |ins|
    requires ResolveSettlementParams(cfg).disableThreshold > 0
    requires AllLosing(ResolveSettlementParams(cfg), Window(ls, ins, k, i, j))
    ensures var p, rows := ResolveSettlementParams(cfg), RowsOfRun(cfg, registry, ls, k);
            var most, wins := Max(0, rows[i].bankroll - p.disableThreshold) + p.disableAfter, Settlements(Window(ls, ins, k, i, j), j - i);
      wins <= most && (wins == most ==> rows[j].disabled)
  {
    RunIsLife(cfg, registry, ls, ins, k);
    LosingLifeEnds(ResolveSettlementParams(cfg), RowsOfRun(cfg, registry, ls, k), EventsOfRun(ls, ins, k), i, j);
  }

  /** In every run: while all settlements of a campaign with bankroll b < 2^m T are
      punished, there are at most 140 m + N of them, and that many disable it. */
  lemma PunishedWinsAreBounded(cfg: Config, registry: seq<string>, ls: seq<Ledger>, ins: seq<Input>, k: string,
                               i: nat, j: nat, m: nat)
    requires IsRun(cfg, registry, ls, ins) && k in RegistryIds(registry) && i <= j <= |ins|
    requires ResolveSettlementParams(cfg).disableThreshold > 0
    requires AllPunished(Window(ls, ins, k, i, j))
    requires RowsOfRun(cfg, registry, ls, k)[i].bankroll < ResolveSettlementParams(cfg).disableThreshold * Pow(2, m)
    ensures var most, wins := 140 * m + ResolveSettlementParams(cfg).disableAfter, Settlements(Window(ls, ins, k, i, j), j - i);
      wins <= most && (wins == most ==> RowsOfRun(cfg, registry, ls, k)[j].disabled)
  {
    RunIsLife(cfg, registry, ls, ins, k);
    PunishedLifeEnds(ResolveSettlementParams(cfg), RowsOfRun(cfg, registry, ls, k), EventsOfRun(ls, ins, k), i, j, m);
  }

  /** In every run: a campaign below the threshold that is settled only at a loss,
      or not at all, is disabled after N ticks. */
  lemma LowBankrollIsDisabled(cfg: Config, registry: seq<string>, ls: seq<Ledger>, ins: seq<Input>, k: string, i: nat, j: nat)
    requires IsRun(cfg, registry, ls, ins) && k in RegistryIds(registry) && i <= j <= |ins|
    requires AllLosing(ResolveSettlementParams(cfg), Window(ls, ins, k, i, j))
    requires RowsOfRun(cfg, registry, ls, k)[i].bankroll < ResolveSettlementParams(cfg).disableThreshold
    requires j - i >= ResolveSettlementParams(cfg).disableAfter
    ensures RowsOfRun(cfg, registry, ls, k)[j].disabled
  {
    hide After, Step, Losing, ResolveSettlementParams;
    var p, rows, evs := ResolveSettlementParams(cfg), RowsOfRun(cfg, registry, ls, k), EventsOfRun(ls, ins, k);
    RunIsLife(cfg, registry, ls, ins, k);
    LifeSound(p, rows, evs, i);
    LifeIsAfter(p, rows, evs, i, j);
    LowIsDisabledWithin(p, rows[i], evs[i..j]);
  }

  lemma {:induction false} EveryTickSettles(es: seq<Option<Event>>, j: nat)
    requires j <= |es| && forall t :: 0 <= t < j ==> es[t].Some?
    ensures Settlements(es, j) == j
  {
    if j != 0 {
      EveryTickSettles(es, j - 1);
    }
  }

  /** In particular no campaign wins and loses more than max(0, b - T) + N ticks in
      a row. */
  lemma LosingStreaksAreBounded(cfg: Config, registry: seq<string>, ls: seq<Ledger>, ins: seq<Input>, k: string, i: nat, j: nat)
    requires IsRun(cfg, registry, ls, ins) && k in RegistryIds(registry) && i <= j <= |ins|
    requires ResolveSettlementParams(cfg).disableThreshold > 0
    requires AllLosing(ResolveSettlementParams(cfg), Window(ls, ins, k, i, j))
    requires forall t :: 0 <= t < j - i ==> Window(ls, ins, k, i, j)[t].Some?
    ensures j - i <= Max(0, RowsOfRun(cfg, registry, ls, k)[i].bankroll - ResolveSettlementParams(cfg).disableThreshold)
                     + ResolveSettlementParams(cfg).disableAfter
  {
    assert |ls| == |ins| + 1;
    hide IsRun, RegistryIds, ResolveSettlementParams, AllLosing, Settlements, EventsOfRun, TableAt;
    LosingWinsAreBounded(cfg, registry, ls, ins, k, i, j);
    EveryTickSettles(Window(ls, ins, k, i, j), j - i);
  }

  /** ... nor wins and is punished more than 140 m + N ticks in a row. */
  lemma PunishedStreaksAreBounded(cfg: Config, registry: seq<string>, ls: seq<Ledger>, ins: seq<Input>, k: string,
                                  i: nat, j: nat, m: nat)
    requires IsRun(cfg, registry, ls, ins) && k in RegistryIds(registry) && i <= j <= |ins|
    requires ResolveSettlementParams(cfg).disableThreshold > 0
    requires AllPunished(Window(ls, ins, k, i, j))
    requires forall t :: 0 <= t < j - i ==> Window(ls, ins, k, i, j)[t].Some?
    requires RowsOfRun(cfg, registry, ls, k)[i].bankroll < ResolveSettlementParams(cfg).disableThreshold * Pow(2, m)
    ensures j - i <= 140 * m + ResolveSettlementParams(cfg).disableAfter
  {
    assert |ls| == |ins| + 1;
    hide IsRun, RegistryIds, ResolveSettlementParams, AllPunished, Settlements, Pow, EventsOfRun, TableAt;
    PunishedWinsAreBounded(cfg, registry, ls, ins, k, i, j, m);
    EveryTickSettles(Window(ls, ins, k, i, j), j - i);
  }

  /** The positive threshold is needed: with threshold zero no run ever disables. */
  lemma ZeroThresholdDisablesNobody(cfg: Config, registry: seq<string>, ls: seq<Ledger>, ins: seq<Input>, k: string, j: nat)
    requires IsRun(cfg, registry, ls, ins) && k in RegistryIds(registry) && j < |ls|
    requires ResolveSettlementParams(cfg).disableThreshold == 0
    ensures !RowsOfRun(cfg, registry, ls, k)[j].disabled
  {
    RunIsLife(cfg, registry, ls, ins, k);
    LifeSound(ResolveSettlementParams(cfg), RowsOfRun(cfg, registry, ls, k), EventsOfRun(ls, ins, k), j);
  }

  // ----- an advantage is kept -----

  /** `b` has at least the credibility and bankroll of `a` and is no nearer to
      being disabled. */
  predicate Outranks(b: Campaign, a: Campaign) {
    && a.bankroll <= b.bankroll && a.credibility <= b.credibility
    && (!a.disabled ==> !b.disabled && b.streak <= a.streak)
  }

  lemma CredibilityMonotone(p: Params, a: int, b: int, e: Event)
    requires p.Valid() && a <= b
    ensures NewCredibility(p, a, e) <= NewCredibility(p, b, e)
  {
    var low, high := Clamp(a, 0, ONE), Clamp(b, 0, ONE);
    MulContracts(p.learningRate, Accuracy(p, e) - high, high - low);
    assert RawCredibility(p, low, e) <= RawCredibility(p, high, e);
  }

  lemma BankrollMonotone(p: Params, a: int, b: int, e: Event)
    requires a <= b
    ensures NewBankroll(p, a, e) <= NewBankroll(p, b, e)
  {
    MulMonotone(Max(0, a), Max(0, RawFactor(p, e)), Max(0, b), Max(0, RawFactor(p, e)));
  }

  lemma StepKeepsAdvantage(p: Params, a: Campaign, b: Campaign, e: Option<Event>)
    requires p.Valid() && Outranks(b, a)
    ensures Outranks(Step(p, b, e), Step(p, a, e))
  {
    if e.Some? {
      CredibilityMonotone(p, a.credibility, b.credibility, e.value);
      BankrollMonotone(p, a.bankroll, b.bankroll, e.value);
    }
    hide NewBankroll, NewCredibility;
  }

  /** With the same settlements at the same ticks, a campaign that starts with an
      advantage keeps it: it never ends with less credibility or bankroll, and is
      disabled only if the other is. */
  lemma {:induction false} AdvantageKept(p: Params, a: Campaign, b: Campaign, es: seq<Option<Event>>)
    requires p.Valid() && Outranks(b, a)
    ensures Outranks(After(p, b, es), After(p, a, es))
  {
    hide Step, Outranks;
    if |es| != 0 {
      AdvantageKept(p, a, b, es[..|es| - 1]);
      StepKeepsAdvantage(p, After(p, a, es[..|es| - 1]), After(p, b, es[..|es| - 1]), es[|es| - 1]);
    }
  }
}
