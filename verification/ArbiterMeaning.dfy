/** What the numbers and documents of a policy selection are, read off its inputs:
    costs, expected objectives, rows, failures and the receipt. */
module ArbiterMeaning {
  import opened Results
  import opened Q32
  import opened Ordering
  import opened Text
  import opened PolicyArbiter
  import opened ArbiterLaws

  // ----- cost -----

  predicate ValidModel(m: CostModel) {
    m.base >= 0 && m.perStep >= 0 && m.perItem >= 0 && m.perByteRead >= 0 && m.perByteWritten >= 0
  }

  predicate ValidCounters(t: Trace) {
    t.steps >= 0 && t.items >= 0 && t.bytesRead >= 0 && t.bytesWritten >= 0
  }

  lemma ChargeNonNegative(rate: int, n: int)
    requires rate >= 0 && n >= 0
    ensures Mul(rate, n) >= 0
  {
    MulMonotone(0, 0, rate, n);
  }

  /** A trace that uses nothing costs the base. */
  lemma IdleCost(m: CostModel, t: Trace)
    requires ValidModel(m) && t.steps == t.items == t.bytesRead == t.bytesWritten == 0
    ensures CostFromTrace(t, m) == m.base
  {
  }

  lemma CostSplits(m: CostModel, t: Trace)
    requires ValidModel(m) && ValidCounters(t)
    ensures CostFromTrace(t, m) == m.base + Mul(m.perStep, t.steps) + Mul(m.perItem, t.items)
                                   + Mul(m.perByteRead, t.bytesRead) + Mul(m.perByteWritten, t.bytesWritten)
  {
    ChargeNonNegative(m.perStep, t.steps);
    ChargeNonNegative(m.perItem, t.items);
    ChargeNonNegative(m.perByteRead, t.bytesRead);
    ChargeNonNegative(m.perByteWritten, t.bytesWritten);
    hide Mul;
  }

  /** Two traces that differ in one counter only differ in cost by the charges `new`
      and `old` of that counter at its own rate, each rounded down. */
  lemma CounterCharges(m: CostModel, t: Trace, n: int, old': int, new': int)
    requires ValidModel(m) && ValidCounters(t) && n >= 0
    ensures IsFloor(new', m.perStep * n, ONE) && IsFloor(old', m.perStep * t.steps, ONE) ==>
      CostFromTrace(t.(steps := n), m) - CostFromTrace(t, m) == new' - old'
    ensures IsFloor(new', m.perItem * n, ONE) && IsFloor(old', m.perItem * t.items, ONE) ==>
      CostFromTrace(t.(items := n), m) - CostFromTrace(t, m) == new' - old'
    ensures IsFloor(new', m.perByteRead * n, ONE) && IsFloor(old', m.perByteRead * t.bytesRead, ONE) ==>
      CostFromTrace(t.(bytesRead := n), m) - CostFromTrace(t, m) == new' - old'
    ensures IsFloor(new', m.perByteWritten * n, ONE) && IsFloor(old', m.perByteWritten * t.bytesWritten, ONE) ==>
      CostFromTrace(t.(bytesWritten := n), m) - CostFromTrace(t, m) == new' - old'
  {
    MulIff(new', m.perStep, n);
    MulIff(old', m.perStep, t.steps);
    MulIff(new', m.perItem, n);
    MulIff(old', m.perItem, t.items);
    MulIff(new', m.perByteRead, n);
    MulIff(old', m.perByteRead, t.bytesRead);
    MulIff(new', m.perByteWritten, n);
    MulIff(old', m.perByteWritten, t.bytesWritten);
    CostSplits(m, t);
    CostSplits(m, t.(steps := n));
    CostSplits(m, t.(items := n));
    CostSplits(m, t.(bytesRead := n));
    CostSplits(m, t.(bytesWritten := n));
    hide Mul, IsFloor, CostFromTrace;
  }

  predicate UsesNoMore(a: Trace, b: Trace) {
    a.steps <= b.steps && a.items <= b.items && a.bytesRead <= b.bytesRead && a.bytesWritten <= b.bytesWritten
  }

  /** Some counter of `a` is charged less than that of `b`. */
  predicate Saves(m: CostModel, a: Trace, b: Trace) {
    || Mul(m.perStep, a.steps) < Mul(m.perStep, b.steps)
    || Mul(m.perItem, a.items) < Mul(m.perItem, b.items)
    || Mul(m.perByteRead, a.bytesRead) < Mul(m.perByteRead, b.bytesRead)
    || Mul(m.perByteWritten, a.bytesWritten) < Mul(m.perByteWritten, b.bytesWritten)
  }

  lemma NoMoreIsCheaper(m: CostModel, a: Trace, b: Trace)
    requires ValidModel(m) && ValidCounters(a) && ValidCounters(b) && UsesNoMore(a, b)
    ensures CostFromTrace(a, m) <= CostFromTrace(b, m)
    ensures Saves(m, a, b) ==> CostFromTrace(a, m) < CostFromTrace(b, m)
  {
    CostSplits(m, a);
    CostSplits(m, b);
    MulMonotoneRight(m.perStep, a.steps, b.steps);
    MulMonotoneRight(m.perItem, a.items, b.items);
    MulMonotoneRight(m.perByteRead, a.bytesRead, b.bytesRead);
    MulMonotoneRight(m.perByteWritten, a.bytesWritten, b.bytesWritten);
    hide Mul, CostFromTrace;
  }

  /** The cost of an accepted proposal: its own when no traces are given, otherwise
      that of its trace. */
  lemma CostMeaning(s: Setting, jOld: int, p: Proposal)
    requires RowOf(s, jOld, p).Ok?
    ensures s.traces.None? ==> RowOf(s, jOld, p).value.cost == p.computeCost
    ensures s.traces.Some? ==>
      && p.traceHash in s.traces.value && ValidCounters(s.traces.value[p.traceHash])
      && RowOf(s, jOld, p).value.cost == CostFromTrace(s.traces.value[p.traceHash], s.policy.model)
  {
    hide PredictDelta, CheckPlan, CostFromTrace;
  }

  /** With equal plan scores, a proposal whose trace uses no more of anything is never
      behind on cost, and once that saves a charge it is ahead and the other does not
      win. */
  lemma CheaperTraceWins(s: Setting, ps: seq<Proposal>, report: Option<Metrics>, profile: Option<Profile>, i: nat, j: nat)
    requires Arbitrate(s, ps, report, profile).Ok? && s.traces.Some? && i < |ps| && j < |ps|
    requires PlanScore(s, ps[i]) == PlanScore(s, ps[j])
    requires ps[i].traceHash in s.traces.value && ps[j].traceHash in s.traces.value
    requires UsesNoMore(s.traces.value[ps[i].traceHash], s.traces.value[ps[j].traceHash])
    ensures RankedRows(s, ps, report, profile).Ok? && |RankedRows(s, ps, report, profile).value| == |ps|
    ensures var rows := RankedRows(s, ps, report, profile).value;
      && rows[i].expectedJ == rows[j].expectedJ && rows[i].cost <= rows[j].cost
      && (Saves(s.policy.model, s.traces.value[ps[i].traceHash], s.traces.value[ps[j].traceHash]) ==>
            Ahead(rows[i], rows[j]) && !FirstBest(rows, j))
  {
    InputsChecked(s, ps, report, profile);
    PolicyHasModel(s.policy);
    ReceiptIs(s, ps, report, profile);
    hide Arbitrate, RowOf, PlanScore, UsesNoMore, Saves, ValidPolicy, ValidDescriptor, ValidModel, Ahead;
    var jOld := CurrentJ(report, profile).value;
    RowsPointwise(s, jOld, ps);
    CheaperRow(s, jOld, ps[i], ps[j]);
  }

  lemma CheaperRow(s: Setting, jOld: int, p: Proposal, q: Proposal)
    requires RowOf(s, jOld, p).Ok? && RowOf(s, jOld, q).Ok? && s.traces.Some? && ValidModel(s.policy.model)
    requires PlanScore(s, p) == PlanScore(s, q)
    requires p.traceHash in s.traces.value && q.traceHash in s.traces.value
    requires UsesNoMore(s.traces.value[p.traceHash], s.traces.value[q.traceHash])
    ensures var a, b := RowOf(s, jOld, p).value, RowOf(s, jOld, q).value;
      && a.expectedJ == b.expectedJ && a.cost <= b.cost
      && (Saves(s.policy.model, s.traces.value[p.traceHash], s.traces.value[q.traceHash]) ==> Ahead(a, b))
  {
    hide RowOf, PlanScore, CommonScore, UsesNoMore, Saves, CostFromTrace, ValidCounters, ValidModel, StringLeq;
    CostMeaning(s, jOld, p);
    CostMeaning(s, jOld, q);
    ExpectedSplits(s, jOld, p);
    ExpectedSplits(s, jOld, q);
    NoMoreIsCheaper(s.policy.model, s.traces.value[p.traceHash], s.traces.value[q.traceHash]);
  }

  lemma PolicyHasModel(p: SelectionPolicy)
    requires ValidPolicy(p)
    ensures ValidModel(p.model)
  {
  }

  // ----- expected objective -----

  /** The predictor reads the observation hash, or the report's if there is none. */
  predicate ObservedAs(d: Descriptor, observation: Option<string>) {
    && (HasHash(d, "observation_hash") ==> observation == d.fields["observation_hash"])
    && (!HasHash(d, "observation_hash") && HasHash(d, "observation_report_hash") ==>
          observation == d.fields["observation_report_hash"])
    && (!HasHash(d, "observation_hash") && !HasHash(d, "observation_report_hash") ==> observation == None)
  }

  /** `charge` is a weight, zero when absent, times the head of a hash, rounded down. */
  predicate HeadTerm(o: Oracles, w: Weight, hash: string, charge: int) {
    && !w.Malformed? && o.head(hash).Some?
    && (w.Absent? ==> charge == 0)
    && (w.Q? ==> IsFloor(charge, w.q * o.head(hash).value, ONE))
  }

  /** The expected objective is the current one plus the predicted change, and that
      is bias, plan term and observation term, or nothing at all. */
  lemma ExpectedMeaning(s: Setting, jOld: int, p: Proposal, observation: Option<string>, plan: int, seen: int)
    requires RowOf(s, jOld, p).Ok? && ObservedAs(s.descriptor, observation)
    requires s.predictor.Some? && observation.Some? ==>
      && HeadTerm(s.o, s.predictor.value.planWeight, p.planHash, plan)
      && HeadTerm(s.o, s.predictor.value.observationWeight, observation.value, seen)
    ensures var row := RowOf(s, jOld, p).value;
      && row.expectedJ == jOld + row.expectedDelta
      && (s.predictor.None? || observation.None? ==> row.expectedDelta == 0)
      && (s.predictor.Some? && observation.Some? ==>
            && !s.predictor.value.bias.Malformed?
            && row.expectedDelta == (if s.predictor.value.bias.Q? then s.predictor.value.bias.q else 0) + plan + seen)
  {
    hide Cost, CheckPlan, ValidProposal, IsHash;
    assert observation == ObservationHash(s.descriptor);
    if s.predictor.Some? && observation.Some? {
      TermIs(s.o, s.predictor.value.planWeight, p.planHash, plan);
      TermIs(s.o, s.predictor.value.observationWeight, observation.value, seen);
      hide HeadTerm, Mul;
    }
  }

  lemma TermIs(o: Oracles, w: Weight, hash: string, charge: int)
    requires HeadTerm(o, w, hash, charge)
    ensures charge == Mul(Number(w), o.head(hash).value)
  {
    MulIff(charge, Number(w), o.head(hash).value);
  }

  // ----- rows -----

  /** A row repeats its proposal, and is bound to the descriptor by a hash of all it
      says. */
  lemma RowMeaning(s: Setting, jOld: int, p: Proposal)
    requires RowOf(s, jOld, p).Ok?
    ensures var row := RowOf(s, jOld, p).value;
      && row.branchId == p.branchId && row.programId == p.programId
      && row.traceHash == p.traceHash && row.planHash == p.planHash
      && row.proposalHash == s.o.hash(ProposalDoc(p))
      && row.binding == s.o.hash(BindingDoc(s.o.hash(DescriptorDoc(s.descriptor)), row.(proposalHash := "", binding := "")))
  {
    hide Cost, CheckPlan, PredictDelta, ValidProposal;
  }

  /** `sha256:` and any 64 characters. */
  lemma HashMeaning(s: string)
    ensures IsHash(s) <==> exists t :: |t| == 64 && s == "sha256:" + t
  {
    if IsHash(s) {
      assert s == "sha256:" + s[7..];
    }
  }

  lemma BranchMeaning(s: string)
    ensures IsBranch(s) <==> exists c, d :: s == ['b', c, d] && c in "0123456789" && d in "0123456789"
  {
    if IsBranch(s) {
      assert s == ['b', s[1], s[2]];
      DigitMeaning(s[1]);
      DigitMeaning(s[2]);
    }
    if c, d :| s == ['b', c, d] && c in "0123456789" && d in "0123456789" {
      DigitMeaning(c);
      DigitMeaning(d);
    }
  }

  lemma DigitMeaning(c: char)
    ensures '0' <= c <= '9' <==> c in "0123456789"
  {
    if '0' <= c <= '9' {
      assert "0123456789"[c as int - 48] == c;
    }
  }

  ghost predicate AreHashes(d: Descriptor, keys: set<string>) {
    forall key :: key in keys ==> HasHash(d, key)
  }

  predicate IsNewForm(d: Descriptor) {
    !(d.fields.Keys !! {"descriptor_id", "observation_report_hash", "issue_bundle_hash"})
  }

  /** The header of a descriptor. */
  predicate HasHeader(d: Descriptor) {
    d.schema == "inputs_descriptor_v1" && d.tick.Some? && 0 <= d.tick.value
  }

  /** A descriptor that has one of three keys must have four hashes. */
  lemma NewDescriptorMeaning(d: Descriptor)
    requires IsNewForm(d)
    ensures ValidDescriptor(d) <==>
      HasHeader(d) && AreHashes(d, {"descriptor_id", "state_hash", "observation_report_hash", "issue_bundle_hash"})
  {
    hide HasHash;
    assert "descriptor_id" in d.fields || "observation_report_hash" in d.fields || "issue_bundle_hash" in d.fields;
    if AreHashes(d, {"descriptor_id", "state_hash", "observation_report_hash", "issue_bundle_hash"}) {
      assert HasHash(d, "descriptor_id") && HasHash(d, "state_hash");
      assert HasHash(d, "observation_report_hash") && HasHash(d, "issue_bundle_hash");
    }
  }

  const OLD_KEYS: set<string> := {"state_hash", "repo_tree_id", "observation_hash", "issues_hash", "registry_hash", "predictor_id",
                                  "j_profile_id", "opcode_table_id", "budget_spec_id", "determinism_contract_id"}

  /** Any other must have ten, and a list of one to a hundred programs. */
  lemma OldDescriptorMeaning(d: Descriptor)
    requires !IsNewForm(d)
    ensures ValidDescriptor(d) <==>
      && HasHeader(d) && AreHashes(d, OLD_KEYS)
      && d.programIds.Some? && 0 < |d.programIds.value| < 101 && forall p :: p in d.programIds.value ==> IsHash(p)
  {
    hide HasHash, IsHash;
    assert "descriptor_id" !in d.fields && "observation_report_hash" !in d.fields && "issue_bundle_hash" !in d.fields;
    if AreHashes(d, OLD_KEYS) {
      assert HasHash(d, "state_hash") && HasHash(d, "repo_tree_id") && HasHash(d, "observation_hash");
      assert HasHash(d, "issues_hash") && HasHash(d, "registry_hash") && HasHash(d, "predictor_id");
      assert HasHash(d, "j_profile_id") && HasHash(d, "opcode_table_id");
      assert HasHash(d, "budget_spec_id") && HasHash(d, "determinism_contract_id");
    }
  }

  /** The trace of a proposal is known, valid, and what its hash and its descriptor say. */
  predicate TraceFits(s: Setting, p: Proposal) {
    s.traces.Some? ==>
      && p.traceHash in s.traces.value
      && TraceFields(s.traces.value[p.traceHash])
      && s.o.hash(TraceDoc(s.traces.value[p.traceHash])) == p.traceHash
      && s.traces.value[p.traceHash].descriptorHash == s.o.hash(DescriptorDoc(s.descriptor))
  }

  predicate TraceFields(t: Trace) {
    && t.schema == "policy_vm_trace_v1"
    && (forall h :: h in {t.descriptorHash, t.programId, t.chainHash, t.stackHash} ==> IsHash(h))
    && IsBranch(t.branchId) && t.haltReason != ""
    && 0 <= t.round && ValidCounters(t)
  }

  predicate PlanFits(s: Setting, p: Proposal) {
    s.plans.Some? ==>
      && p.planHash in s.plans.value
      && s.o.planFits(s.plans.value[p.planHash])
      && s.o.hash(PlanDoc(s.plans.value[p.planHash])) == p.planHash
      && s.plans.value[p.planHash].inputsHash == s.o.hash(DescriptorDoc(s.descriptor))
  }

  predicate PredictorFits(s: Setting, p: Proposal, observation: Option<string>) {
    s.predictor.Some? && observation.Some? ==>
      && !s.predictor.value.bias.Malformed? && !s.predictor.value.planWeight.Malformed?
      && !s.predictor.value.observationWeight.Malformed?
      && s.o.head(p.planHash).Some? && s.o.head(observation.value).Some?
  }

  /** A proposal is accepted exactly when it is well formed, belongs to the
      descriptor, keeps its commitment, and its trace, plan and predictor fit. */
  lemma AcceptedIff(s: Setting, jOld: int, p: Proposal, observation: Option<string>)
    requires ObservedAs(s.descriptor, observation)
    ensures RowOf(s, jOld, p).Ok? <==>
      && p.schema == "policy_trace_proposal_v1"
      && (forall h :: h in {p.descriptorHash, p.programId, p.traceHash, p.planHash, p.commitment} ==> IsHash(h))
      && IsBranch(p.branchId) && Strip(p.actionKind) != ""
      && p.budgetHint != Malformed && p.expectedJ != None && p.expectedDelta != None && 0 <= p.computeCost
      && p.descriptorHash == s.o.hash(DescriptorDoc(s.descriptor))
      && p.commitment == s.o.hash(CommitmentDoc(p.(commitment := "")))
      && TraceFits(s, p) && PlanFits(s, p) && PredictorFits(s, p, observation)
  {
    ProposalFields(p);
    hide ValidProposal, ValidTrace, CostFromTrace, IsHash;
    assert observation == ObservationHash(s.descriptor);
    CostFailsIff(s, p);
    PlanFailsIff(s, p);
    hide TraceFits, PlanFits, Cost, CheckPlan;
  }

  lemma ProposalFields(p: Proposal)
    ensures ValidProposal(p) <==>
      && p.schema == "policy_trace_proposal_v1"
      && (forall h :: h in {p.descriptorHash, p.programId, p.traceHash, p.planHash, p.commitment} ==> IsHash(h))
      && IsBranch(p.branchId) && Strip(p.actionKind) != ""
      && p.budgetHint != Malformed && p.expectedJ != None && p.expectedDelta != None && 0 <= p.computeCost
  {
    hide IsHash, IsBranch, Strip;
  }

  lemma CostFailsIff(s: Setting, p: Proposal)
    ensures Cost(s, p).Ok? <==> TraceFits(s, p)
  {
    hide CostFromTrace, IsHash, IsBranch;
  }

  lemma PlanFailsIff(s: Setting, p: Proposal)
    ensures CheckPlan(s, p).Ok? <==> PlanFits(s, p)
  {
  }

  predicate PolicyFields(p: SelectionPolicy) {
    && p.schema == "policy_selection_policy_v1" && IsHash(p.id) && ValidModel(p.model)
    && p.target != NotATarget
    && (p.target.Target? ==> p.target.margin != None && p.target.temperature.Some? && 0 < p.target.temperature.value)
  }

  /** With well-formed hashes a selection succeeds exactly when descriptor and policy
      are valid, there are proposals, every profile row can be weighed, and every
      proposal is accepted. */
  lemma SelectionSucceedsIff(s: Setting, ps: seq<Proposal>, report: Option<Metrics>, profile: Option<Profile>)
    requires forall d :: IsHash(s.o.hash(d))
    ensures Arbitrate(s, ps, report, profile).Ok? <==>
      && ValidDescriptor(s.descriptor) && PolicyFields(s.policy) && |ps| != 0
      && (report.Some? && profile.Some? ==>
            forall i :: 0 <= i < |profile.value.weights| ==> GoodWeight(profile.value.weights[i], report.value))
      && forall i :: 0 <= i < |ps| ==> RowOf(s, 0, ps[i]).Ok?
  {
    PolicyFieldsIff(s.policy);
    JSucceedsIff(report, profile);
    hide RowOf, RankKey, ValidReceipt, ValidDescriptor, ValidPolicy, PolicyFields, GoodWeight, CurrentJ;
    if CurrentJ(report, profile).Ok? {
      var jOld := CurrentJ(report, profile).value;
      RowsPointwise(s, jOld, ps);
      forall i | 0 <= i < |ps| ensures RowOf(s, 0, ps[i]).Ok? <==> RowOf(s, jOld, ps[i]).Ok? {
        ObjectiveDoesNotMatter(s, jOld, ps[i]);
      }
      if ValidDescriptor(s.descriptor) && ValidPolicy(s.policy) && |ps| != 0 && RankedRows(s, ps, report, profile).Ok? {
        ReceiptPassesItsCheck(s, ps, report, profile);
      }
    }
    if Arbitrate(s, ps, report, profile).Ok? {
      InputsChecked(s, ps, report, profile);
      ReceiptIs(s, ps, report, profile);
    }
  }

  lemma PolicyFieldsIff(p: SelectionPolicy)
    ensures PolicyFields(p) <==> ValidPolicy(p)
  {
    hide IsHash;
  }

  lemma ObjectiveDoesNotMatter(s: Setting, jOld: int, p: Proposal)
    ensures RowOf(s, 0, p).Ok? <==> RowOf(s, jOld, p).Ok?
  {
    hide Cost, CheckPlan, PredictDelta, ValidProposal;
  }

  // ----- the current objective -----

  /** A profile row that can be weighed. */
  predicate GoodWeight(row: ProfileRow, metrics: Metrics) {
    && row.ProfileRow? && Strip(row.metricId) != "" && Strip(row.metricId) in metrics
    && row.weight.Q? && metrics[Strip(row.metricId)].Some?
  }

  /** Why a row that cannot be weighed fails: the first reason that applies. */
  predicate BadFor(row: ProfileRow, metrics: Metrics, reason: string) {
    && (row.NotARow? || Strip(row.metricId) == "" ==> reason == "J_COMPUTE_FAIL")
    && (row.ProfileRow? && Strip(row.metricId) != "" && Strip(row.metricId) !in metrics ==> reason == "METRIC_MISSING")
    && (row.ProfileRow? && Strip(row.metricId) != "" && Strip(row.metricId) in metrics ==>
          && (!row.weight.Q? ==> reason == "J_COMPUTE_FAIL")
          && (row.weight.Q? && metrics[Strip(row.metricId)].None? ==> reason == "METRIC_TYPE_FAIL"))
  }

  function Sum(terms: seq<int>): int {
    if |terms| == 0 then 0 else Sum(terms[..|terms| - 1]) + terms[|terms| - 1]
  }

  /** `term` is the row's metric times its weight, rounded down. */
  predicate IsTerm(row: ProfileRow, metrics: Metrics, term: int) {
    GoodWeight(row, metrics) && IsFloor(term, metrics[Strip(row.metricId)].value * row.weight.q, ONE)
  }

  ghost predicate AreTerms(rows: seq<ProfileRow>, metrics: Metrics, terms: seq<int>) {
    |terms| == |rows| && forall i :: 0 <= i < |rows| ==> IsTerm(rows[i], metrics, terms[i])
  }

  lemma WeightedTerm(row: ProfileRow, metrics: Metrics, term: int)
    requires IsTerm(row, metrics, term)
    ensures Weighted(row, metrics) == Ok(term)
  {
    WeightedIs(row, metrics);
    MulIff(term, metrics[Strip(row.metricId)].value, row.weight.q);
  }

  lemma WeightedIs(row: ProfileRow, metrics: Metrics)
    ensures Weighted(row, metrics).Ok? <==> GoodWeight(row, metrics)
    ensures GoodWeight(row, metrics) ==> Weighted(row, metrics).value == Mul(metrics[Strip(row.metricId)].value, row.weight.q)
    ensures !GoodWeight(row, metrics) ==> BadFor(row, metrics, Weighted(row, metrics).reason)
  {
    hide Strip, Mul;
  }

  lemma {:induction false} SumMeaning(start: int, rows: seq<ProfileRow>, metrics: Metrics, terms: seq<int>)
    requires AreTerms(rows, metrics, terms)
    ensures WeightedSum(start, rows, metrics) == Ok(start + Sum(terms))
  {
    hide Weighted, IsTerm;
    if |rows| != 0 {
      var n := |rows| - 1;
      SumMeaning(start, rows[..n], metrics, terms[..n]);
      WeightedTerm(rows[n], metrics, terms[n]);
    }
  }

  /** The current objective: zero without report or profile; otherwise the bias, zero
      when it is no number, plus all weighted metrics. */
  lemma JMeaning(report: Option<Metrics>, profile: Option<Profile>, terms: seq<int>)
    requires report.Some? && profile.Some? ==> AreTerms(profile.value.weights, report.value, terms)
    ensures report.None? || profile.None? ==> CurrentJ(report, profile) == Ok(0)
    ensures report.Some? && profile.Some? ==>
      CurrentJ(report, profile) == Ok((if profile.value.bias.Q? then profile.value.bias.q else 0) + Sum(terms))
  {
    hide AreTerms;
    if report.Some? && profile.Some? {
      SumMeaning(Number(profile.value.bias), profile.value.weights, report.value, terms);
    }
  }

  /** The first row that cannot be weighed decides how it fails. */
  lemma JFailsAtFirst(report: Metrics, profile: Profile, n: nat)
    requires n < |profile.weights| && !GoodWeight(profile.weights[n], report)
    requires forall i :: 0 <= i < n ==> GoodWeight(profile.weights[i], report)
    ensures CurrentJ(Some(report), Some(profile)).Fail?
    ensures BadFor(profile.weights[n], report, CurrentJ(Some(report), Some(profile)).reason)
  {
    hide Weighted, GoodWeight, BadFor;
    var start, rows := Number(profile.bias), profile.weights;
    SumSucceedsIff(start, rows[..n], report);
    WeightedIs(rows[n], report);
    assert rows[..n + 1][..n] == rows[..n];
    SumFailsEarly(start, rows, report, n + 1);
  }

  lemma JSucceedsIff(report: Option<Metrics>, profile: Option<Profile>)
    ensures CurrentJ(report, profile).Ok? <==>
      (report.Some? && profile.Some? ==>
         forall i :: 0 <= i < |profile.value.weights| ==> GoodWeight(profile.value.weights[i], report.value))
  {
    hide GoodWeight;
    if report.Some? && profile.Some? {
      SumSucceedsIff(Number(profile.value.bias), profile.value.weights, report.value);
    }
  }

  lemma {:induction false} SumSucceedsIff(start: int, rows: seq<ProfileRow>, metrics: Metrics)
    ensures WeightedSum(start, rows, metrics).Ok? <==> forall i :: 0 <= i < |rows| ==> GoodWeight(rows[i], metrics)
  {
    hide Weighted, GoodWeight;
    if |rows| != 0 {
      var n := |rows| - 1;
      SumSucceedsIff(start, rows[..n], metrics);
      WeightedIs(rows[n], metrics);
      assert forall i :: 0 <= i < n ==> rows[..n][i] == rows[i];
    }
  }

  // ----- the receipt -----

  /** The receipt: all rows in ranking order, all proposal hashes in string order,
      the winner's at the head, and a commitment to the whole ranking. */
  lemma ReceiptMeaning(s: Setting, ps: seq<Proposal>, report: Option<Metrics>, profile: Option<Profile>)
    requires Arbitrate(s, ps, report, profile).Ok?
    ensures RankedRows(s, ps, report, profile).Ok?
    ensures var r, rows := Arbitrate(s, ps, report, profile).value, RankedRows(s, ps, report, profile).value;
      && r.descriptorHash == s.o.hash(DescriptorDoc(s.descriptor))
      && multiset(r.ranking) == multiset(rows) && |r.ranking| == |ps|
      && (forall i, j :: 0 <= i < j < |r.ranking| ==> !Ahead(r.ranking[j], r.ranking[i]))
      && multiset(r.proposalHashes) == multiset(ProposalHashes(s.o, ps))
      && (forall i, j :: 0 <= i < j < |r.proposalHashes| ==> StringLeq(r.proposalHashes[i], r.proposalHashes[j]))
      && |r.ranking| != 0
      && r.winnerBranch == r.ranking[0].branchId && r.winnerProposal == r.ranking[0].proposalHash
      && r.commitment == s.o.hash(SelectionDoc(r.descriptorHash, Committed(r.ranking), r.ranking[0].binding))
  {
    ReceiptIs(s, ps, report, profile);
    hide Arbitrate, RankKey, Ahead, StringLeq, RowOf;
    var rows := RankedRows(s, ps, report, profile).value;
    RankingMeaning(rows);
    var hs := ProposalHashes(s.o, ps);
    SortStringsKept(hs);
    forall i, j | 0 <= i < j < |SortStrings(hs)| ensures StringLeq(SortStrings(hs)[i], SortStrings(hs)[j]) {
      StringsInOrder(SortStrings(hs), i, j);
    }
  }

  lemma StringsInOrder(xs: seq<string>, i: nat, j: nat)
    requires Ordered(KeyedStrings(xs)) && i < j < |xs|
    ensures StringLeq(xs[i], xs[j])
  {
    assert Leq(KeyedStrings(xs)[i].key, KeyedStrings(xs)[j].key);
  }

  lemma RankingMeaning(rows: seq<Row>)
    ensures multiset(Ranking(rows)) == multiset(rows) && |Ranking(rows)| == |rows|
    ensures forall i, j :: 0 <= i < j < |rows| ==> !Ahead(Ranking(rows)[j], Ranking(rows)[i])
  {
    hide RankKey, Ahead;
    RankingIsSort(rows);
    SortOrdered(KeyedRows(rows));
    SortPermutes(KeyedRows(rows));
    MapPermutes(KeyedRows(Ranking(rows)), KeyedRows(rows), Ranking(rows), rows, (k: Keyed<Row>) => k.item);
    forall i, j | 0 <= i < j < |rows| ensures !Ahead(Ranking(rows)[j], Ranking(rows)[i]) {
      assert Leq(KeyedRows(Ranking(rows))[i].key, KeyedRows(Ranking(rows))[j].key);
      RankKeyOrder(Ranking(rows)[i], Ranking(rows)[j]);
    }
  }
}
