/** The arbiter of the policy market: proposals are ranked by the objective a
    predictor expects of them, then by cost, then by program. */
module PolicyArbiter {
  import opened Results
  import opened Q32
  import opened Ordering
  import opened Text

  // ----- the documents -----

  /** The inputs descriptor. A string-valued field that is present with another
      type is None. Here and below `rest` stands for the fields that are only
      hashed. */
  datatype Descriptor = Descriptor(
    schema: string, tick: Option<int>, fields: map<string, Option<string>>, programIds: Option<seq<string>>, rest: string)

  datatype CostModel = CostModel(base: int, perStep: int, perItem: int, perByteRead: int, perByteWritten: int)

  /** The target of the counterfactual report: checked here, used elsewhere. */
  datatype Target = NoTarget | NotATarget | Target(temperature: Option<int>, margin: Option<int>)

  datatype SelectionPolicy = SelectionPolicy(schema: string, id: string, model: CostModel, target: Target)

  /** A fixed-point field: missing, of the wrong type, or a number. */
  datatype Weight = Absent | Malformed | Q(q: int)

  datatype Proposal = Proposal(
    schema: string, descriptorHash: string, programId: string, branchId: string, traceHash: string,
    planHash: string, actionKind: string, budgetHint: Weight, expectedJ: Option<int>, expectedDelta: Option<int>,
    computeCost: int, commitment: string, rest: string)

  datatype Trace = Trace(
    schema: string, descriptorHash: string, programId: string, branchId: string, round: int, haltReason: string,
    steps: int, items: int, bytesRead: int, bytesWritten: int, chainHash: string, stackHash: string, rest: string)

  datatype Plan = Plan(inputsHash: string, rest: string)

  datatype Predictor = Predictor(bias: Weight, planWeight: Weight, observationWeight: Weight)

  datatype ProfileRow = NotARow | ProfileRow(metricId: string, weight: Weight)

  datatype Profile = Profile(bias: Weight, weights: seq<ProfileRow>)

  /** Metrics by id; None is a metric of the wrong type. */
  type Metrics = map<string, Option<int>>

  datatype Row = Row(
    branchId: string, proposalHash: string, traceHash: string, planHash: string,
    expectedJ: int, expectedDelta: int, cost: int, programId: string, binding: string)

  datatype Receipt = Receipt(
    descriptorHash: string, proposalHashes: seq<string>, winnerBranch: string, winnerProposal: string,
    commitment: string, ranking: seq<Row>)

  /** Everything that is hashed. A proposal is committed to without its own
      commitment, a ranked row without its proposal hash. */
  datatype Doc =
    | DescriptorDoc(d: Descriptor)
    | ProposalDoc(p: Proposal)
    | CommitmentDoc(p: Proposal)
    | TraceDoc(t: Trace)
    | PlanDoc(plan: Plan)
    | BindingDoc(descriptorHash: string, row: Row)
    | SelectionDoc(descriptorHash: string, ranking: seq<Row>, winnerBinding: string)

  /** The foreign functions: the canonical hash of a document, the number read from
      the first eight hexadecimal digits of a hash (None: not a number), and the
      schema of decision plans. */
  datatype Oracles = Oracles(hash: Doc -> string, head: string -> Option<int>, planFits: Plan -> bool)

  // ----- validation -----

  /** `_is_sha256`: the prefix and 64 characters, whatever they are. */
  predicate IsHash(s: string) {
    |s| == 71 && s[..7] == SHA_PREFIX
  }

  predicate IsBranch(s: string) {
    |s| == 3 && s[0] == 'b' && '0' <= s[1] <= '9' && '0' <= s[2] <= '9'
  }

  predicate HasHash(d: Descriptor, key: string) {
    key in d.fields && d.fields[key].Some? && IsHash(d.fields[key].value)
  }

  predicate ValidDescriptor(d: Descriptor) {
    && d.schema == "inputs_descriptor_v1"
    && d.tick.Some? && d.tick.value >= 0
    && if "descriptor_id" in d.fields || "observation_report_hash" in d.fields || "issue_bundle_hash" in d.fields then
         && HasHash(d, "descriptor_id") && HasHash(d, "state_hash")
         && HasHash(d, "observation_report_hash") && HasHash(d, "issue_bundle_hash")
       else
         && HasHash(d, "state_hash") && HasHash(d, "repo_tree_id") && HasHash(d, "observation_hash")
         && HasHash(d, "issues_hash") && HasHash(d, "registry_hash")
         && d.programIds.Some? && 1 <= |d.programIds.value| <= 100
         && (forall i :: 0 <= i < |d.programIds.value| ==> IsHash(d.programIds.value[i]))
         && HasHash(d, "predictor_id") && HasHash(d, "j_profile_id") && HasHash(d, "opcode_table_id")
         && HasHash(d, "budget_spec_id") && HasHash(d, "determinism_contract_id")
  }

  predicate ValidPolicy(p: SelectionPolicy) {
    && p.schema == "policy_selection_policy_v1" && IsHash(p.id)
    && p.model.base >= 0 && p.model.perStep >= 0 && p.model.perItem >= 0
    && p.model.perByteRead >= 0 && p.model.perByteWritten >= 0
    && match p.target
       case NoTarget => true
       case NotATarget => false
       case Target(temperature, margin) => temperature.Some? && temperature.value >= 1 && margin.Some?
  }

  predicate ValidProposal(p: Proposal) {
    && p.schema == "policy_trace_proposal_v1"
    && IsHash(p.descriptorHash) && IsHash(p.programId) && IsBranch(p.branchId)
    && IsHash(p.traceHash) && IsHash(p.planHash)
    && Strip(p.actionKind) != "" && !p.budgetHint.Malformed?
    && p.expectedJ.Some? && p.expectedDelta.Some? && p.computeCost >= 0
    && IsHash(p.commitment)
  }

  predicate ValidTrace(t: Trace) {
    && t.schema == "policy_vm_trace_v1"
    && IsHash(t.descriptorHash) && IsHash(t.programId) && IsBranch(t.branchId)
    && t.round >= 0 && t.haltReason != "" && t.steps >= 0
    && t.items >= 0 && t.bytesRead >= 0 && t.bytesWritten >= 0
    && IsHash(t.chainHash) && IsHash(t.stackHash)
  }

  predicate ValidRow(r: Row) {
    && IsBranch(r.branchId) && IsHash(r.proposalHash) && r.cost >= 0 && IsHash(r.programId)
    && IsHash(r.traceHash) && IsHash(r.planHash) && IsHash(r.binding)
  }

  predicate ValidReceipt(r: Receipt) {
    && IsHash(r.descriptorHash)
    && |r.proposalHashes| != 0
    && (forall i :: 0 <= i < |r.proposalHashes| ==> IsHash(r.proposalHashes[i]))
    && IsBranch(r.winnerBranch) && IsHash(r.winnerProposal) && IsHash(r.commitment)
    && |r.ranking| != 0
    && (forall i :: 0 <= i < |r.ranking| ==> ValidRow(r.ranking[i]))
  }

  // ----- the expected objective -----

  function Number(w: Weight): int {
    if w.Q? then w.q else 0
  }

  /** What one weighted metric adds, or how it fails. */
  function Weighted(row: ProfileRow, metrics: Metrics): Result<int> {
    if row.NotARow? || Strip(row.metricId) == "" then Fail("J_COMPUTE_FAIL")
    else if Strip(row.metricId) !in metrics then Fail("METRIC_MISSING")
    else if !row.weight.Q? then Fail("J_COMPUTE_FAIL")
    else match metrics[Strip(row.metricId)]
         case None => Fail("METRIC_TYPE_FAIL")
         case Some(m) => Ok(Mul(m, row.weight.q))
  }

  function WeightedSum(start: int, rows: seq<ProfileRow>, metrics: Metrics): Result<int> {
    if |rows| == 0 then Ok(start) else
    var sum :- WeightedSum(start, rows[..|rows| - 1], metrics);
    var next :- Weighted(rows[|rows| - 1], metrics);
    Ok(sum + next)
  }

  /** The current objective: zero when the report or the profile is missing. */
  function CurrentJ(report: Option<Metrics>, profile: Option<Profile>): Result<int> {
    if report.None? || profile.None? then Ok(0)
    else WeightedSum(Number(profile.value.bias), profile.value.weights, report.value)
  }

  lemma {:induction false} SumFailsEarly(start: int, rows: seq<ProfileRow>, metrics: Metrics, n: nat)
    requires n <= |rows| && WeightedSum(start, rows[..n], metrics).Fail?
    ensures WeightedSum(start, rows, metrics) == WeightedSum(start, rows[..n], metrics)
    decreases |rows|
  {
    if n == |rows| {
      assert rows[..n] == rows;
    } else {
      assert rows[..|rows| - 1][..n] == rows[..n];
      SumFailsEarly(start, rows[..|rows| - 1], metrics, n);
    }
  }

  method ComputeJOld(report: Option<Metrics>, profile: Option<Profile>) returns (r: Result<int>)
    ensures r == CurrentJ(report, profile)
  {
    if report.None? || profile.None? {
      return Ok(0);
    }
    var rows, metrics := profile.value.weights, report.value;
    var total := Number(profile.value.bias);
    for i := 0 to |rows|
      invariant WeightedSum(Number(profile.value.bias), rows[..i], metrics) == Ok(total)
    {
      assert rows[..i + 1][..i] == rows[..i];
      var w := Weighted(rows[i], metrics);
      if w.Fail? {
        SumFailsEarly(Number(profile.value.bias), rows, metrics, i + 1);
        return w;
      }
      total := total + w.value;
    }
    assert rows[..|rows|] == rows;
    r := Ok(total);
  }

  /** The observation hash the predictor reads: the first well-formed one. */
  function ObservationHash(d: Descriptor): Option<string> {
    if HasHash(d, "observation_hash") then d.fields["observation_hash"]
    else if HasHash(d, "observation_report_hash") then d.fields["observation_report_hash"]
    else None
  }

  function PredictDelta(o: Oracles, planHash: string, observation: Option<string>, predictor: Option<Predictor>): Result<int> {
    if predictor.None? || observation.None? then Ok(0) else
    var p := predictor.value;
    if p.bias.Malformed? || p.planWeight.Malformed? || p.observationWeight.Malformed? then Fail("PREDICT_FAIL")
    else if o.head(planHash).None? || o.head(observation.value).None? then Fail("PREDICT_FAIL")
    else Ok(Number(p.bias) + Mul(Number(p.planWeight), o.head(planHash).value)
            + Mul(Number(p.observationWeight), o.head(observation.value).value))
  }

  function CostFromTrace(t: Trace, m: CostModel): int {
    Max(0, m.base + Mul(m.perStep, Max(0, t.steps)) + Mul(m.perItem, Max(0, t.items))
           + Mul(m.perByteRead, Max(0, t.bytesRead)) + Mul(m.perByteWritten, Max(0, t.bytesWritten)))
  }

  // ----- one proposal -----

  /** What all proposals of one selection share. */
  datatype Setting = Setting(
    o: Oracles, descriptor: Descriptor, policy: SelectionPolicy, predictor: Option<Predictor>,
    traces: Option<map<string, Trace>>, plans: Option<map<string, Plan>>)
  {
    function DescriptorHash(): string {
      o.hash(DescriptorDoc(descriptor))
    }
  }

  function Cost(s: Setting, p: Proposal): Result<int> {
    if s.traces.None? then Ok(Max(0, p.computeCost))
    else if p.traceHash !in s.traces.value then Fail("MISSING_STATE_INPUT")
    else
      var t := s.traces.value[p.traceHash];
      if !ValidTrace(t) then Fail("SCHEMA_FAIL")
      else if s.o.hash(TraceDoc(t)) != p.traceHash then Fail("NONDETERMINISTIC")
      else if t.descriptorHash != s.DescriptorHash() then Fail("INPUTS_DESCRIPTOR_MISMATCH")
      else Ok(CostFromTrace(t, s.policy.model))
  }

  function CheckPlan(s: Setting, p: Proposal): Result<()> {
    if s.plans.None? then Ok(())
    else if p.planHash !in s.plans.value then Fail("MISSING_STATE_INPUT")
    else if !s.o.planFits(s.plans.value[p.planHash]) then Fail("SCHEMA_FAIL")
    else if s.o.hash(PlanDoc(s.plans.value[p.planHash])) != p.planHash then Fail("NONDETERMINISTIC")
    else if s.plans.value[p.planHash].inputsHash != s.DescriptorHash() then Fail("INPUTS_DESCRIPTOR_MISMATCH")
    else Ok(())
  }

  function RowOf(s: Setting, jOld: int, p: Proposal): Result<Row> {
    if !ValidProposal(p) then Fail("SCHEMA_FAIL")
    else if p.descriptorHash != s.DescriptorHash() then Fail("INPUTS_DESCRIPTOR_MISMATCH")
    else if s.o.hash(CommitmentDoc(p.(commitment := ""))) != p.commitment then Fail("NONDETERMINISTIC")
    else
      var cost :- Cost(s, p);
      var _ :- CheckPlan(s, p);
      var delta :- PredictDelta(s.o, p.planHash, ObservationHash(s.descriptor), s.predictor);
      var row := Row(p.branchId, "", p.traceHash, p.planHash, jOld + delta, delta, cost, p.programId, "");
      Ok(row.(proposalHash := s.o.hash(ProposalDoc(p)), binding := s.o.hash(BindingDoc(s.DescriptorHash(), row))))
  }

  function RowsOf(s: Setting, jOld: int, ps: seq<Proposal>): (r: Result<seq<Row>>)
    ensures r.Ok? ==> |r.value| == |ps|
  {
    if |ps| == 0 then Ok([]) else
    var rows :- RowsOf(s, jOld, ps[..|ps| - 1]);
    var row :- RowOf(s, jOld, ps[|ps| - 1]);
    Ok(rows + [row])
  }

  // ----- the ranking -----

  /** Descending by expected objective, ascending by cost, then by program. */
  function RankKey(r: Row): seq<int> {
    [-r.expectedJ] + ([r.cost] + Codes(r.programId))
  }

  function KeyedRow(r: Row): (k: Keyed<Row>)
    ensures k.item == r
  {
    Keyed(RankKey(r), r)
  }

  function KeyedRows(rows: seq<Row>): (r: seq<Keyed<Row>>)
    ensures |r| == |rows| && forall i :: 0 <= i < |rows| ==> r[i] == KeyedRow(rows[i])
  {
    seq(|rows|, i requires 0 <= i < |rows| => KeyedRow(rows[i]))
  }

  function Ranking(rows: seq<Row>): seq<Row> {
    Items(Sort(KeyedRows(rows)))
  }

  function ProposalHashes(o: Oracles, ps: seq<Proposal>): (r: seq<string>)
    ensures |r| == |ps| && forall i :: 0 <= i < |ps| ==> r[i] == o.hash(ProposalDoc(ps[i]))
  {
    seq(|ps|, i requires 0 <= i < |ps| => o.hash(ProposalDoc(ps[i])))
  }

  function Committed(rows: seq<Row>): (r: seq<Row>)
    ensures |r| == |rows| && forall i :: 0 <= i < |rows| ==> r[i] == rows[i].(proposalHash := "")
  {
    seq(|rows|, i requires 0 <= i < |rows| => rows[i].(proposalHash := ""))
  }

  function ReceiptFrom(s: Setting, hashes: seq<string>, ranking: seq<Row>): Receipt
    requires |ranking| != 0
  {
    Receipt(s.DescriptorHash(), SortStrings(hashes), ranking[0].branchId, ranking[0].proposalHash,
            s.o.hash(SelectionDoc(s.DescriptorHash(), Committed(ranking), ranking[0].binding)), ranking)
  }

  /** The receipt's own last check. */
  function Checked(r: Receipt): Result<Receipt> {
    if !ValidReceipt(r) then Fail("SCHEMA_FAIL")
    else if r.proposalHashes != SortStrings(r.proposalHashes) then Fail("NONDETERMINISTIC")
    else Ok(r)
  }

  /** What `select_policy_proposal` returns. */
  function Arbitrate(s: Setting, ps: seq<Proposal>, report: Option<Metrics>, profile: Option<Profile>): Result<Receipt> {
    if !ValidDescriptor(s.descriptor) || !ValidPolicy(s.policy) || |ps| == 0 then Fail("SCHEMA_FAIL") else
    var jOld :- CurrentJ(report, profile);
    var rows :- RowsOf(s, jOld, ps);
    SortMembers(KeyedRows(rows));
    Checked(ReceiptFrom(s, ProposalHashes(s.o, ps), Ranking(rows)))
  }

  lemma {:induction false} RowsFailEarly(s: Setting, jOld: int, ps: seq<Proposal>, n: nat)
    requires n <= |ps| && RowsOf(s, jOld, ps[..n]).Fail?
    ensures RowsOf(s, jOld, ps) == RowsOf(s, jOld, ps[..n])
    decreases |ps|
  {
    if n == |ps| {
      assert ps[..n] == ps;
    } else {
      assert ps[..|ps| - 1][..n] == ps[..n];
      RowsFailEarly(s, jOld, ps[..|ps| - 1], n);
    }
  }

  method SelectPolicyProposal(s: Setting, ps: seq<Proposal>, report: Option<Metrics>, profile: Option<Profile>)
      returns (r: Result<Receipt>)
    ensures r == Arbitrate(s, ps, report, profile)
  {
    hide RowOf, RankKey, ValidReceipt, ValidDescriptor, ValidPolicy, Checked, ReceiptFrom, Sort;
    if !ValidDescriptor(s.descriptor) || !ValidPolicy(s.policy) || |ps| == 0 {
      return Fail("SCHEMA_FAIL");
    }
    var jOld := ComputeJOld(report, profile);
    if jOld.Fail? {
      return Fail(jOld.reason);
    }
    var rows: seq<Row> := [];
    var hashes: seq<string> := [];
    for i := 0 to |ps|
      invariant RowsOf(s, jOld.value, ps[..i]) == Ok(rows)
      invariant hashes == ProposalHashes(s.o, ps[..i])
    {
      assert ps[..i + 1][..i] == ps[..i];
      var row := RowOf(s, jOld.value, ps[i]);
      if row.Fail? {
        RowsFailEarly(s, jOld.value, ps, i + 1);
        return Fail(row.reason);
      }
      rows := rows + [row.value];
      hashes := hashes + [s.o.hash(ProposalDoc(ps[i]))];
    }
    assert ps[..|ps|] == ps;
    SortMembers(KeyedRows(rows));
    r := Checked(ReceiptFrom(s, hashes, Ranking(rows)));
  }
}
