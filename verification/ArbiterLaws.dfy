/** What decides a policy selection, and what cannot. */
module ArbiterLaws {
  import opened Results
  import opened Q32
  import opened Ordering
  import opened PolicyArbiter

  // ----- the rows of a permuted input -----

  lemma {:induction false} RowsPointwise(s: Setting, jOld: int, ps: seq<Proposal>)
    ensures RowsOf(s, jOld, ps).Ok? <==> forall i :: 0 <= i < |ps| ==> RowOf(s, jOld, ps[i]).Ok?
    ensures RowsOf(s, jOld, ps).Ok? ==>
      forall i :: 0 <= i < |ps| ==> RowOf(s, jOld, ps[i]) == Ok(RowsOf(s, jOld, ps).value[i])
  {
    hide RowOf;
    if |ps| != 0 {
      RowsPointwise(s, jOld, ps[..|ps| - 1]);
    }
  }

  /** Position by position, a permutation of inputs is one of outputs. */
  lemma MapPermutes<A, B>(a: seq<A>, b: seq<A>, fa: seq<B>, fb: seq<B>, f: A -> B)
    requires multiset(a) == multiset(b) && |fa| == |a| && |fb| == |b|
    requires forall i :: 0 <= i < |a| ==> fa[i] == f(a[i])
    requires forall i :: 0 <= i < |b| ==> fb[i] == f(b[i])
    ensures multiset(fa) == multiset(fb)
  {
    assert fa == Apply(f, a) && fb == Apply(f, b);
    ApplyPermutes(f, a, b);
  }

  function RowOrNone(s: Setting, jOld: int, p: Proposal): Row {
    var r := RowOf(s, jOld, p);
    if r.Ok? then r.value else Row("", "", "", "", 0, 0, 0, "", "")
  }

  lemma RowsPermute(s: Setting, jOld: int, ps: seq<Proposal>, qs: seq<Proposal>)
    requires multiset(ps) == multiset(qs) && RowsOf(s, jOld, ps).Ok?
    ensures RowsOf(s, jOld, qs).Ok?
    ensures multiset(RowsOf(s, jOld, ps).value) == multiset(RowsOf(s, jOld, qs).value)
    ensures multiset(ProposalHashes(s.o, ps)) == multiset(ProposalHashes(s.o, qs))
  {
    hide RowOf;
    RowsPointwise(s, jOld, ps);
    RowsPointwise(s, jOld, qs);
    forall i | 0 <= i < |qs| ensures RowOf(s, jOld, qs[i]).Ok? {
      assert qs[i] in multiset(ps);
    }
    MapPermutes(ps, qs, RowsOf(s, jOld, ps).value, RowsOf(s, jOld, qs).value, p => RowOrNone(s, jOld, p));
    MapPermutes(ps, qs, ProposalHashes(s.o, ps), ProposalHashes(s.o, qs), p => s.o.hash(ProposalDoc(p)));
  }

  lemma SortStringsPermute(a: seq<string>, b: seq<string>)
    requires multiset(a) == multiset(b)
    ensures SortStrings(a) == SortStrings(b)
  {
    MapPermutes(a, b, KeyedStrings(a), KeyedStrings(b), x => Keyed(Codes(x), x));
    forall x, y | x in KeyedStrings(a) && y in KeyedStrings(a) && x.key == y.key ensures x == y {
      CodesInjective(x.item, y.item);
    }
    SortOfPermutation(KeyedStrings(a), KeyedStrings(b));
  }

  // ----- order independence -----

  /** Two proposals tie only if they produce the same row. */
  ghost predicate TiesAreEqual(rows: seq<Row>) {
    forall i, j :: 0 <= i < |rows| && 0 <= j < |rows| && RankKey(rows[i]) == RankKey(rows[j]) ==> rows[i] == rows[j]
  }

  lemma RankingPermutes(a: seq<Row>, b: seq<Row>)
    requires multiset(a) == multiset(b) && TiesAreEqual(a)
    ensures Ranking(a) == Ranking(b)
  {
    hide RankKey;
    MapPermutes(a, b, KeyedRows(a), KeyedRows(b), r => KeyedRow(r));
    SortOfPermutation(KeyedRows(a), KeyedRows(b));
  }

  /** The rows a selection ranks. */
  ghost function RankedRows(s: Setting, ps: seq<Proposal>, report: Option<Metrics>, profile: Option<Profile>): Result<seq<Row>> {
    var jOld :- CurrentJ(report, profile);
    RowsOf(s, jOld, ps)
  }

  /** When ties are between equal rows only, every order of the proposals gives
      the identical receipt: ranking, winner, hashes and commitment. */
  lemma OrderIndependent(s: Setting, ps: seq<Proposal>, qs: seq<Proposal>, report: Option<Metrics>, profile: Option<Profile>)
    requires multiset(ps) == multiset(qs)
    requires Arbitrate(s, ps, report, profile).Ok?
    requires RankedRows(s, ps, report, profile).Ok? && TiesAreEqual(RankedRows(s, ps, report, profile).value)
    ensures Arbitrate(s, qs, report, profile) == Arbitrate(s, ps, report, profile)
  {
    hide RowOf, RankKey, Checked, TiesAreEqual;
    var jOld := CurrentJ(report, profile).value;
    assert |ps| == |multiset(ps)| == |multiset(qs)| == |qs|;
    RowsPermute(s, jOld, ps, qs);
    RankingPermutes(RowsOf(s, jOld, ps).value, RowsOf(s, jOld, qs).value);
    SortStringsPermute(ProposalHashes(s.o, ps), ProposalHashes(s.o, qs));
  }

  lemma MovedRows(s: Setting, jOld: int, ps: seq<Proposal>, i: nat)
    requires RowsOf(s, jOld, ps).Ok? && i < |ps|
    ensures RowsOf(s, jOld, MoveToFront(ps, i)) == Ok(MoveToFront(RowsOf(s, jOld, ps).value, i))
  {
    hide RowOf;
    var rows := RowsOf(s, jOld, ps).value;
    RowsPointwise(s, jOld, ps);
    MoveToFrontMap(ps, rows, i, p => RowOrNone(s, jOld, p));
    forall k | 0 <= k < |ps|
      ensures RowOf(s, jOld, MoveToFront(ps, i)[k]) == Ok(MoveToFront(rows, i)[k])
    {
      MoveToFrontAt(ps, i, k);
    }
    RowsPointwise(s, jOld, MoveToFront(ps, i));
    assert RowsOf(s, jOld, MoveToFront(ps, i)).value == MoveToFront(rows, i);
  }

  lemma MovedKeys(rows: seq<Row>, i: nat)
    requires i < |rows|
    ensures KeyedRows(MoveToFront(rows, i)) == MoveToFront(KeyedRows(rows), i)
  {
    MoveToFrontMap(rows, KeyedRows(rows), i, r => KeyedRow(r));
  }

  /** The keys can be read back from the ranking. */
  lemma RankingIsSort(rows: seq<Row>)
    ensures |Ranking(rows)| == |rows| && KeyedRows(Ranking(rows)) == Sort(KeyedRows(rows))
  {
    hide RankKey;
    SortMembers(KeyedRows(rows));
    forall i | 0 <= i < |rows| ensures KeyedRow(Ranking(rows)[i]) == Sort(KeyedRows(rows))[i] {
      var n := SortSource(KeyedRows(rows), i);
    }
  }

  /** Among proposals with equal keys the ranking keeps the input order. */
  lemma TiesKeepInputOrder(rows: seq<Row>, key: seq<int>)
    ensures WithKey(key, KeyedRows(Ranking(rows))) == WithKey(key, KeyedRows(rows))
  {
    RankingIsSort(rows);
    SortStable(key, KeyedRows(rows));
  }

  // ----- what wins -----

  /** `a` is ranked strictly ahead of `b`. */
  predicate Ahead(a: Row, b: Row) {
    || a.expectedJ > b.expectedJ
    || (a.expectedJ == b.expectedJ && (
        || a.cost < b.cost
        || (a.cost == b.cost && a.programId != b.programId && StringLeq(a.programId, b.programId))))
  }

  lemma RankKeyOrder(a: Row, b: Row)
    ensures Leq(RankKey(a), RankKey(b)) <==> !Ahead(b, a)
  {
    LeqCons(a.cost, Codes(a.programId), b.cost, Codes(b.programId));
    LeqCons(-a.expectedJ, [a.cost] + Codes(a.programId), -b.expectedJ, [b.cost] + Codes(b.programId));
    LeqTotal(Codes(a.programId), Codes(b.programId));
    LeqReflexive(Codes(a.programId));
    if StringLeq(a.programId, b.programId) && StringLeq(b.programId, a.programId) {
      LeqAntisymmetric(Codes(a.programId), Codes(b.programId));
      CodesInjective(a.programId, b.programId);
    }
  }

  lemma {:induction false} FirstWithKey(rows: seq<Row>, key: seq<int>, n: nat)
    requires n < |rows| && RankKey(rows[n]) == key
    requires forall i :: 0 <= i < n ==> RankKey(rows[i]) != key
    ensures WithKey(key, KeyedRows(rows)) != [] && WithKey(key, KeyedRows(rows))[0].item == rows[n]
    decreases n
  {
    hide RankKey;
    assert KeyedRows(rows)[1..] == KeyedRows(rows[1..]);
    if n != 0 {
      FirstWithKey(rows[1..], key, n - 1);
    }
  }

  /** Row `n` is the first of the rows that no row is ahead of. */
  predicate FirstBest(rows: seq<Row>, n: nat) {
    && n < |rows|
    && (forall i :: 0 <= i < |rows| ==> !Ahead(rows[i], rows[n]))
    && (forall i :: 0 <= i < n ==> Ahead(rows[n], rows[i]))
  }

  lemma AheadTransitive(a: Row, b: Row, c: Row)
    ensures Ahead(a, b) && !Ahead(c, b) ==> Ahead(a, c)
  {
    hide RankKey, Ahead;
    RankKeyOrder(b, a);
    RankKeyOrder(b, c);
    RankKeyOrder(c, a);
    if Leq(RankKey(b), RankKey(c)) && Leq(RankKey(c), RankKey(a)) {
      LeqTransitive(RankKey(b), RankKey(c), RankKey(a));
    }
  }

  lemma AheadAsymmetric(a: Row, b: Row)
    requires Ahead(a, b)
    ensures !Ahead(b, a)
  {
    hide RankKey, Ahead;
    RankKeyOrder(a, b);
    RankKeyOrder(b, a);
    LeqTotal(RankKey(a), RankKey(b));
  }

  /** There is exactly one such row. */
  lemma {:induction false} OneFirstBest(rows: seq<Row>) returns (n: nat)
    requires |rows| != 0
    ensures FirstBest(rows, n) && forall m :: FirstBest(rows, m) ==> m == n
  {
    hide Ahead;
    var last := |rows| - 1;
    if last == 0 {
      n := 0;
      RankKeyOrder(rows[0], rows[0]);
      LeqReflexive(RankKey(rows[0]));
    } else {
      n := OneFirstBest(rows[..last]);
      var best := rows[n];
      assert forall i :: 0 <= i < last ==> rows[i] == rows[..last][i];
      if Ahead(rows[last], best) {
        forall i | 0 <= i < last ensures Ahead(rows[last], rows[i]) && !Ahead(rows[i], rows[last]) {
          AheadTransitive(rows[last], best, rows[i]);
          AheadAsymmetric(rows[last], rows[i]);
        }
        RankKeyOrder(rows[last], rows[last]);
        LeqReflexive(RankKey(rows[last]));
        n := last;
      }
    }
  }

  /** The head of the ranking is the first row that no row is ahead of. */
  lemma WinnerIsFirstBest(rows: seq<Row>, n: nat)
    requires FirstBest(rows, n)
    ensures |Ranking(rows)| != 0 && Ranking(rows)[0] == rows[n]
  {
    RankingIsSort(rows);
    SortOrdered(KeyedRows(rows));
    var top := Ranking(rows)[0];
    var m := SortSource(KeyedRows(rows), 0);
    RankKeyOrder(rows[n], top);
    var t := SortTarget(KeyedRows(rows), n);
    LeqReflexive(RankKey(top));
    assert Leq(RankKey(top), RankKey(rows[n]));
    LeqAntisymmetric(RankKey(top), RankKey(rows[n]));
    forall i | 0 <= i < n ensures RankKey(rows[i]) != RankKey(rows[n]) {
      RankKeyOrder(rows[i], rows[n]);
      LeqReflexive(RankKey(rows[i]));
    }
    FirstWithKey(rows, RankKey(rows[n]), n);
    FirstWithKey(Ranking(rows), RankKey(rows[n]), 0);
    TiesKeepInputOrder(rows, RankKey(rows[n]));
  }

  // ----- what does not decide -----

  /** A successful selection returns the receipt of its ranked rows. */
  lemma ReceiptIs(s: Setting, ps: seq<Proposal>, report: Option<Metrics>, profile: Option<Profile>)
    requires Arbitrate(s, ps, report, profile).Ok?
    ensures RankedRows(s, ps, report, profile).Ok?
    ensures |Ranking(RankedRows(s, ps, report, profile).value)| != 0
    ensures Arbitrate(s, ps, report, profile).value
         == ReceiptFrom(s, ProposalHashes(s.o, ps), Ranking(RankedRows(s, ps, report, profile).value))
  {
    hide RowOf, RankKey, ValidReceipt, ValidDescriptor;
    RankingIsSort(RankedRows(s, ps, report, profile).value);
  }

  /** The part of a row that does not depend on the expected objective. */
  function Identity(r: Row): Row {
    r.(expectedJ := 0, expectedDelta := 0, binding := "")
  }

  /** The number the expected objective really depends on, per proposal. */
  function PlanScore(s: Setting, p: Proposal): int {
    if s.predictor.None? || ObservationHash(s.descriptor).None? || s.o.head(p.planHash).None? then 0
    else Mul(Number(s.predictor.value.planWeight), s.o.head(p.planHash).value)
  }

  /** What every row gets alike: objective, bias and observation term. */
  function CommonScore(s: Setting, jOld: int): int {
    var obs := ObservationHash(s.descriptor);
    if s.predictor.None? || obs.None? || s.o.head(obs.value).None? then jOld
    else jOld + Number(s.predictor.value.bias) + Mul(Number(s.predictor.value.observationWeight), s.o.head(obs.value).value)
  }

  lemma ExpectedSplits(s: Setting, jOld: int, p: Proposal)
    requires RowOf(s, jOld, p).Ok?
    ensures RowOf(s, jOld, p).value.expectedJ == CommonScore(s, jOld) + PlanScore(s, p)
  {
  }

  /** The same setting with another predictor. */
  function With(s: Setting, predictor: Option<Predictor>): Setting {
    s.(predictor := predictor)
  }

  /** Two predictors weigh plans alike (an absent one weighs them zero). */
  predicate SamePlanWeight(s: Setting, predictor: Option<Predictor>) {
    ObservationHash(s.descriptor).None?
    || (if s.predictor.None? then 0 else Number(s.predictor.value.planWeight))
       == (if predictor.None? then 0 else Number(predictor.value.planWeight))
  }

  lemma RowsShift(s: Setting, predictor: Option<Predictor>, j1: int, j2: int, p: Proposal)
    requires RowOf(s, j1, p).Ok? && RowOf(With(s, predictor), j2, p).Ok? && SamePlanWeight(s, predictor)
    ensures Identity(RowOf(s, j1, p).value) == Identity(RowOf(With(s, predictor), j2, p).value)
    ensures RowOf(s, j1, p).value.expectedJ - CommonScore(s, j1)
         == RowOf(With(s, predictor), j2, p).value.expectedJ - CommonScore(With(s, predictor), j2)
  {
    ExpectedSplits(s, j1, p);
    ExpectedSplits(With(s, predictor), j2, p);
    assert Mul(0, if s.o.head(p.planHash).Some? then s.o.head(p.planHash).value else 0) == 0;
  }

  function Identities(rows: seq<Row>): (r: seq<Row>)
    ensures |r| == |rows| && forall i :: 0 <= i < |rows| ==> r[i] == Identity(rows[i])
  {
    seq(|rows|, i requires 0 <= i < |rows| => Identity(rows[i]))
  }

  /** A ranked row with the common score removed and the objective forgotten. */
  function Shift(common: int, k: Keyed<Row>): Keyed<Row> {
    Keyed(if |k.key| == 0 then [] else [k.key[0] + common] + k.key[1..], Identity(k.item))
  }

  lemma ShiftKeepsLeq(common: int, x: Keyed<Row>, y: Keyed<Row>)
    ensures Leq(x.key, y.key) <==> Leq(Shift(common, x).key, Shift(common, y).key)
  {
    if |x.key| != 0 && |y.key| != 0 {
      LeqCons(x.key[0] + common, x.key[1..], y.key[0] + common, y.key[1..]);
    }
  }

  lemma ShiftKeepsOrder(common: int, f: Keyed<Row> -> Keyed<Row>)
    requires forall k: Keyed<Row> :: f(k) == Shift(common, k)
    ensures SameOrder<Row, Row>(f)
  {
    hide Shift, Leq;
    forall x: Keyed<Row>, y: Keyed<Row> ensures Leq(x.key, y.key) <==> Leq(f(x).key, f(y).key) {
      ShiftKeepsLeq(common, x, y);
      assert f(x) == Shift(common, x) && f(y) == Shift(common, y);
    }
  }

  /** Sorting shifted rows gives the identities of the ranking. */
  lemma ShiftedRanking(common: int, rows: seq<Row>)
    ensures Items(Sort(Apply((k: Keyed<Row>) => Shift(common, k), KeyedRows(rows)))) == Identities(Ranking(rows))
  {
    hide RankKey, Identity;
    var f := (k: Keyed<Row>) => Shift(common, k);
    ShiftKeepsOrder(common, f);
    SortMap(f, KeyedRows(rows));
  }

  lemma ShiftedRow(common: int, r: Row)
    ensures Shift(common, KeyedRow(r)) == Keyed([common - r.expectedJ] + ([r.cost] + Codes(r.programId)), Identity(r))
  {
    assert KeyedRow(r).key[1..] == [r.cost] + Codes(r.programId);
  }

  lemma SameShiftedRow(c1: int, c2: int, a: Row, b: Row)
    requires Identity(a) == Identity(b) && a.expectedJ - c1 == b.expectedJ - c2
    ensures Shift(c1, KeyedRow(a)) == Shift(c2, KeyedRow(b))
  {
    assert a.cost == b.cost && a.programId == b.programId by {
      assert Identity(a).cost == a.cost && Identity(a).programId == a.programId;
    }
    hide Shift, KeyedRow, Identity;
    ShiftedRow(c1, a);
    ShiftedRow(c2, b);
    assert c1 - a.expectedJ == c2 - b.expectedJ;
  }

  lemma SameShiftedRows(c1: int, c2: int, rows1: seq<Row>, rows2: seq<Row>)
    requires |rows1| == |rows2|
    requires forall i :: 0 <= i < |rows1| ==>
      Identity(rows1[i]) == Identity(rows2[i]) && rows1[i].expectedJ - c1 == rows2[i].expectedJ - c2
    ensures Apply((k: Keyed<Row>) => Shift(c1, k), KeyedRows(rows1)) == Apply((k: Keyed<Row>) => Shift(c2, k), KeyedRows(rows2))
  {
    hide Shift, Identity, RankKey;
    forall i | 0 <= i < |rows1|
      ensures Shift(c1, KeyedRow(rows1[i])) == Shift(c2, KeyedRow(rows2[i]))
    {
      SameShiftedRow(c1, c2, rows1[i], rows2[i]);
    }
  }

  /** For one descriptor and one list of proposals, the order of the ranking and
      the winner are the same under any two predictors that weigh plans alike and
      any two profiles and reports: only the plan weight, the costs and the
      programs decide. */
  lemma OnlyPlanWeightDecides(s: Setting, predictor: Option<Predictor>, ps: seq<Proposal>,
      report1: Option<Metrics>, profile1: Option<Profile>, report2: Option<Metrics>, profile2: Option<Profile>)
    requires SamePlanWeight(s, predictor)
    requires Arbitrate(s, ps, report1, profile1).Ok? && Arbitrate(With(s, predictor), ps, report2, profile2).Ok?
    ensures var a, b := Arbitrate(s, ps, report1, profile1).value, Arbitrate(With(s, predictor), ps, report2, profile2).value;
      && Identities(a.ranking) == Identities(b.ranking)
      && a.winnerBranch == b.winnerBranch
      && a.winnerProposal == b.winnerProposal
      && a.proposalHashes == b.proposalHashes
  {
    hide RowOf, RankKey, Arbitrate, SamePlanWeight;
    ReceiptIs(s, ps, report1, profile1);
    ReceiptIs(With(s, predictor), ps, report2, profile2);
    var j1, j2 := CurrentJ(report1, profile1).value, CurrentJ(report2, profile2).value;
    var rows1, rows2 := RowsOf(s, j1, ps).value, RowsOf(With(s, predictor), j2, ps).value;
    RankingsCoincide(s, predictor, ps, j1, j2);
    assert Identities(Ranking(rows1))[0] == Identities(Ranking(rows2))[0] by {
      RankingIsSort(rows1);
      RankingIsSort(rows2);
    }
  }

  lemma RankingsCoincide(s: Setting, predictor: Option<Predictor>, ps: seq<Proposal>, j1: int, j2: int)
    requires SamePlanWeight(s, predictor)
    requires RowsOf(s, j1, ps).Ok? && RowsOf(With(s, predictor), j2, ps).Ok?
    ensures Identities(Ranking(RowsOf(s, j1, ps).value)) == Identities(Ranking(RowsOf(With(s, predictor), j2, ps).value))
  {
    hide RowOf, CommonScore, SamePlanWeight;
    var s2 := With(s, predictor);
    var rows1, rows2 := RowsOf(s, j1, ps).value, RowsOf(s2, j2, ps).value;
    var c1, c2 := CommonScore(s, j1), CommonScore(s2, j2);
    RowsPointwise(s, j1, ps);
    RowsPointwise(s2, j2, ps);
    forall i | 0 <= i < |ps|
      ensures Identity(rows1[i]) == Identity(rows2[i]) && rows1[i].expectedJ - c1 == rows2[i].expectedJ - c2
    {
      RowsShift(s, predictor, j1, j2, ps[i]);
    }
    SameShiftedRows(c1, c2, rows1, rows2);
    ShiftedRanking(c1, rows1);
    ShiftedRanking(c2, rows2);
  }

  // ----- the receipt's own check -----

  lemma SortStringsTwice(xs: seq<string>)
    ensures SortStrings(SortStrings(xs)) == SortStrings(xs)
  {
    SortStringsKept(xs);
    SortStringsPermute(xs, SortStrings(xs));
  }

  /** Exactly one proposal is the first whose row no other row is ahead of, and
      the receipt names it. */
  lemma WinnerIsFirstBestProposal(s: Setting, ps: seq<Proposal>, report: Option<Metrics>, profile: Option<Profile>)
      returns (n: nat)
    requires Arbitrate(s, ps, report, profile).Ok?
    ensures RankedRows(s, ps, report, profile).Ok? && |RankedRows(s, ps, report, profile).value| == |ps|
    ensures n < |ps| && FirstBest(RankedRows(s, ps, report, profile).value, n)
    ensures forall m :: FirstBest(RankedRows(s, ps, report, profile).value, m) ==> m == n
    ensures Arbitrate(s, ps, report, profile).value.winnerBranch == ps[n].branchId
    ensures Arbitrate(s, ps, report, profile).value.winnerProposal == s.o.hash(ProposalDoc(ps[n]))
  {
    hide Arbitrate, FirstBest, RankKey, RowOf;
    ReceiptIs(s, ps, report, profile);
    var jOld := CurrentJ(report, profile).value;
    var rows := RowsOf(s, jOld, ps).value;
    RankingIsSort(rows);
    n := OneFirstBest(rows);
    FirstBestIsRow(rows, n);
    WinnerIsFirstBest(rows, n);
    RowsPointwise(s, jOld, ps);
    RowParts(s, jOld, ps[n]);
  }

  lemma FirstBestIsRow(rows: seq<Row>, n: nat)
    requires FirstBest(rows, n)
    ensures n < |rows|
  {
  }

  /** With well-formed hashes the receipt always passes its own last check: a
      selection fails only on its inputs. */
  lemma ReceiptPassesItsCheck(s: Setting, ps: seq<Proposal>, report: Option<Metrics>, profile: Option<Profile>)
    requires forall d :: IsHash(s.o.hash(d))
    requires ValidDescriptor(s.descriptor) && ValidPolicy(s.policy) && |ps| != 0
    requires RankedRows(s, ps, report, profile).Ok?
    ensures Arbitrate(s, ps, report, profile).Ok?
  {
    hide ValidDescriptor, ValidPolicy, RankKey, RowOf, IsHash, IsBranch;
    var jOld := CurrentJ(report, profile).value;
    var rows := RowsOf(s, jOld, ps).value;
    RowsPointwise(s, jOld, ps);
    forall i | 0 <= i < |rows| ensures ValidRow(rows[i]) {
      RowIsValid(s, jOld, ps[i]);
    }
    RankedRowsValid(rows);
    HashesValid(s.o, ps);
    SortStringsTwice(ProposalHashes(s.o, ps));
  }

  lemma RowIsValid(s: Setting, jOld: int, p: Proposal)
    requires forall d :: IsHash(s.o.hash(d))
    requires RowOf(s, jOld, p).Ok?
    ensures ValidRow(RowOf(s, jOld, p).value)
  {
    hide IsHash;
  }

  lemma RankedRowsValid(rows: seq<Row>)
    requires forall i :: 0 <= i < |rows| ==> ValidRow(rows[i])
    ensures |Ranking(rows)| == |rows| && forall i :: 0 <= i < |rows| ==> ValidRow(Ranking(rows)[i])
  {
    hide ValidRow, RankKey;
    SortMembers(KeyedRows(rows));
    forall i | 0 <= i < |rows| ensures ValidRow(Ranking(rows)[i]) {
      var n := SortSource(KeyedRows(rows), i);
    }
  }

  lemma HashesValid(o: Oracles, ps: seq<Proposal>)
    requires forall d :: IsHash(o.hash(d))
    ensures var hs := SortStrings(ProposalHashes(o, ps));
      |hs| == |ps| && forall i :: 0 <= i < |hs| ==> IsHash(hs[i])
  {
    hide IsHash;
    var ks := KeyedStrings(ProposalHashes(o, ps));
    SortMembers(ks);
    forall i | 0 <= i < |ps| ensures IsHash(SortStrings(ProposalHashes(o, ps))[i]) {
      var n := SortSource(ks, i);
    }
  }

  // ----- order independence, exactly -----

  /** If two proposals tie on different rows, moving the one or the other to the
      front gives different receipts. */
  lemma TieDependsOnOrder(s: Setting, ps: seq<Proposal>, report: Option<Metrics>, profile: Option<Profile>, i: nat, j: nat)
    requires forall d :: IsHash(s.o.hash(d))
    requires Arbitrate(s, ps, report, profile).Ok? && RankedRows(s, ps, report, profile).Ok?
    requires i < |ps| && j < |ps|
    requires var rows := RankedRows(s, ps, report, profile).value;
             RankKey(rows[i]) == RankKey(rows[j]) && rows[i] != rows[j]
    ensures Arbitrate(s, MoveToFront(ps, i), report, profile) != Arbitrate(s, MoveToFront(ps, j), report, profile)
  {
    hide RowOf, RankKey, Arbitrate, MoveToFront;
    var jOld := CurrentJ(report, profile).value;
    var rows := RowsOf(s, jOld, ps).value;
    MovedRows(s, jOld, ps, i);
    MovedRows(s, jOld, ps, j);
    InputsChecked(s, ps, report, profile);
    ReceiptPassesItsCheck(s, MoveToFront(ps, i), report, profile);
    ReceiptPassesItsCheck(s, MoveToFront(ps, j), report, profile);
    ReceiptIs(s, MoveToFront(ps, i), report, profile);
    ReceiptIs(s, MoveToFront(ps, j), report, profile);
    TieShowsInputOrder(KeyedRows(rows), i, j);
    MovedKeys(rows, i);
    MovedKeys(rows, j);
    RankingIsSort(MoveToFront(rows, i));
    RankingIsSort(MoveToFront(rows, j));
  }

  lemma InputsChecked(s: Setting, ps: seq<Proposal>, report: Option<Metrics>, profile: Option<Profile>)
    requires Arbitrate(s, ps, report, profile).Ok?
    ensures ValidDescriptor(s.descriptor) && ValidPolicy(s.policy) && |ps| != 0
  {
    hide RowOf, RankKey, ValidReceipt;
  }

  /** Every order of the proposals gives the identical receipt exactly when
      proposals with equal keys produce equal rows. */
  lemma OrderIndependentIff(s: Setting, ps: seq<Proposal>, report: Option<Metrics>, profile: Option<Profile>)
    requires forall d :: IsHash(s.o.hash(d))
    requires Arbitrate(s, ps, report, profile).Ok? && RankedRows(s, ps, report, profile).Ok?
    ensures TiesAreEqual(RankedRows(s, ps, report, profile).value) <==>
      forall qs :: multiset(qs) == multiset(ps) ==> Arbitrate(s, qs, report, profile) == Arbitrate(s, ps, report, profile)
  {
    hide RowOf, RankKey, Arbitrate;
    var rows := RankedRows(s, ps, report, profile).value;
    if TiesAreEqual(rows) {
      forall qs | multiset(qs) == multiset(ps)
        ensures Arbitrate(s, qs, report, profile) == Arbitrate(s, ps, report, profile)
      {
        OrderIndependent(s, ps, qs, report, profile);
      }
    } else {
      var i, j :| 0 <= i < |rows| && 0 <= j < |rows| && RankKey(rows[i]) == RankKey(rows[j]) && rows[i] != rows[j];
      TieDependsOnOrder(s, ps, report, profile, i, j);
      assert multiset(MoveToFront(ps, i)) == multiset(ps) && multiset(MoveToFront(ps, j)) == multiset(ps);
    }
  }

  // ----- the same on the proposals themselves -----

  /** Proposals that share plan score, cost and program are the same proposal. */
  ghost predicate ContentDecides(s: Setting, ps: seq<Proposal>) {
    forall i, j :: 0 <= i < |ps| && 0 <= j < |ps| && SameMerit(s, ps[i], ps[j]) ==> ps[i] == ps[j]
  }

  predicate SameMerit(s: Setting, p: Proposal, q: Proposal) {
    PlanScore(s, p) == PlanScore(s, q) && Cost(s, p) == Cost(s, q) && p.programId == q.programId
  }

  /** The hash tells these proposals apart. */
  ghost predicate NoCollision(o: Oracles, ps: seq<Proposal>) {
    forall i, j :: 0 <= i < |ps| && 0 <= j < |ps| && o.hash(ProposalDoc(ps[i])) == o.hash(ProposalDoc(ps[j])) ==> ps[i] == ps[j]
  }

  lemma RankKeyParts(a: Row, b: Row)
    ensures RankKey(a) == RankKey(b) <==> a.expectedJ == b.expectedJ && a.cost == b.cost && a.programId == b.programId
  {
    if RankKey(a) == RankKey(b) {
      assert RankKey(a)[0] == -a.expectedJ && RankKey(b)[0] == -b.expectedJ;
      assert RankKey(a)[1] == a.cost && RankKey(b)[1] == b.cost;
      assert RankKey(a)[2..] == Codes(a.programId) && RankKey(b)[2..] == Codes(b.programId);
      CodesInjective(a.programId, b.programId);
    }
  }

  lemma RowParts(s: Setting, jOld: int, p: Proposal)
    requires RowOf(s, jOld, p).Ok?
    ensures var row := RowOf(s, jOld, p).value;
      && Cost(s, p) == Ok(row.cost) && row.programId == p.programId
      && row.branchId == p.branchId && row.proposalHash == s.o.hash(ProposalDoc(p))
  {
    hide ValidProposal, Cost, PredictDelta, CheckPlan;
  }

  /** Two rows tie exactly when their proposals have the same merit. */
  lemma TieIff(s: Setting, jOld: int, p: Proposal, q: Proposal)
    requires RowOf(s, jOld, p).Ok? && RowOf(s, jOld, q).Ok?
    ensures RankKey(RowOf(s, jOld, p).value) == RankKey(RowOf(s, jOld, q).value) <==> SameMerit(s, p, q)
  {
    RowParts(s, jOld, p);
    RowParts(s, jOld, q);
    ExpectedSplits(s, jOld, p);
    ExpectedSplits(s, jOld, q);
    RankKeyParts(RowOf(s, jOld, p).value, RowOf(s, jOld, q).value);
    hide RowOf, RankKey, PlanScore, CommonScore, Cost;
  }

  lemma TiesOfProposals(s: Setting, jOld: int, ps: seq<Proposal>)
    requires RowsOf(s, jOld, ps).Ok? && NoCollision(s.o, ps)
    ensures TiesAreEqual(RowsOf(s, jOld, ps).value) <==> ContentDecides(s, ps)
  {
    hide RowOf, RankKey, SameMerit;
    var rows := RowsOf(s, jOld, ps).value;
    RowsPointwise(s, jOld, ps);
    forall i, j | 0 <= i < |ps| && 0 <= j < |ps|
      ensures RankKey(rows[i]) == RankKey(rows[j]) <==> SameMerit(s, ps[i], ps[j])
      ensures rows[i] == rows[j] <==> ps[i] == ps[j]
    {
      TieIff(s, jOld, ps[i], ps[j]);
      RowParts(s, jOld, ps[i]);
      RowParts(s, jOld, ps[j]);
    }
  }

  /** Every order of the proposals gives the identical receipt exactly when no two
      different proposals share plan score, cost and program: something the caller
      can see beforehand, since objective, bias and observation play no part. */
  lemma OrderIndependentByContent(s: Setting, ps: seq<Proposal>, report: Option<Metrics>, profile: Option<Profile>)
    requires forall d :: IsHash(s.o.hash(d))
    requires NoCollision(s.o, ps)
    requires Arbitrate(s, ps, report, profile).Ok?
    ensures ContentDecides(s, ps) <==>
      forall qs :: multiset(qs) == multiset(ps) ==> Arbitrate(s, qs, report, profile) == Arbitrate(s, ps, report, profile)
  {
    hide Arbitrate, TiesAreEqual, ContentDecides, NoCollision, RowOf;
    ReceiptIs(s, ps, report, profile);
    TiesOfProposals(s, CurrentJ(report, profile).value, ps);
    OrderIndependentIff(s, ps, report, profile);
  }
}
