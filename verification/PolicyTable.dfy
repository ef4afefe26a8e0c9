/** The policy trainer's table: conversion of both input forms, the bootstrap
    merge, the bundle, and the separate verifier that accepts or refuses it. */
module PolicyTable {
  import opened Results
  import opened Ordering
  import opened Text

  // ----- inputs as read: fields may be missing or of the wrong type -----

  datatype RawCap = NoCap | RawCap(capabilityId: string, score: Option<int>)

  datatype RawRow = NoRow | RawRow(contextKey: Option<string>, capabilities: Option<seq<RawCap>>, actions: Option<seq<RawCap>>)

  /** A table payload. The outer option of a field is its presence, the inner one
      its type; `rest` stands for the other fields of the legacy form. */
  datatype Payload = Payload(
    schema: string,
    tableId: Option<string>, rows: Option<Option<seq<RawRow>>>,
    policyId: Option<string>, contextRows: Option<Option<seq<RawRow>>>, rest: string)

  datatype Bootstrap = Bootstrap(schema: string, rows: Option<seq<RawRow>>)

  // ----- outputs -----

  datatype Ranked = Ranked(capability: string, score: int)

  datatype Row = Row(context: string, ranked: seq<Ranked>)

  datatype Table = Table(id: string, rows: seq<Row>)

  datatype Bundle = Bundle(id: string, tableId: string, table: Table)

  /** What is hashed: a table or bundle without its id, a legacy payload without its own. */
  datatype Doc = TableDoc(rows: seq<Row>) | LegacyDoc(p: Payload) | BundleDoc(tableId: string, table: Table)

  type Hash = Doc -> string

  const TABLE_SCHEMA := "orch_policy_table_v1"
  const BOOTSTRAP_SCHEMA := "orch_policy_bootstrap_rows_v1"

  // ----- one ranked list -----

  function Capabilities(rs: seq<Ranked>): set<string> {
    set i | 0 <= i < |rs| :: rs[i].capability
  }

  /** The first entry of every named capability, in input order. */
  function Keep(raw: seq<RawCap>): Result<seq<Ranked>> {
    if |raw| == 0 then Ok([]) else
    var kept :- Keep(raw[..|raw| - 1]);
    match raw[|raw| - 1]
    case NoCap => Fail("SCHEMA_FAIL")
    case RawCap(id, score) =>
      if Strip(id) == "" || Strip(id) in Capabilities(kept) then Ok(kept)
      else if score.None? then Fail("SCHEMA_FAIL")
      else Ok(kept + [Ranked(Strip(id), score.value)])
  }

  /** Descending by score, then ascending by capability. */
  function RankKey(r: Ranked): seq<int> {
    [-r.score] + Codes(r.capability)
  }

  function KeyedRanked(rs: seq<Ranked>): (r: seq<Keyed<Ranked>>)
    ensures |r| == |rs| && forall i :: 0 <= i < |rs| ==> r[i] == Keyed(RankKey(rs[i]), rs[i])
  {
    seq(|rs|, i requires 0 <= i < |rs| => Keyed(RankKey(rs[i]), rs[i]))
  }

  function Normalize(raw: Option<seq<RawCap>>): Result<seq<Ranked>> {
    if raw.None? || |raw.value| == 0 then Fail("SCHEMA_FAIL") else
    var kept :- Keep(raw.value);
    if |kept| == 0 then Fail("SCHEMA_FAIL") else Ok(Items(Sort(KeyedRanked(kept))))
  }

  lemma {:induction false} KeepFailsEarly(raw: seq<RawCap>, n: nat)
    requires n <= |raw| && Keep(raw[..n]).Fail?
    ensures Keep(raw) == Keep(raw[..n])
    decreases |raw|
  {
    if n == |raw| {
      assert raw[..n] == raw;
    } else {
      assert raw[..|raw| - 1][..n] == raw[..n];
      KeepFailsEarly(raw[..|raw| - 1], n);
    }
  }

  lemma NothingSeen()
    ensures Capabilities([]) == {}
  {
  }

  lemma SeenGrows(kept: seq<Ranked>, r: Ranked)
    ensures Capabilities(kept + [r]) == Capabilities(kept) + {r.capability}
  {
    forall c ensures c in Capabilities(kept + [r]) <==> c in Capabilities(kept) + {r.capability} {
      if c in Capabilities(kept) {
        var i :| 0 <= i < |kept| && kept[i].capability == c;
        assert (kept + [r])[i].capability == c;
      }
      assert (kept + [r])[|kept|] == r;
    }
  }

  method NormalizeRanked(raw: Option<seq<RawCap>>) returns (r: Result<seq<Ranked>>)
    ensures r == Normalize(raw)
  {
    hide Capabilities, RankKey;
    if raw.None? || |raw.value| == 0 {
      return Fail("SCHEMA_FAIL");
    }
    var out: seq<Ranked> := [];
    var seen: set<string> := {};
    NothingSeen();
    for i := 0 to |raw.value|
      invariant Keep(raw.value[..i]) == Ok(out)
      invariant seen == Capabilities(out)
    {
      assert raw.value[..i + 1][..i] == raw.value[..i];
      if raw.value[i].NoCap? {
        KeepFailsEarly(raw.value, i + 1);
        return Fail("SCHEMA_FAIL");
      }
      var id := Strip(raw.value[i].capabilityId);
      if id != "" && id !in seen {
        if raw.value[i].score.None? {
          KeepFailsEarly(raw.value, i + 1);
          return Fail("SCHEMA_FAIL");
        }
        SeenGrows(out, Ranked(id, raw.value[i].score.value));
        out := out + [Ranked(id, raw.value[i].score.value)];
        seen := seen + {id};
      }
    }
    assert raw.value[..|raw.value|] == raw.value;
    r := if |out| == 0 then Fail("SCHEMA_FAIL") else Ok(Items(Sort(KeyedRanked(out))));
  }

  // ----- the rows of a table -----

  /** `ensure_sha256`. */
  function EnsureSha256(value: Option<string>): Result<string> {
    if value.Some? && IsSha256(value.value) then Ok(value.value) else Fail("SCHEMA_FAIL")
  }

  datatype Form = New | Legacy

  /** The ranked list of a row under the field name its form uses. */
  function RankedField(raw: RawRow, form: Form): Option<seq<RawCap>>
    requires raw.RawRow?
  {
    if form == New then raw.capabilities else raw.actions
  }

  function Contexts(rows: seq<Row>): set<string> {
    set i | 0 <= i < |rows| :: rows[i].context
  }

  /** The rows in input order; a repeated context is refused. */
  function Collect(raw: seq<RawRow>, form: Form): Result<seq<Row>> {
    if |raw| == 0 then Ok([]) else
    var rows :- Collect(raw[..|raw| - 1], form);
    var row := raw[|raw| - 1];
    if row.NoRow? then Fail("SCHEMA_FAIL") else
    var context :- EnsureSha256(row.contextKey);
    if context in Contexts(rows) then Fail("NONDETERMINISTIC") else
    var ranked :- Normalize(RankedField(row, form));
    Ok(rows + [Row(context, ranked)])
  }

  function KeyedRows(rows: seq<Row>): (r: seq<Keyed<Row>>)
    ensures |r| == |rows| && forall i :: 0 <= i < |rows| ==> r[i] == Keyed(Codes(rows[i].context), rows[i])
  {
    seq(|rows|, i requires 0 <= i < |rows| => Keyed(Codes(rows[i].context), rows[i]))
  }

  function SortRows(rows: seq<Row>): seq<Row> {
    Items(Sort(KeyedRows(rows)))
  }

  function NormalizeRows(raw: seq<RawRow>, form: Form): Result<seq<Row>> {
    var rows :- Collect(raw, form);
    Ok(SortRows(rows))
  }

  lemma {:induction false} CollectFailsEarly(raw: seq<RawRow>, form: Form, n: nat)
    requires n <= |raw| && Collect(raw[..n], form).Fail?
    ensures Collect(raw, form) == Collect(raw[..n], form)
    decreases |raw|
  {
    hide Normalize;
    if n == |raw| {
      assert raw[..n] == raw;
    } else {
      assert raw[..|raw| - 1][..n] == raw[..n];
      CollectFailsEarly(raw[..|raw| - 1], form, n);
    }
  }

  lemma NoContexts()
    ensures Contexts([]) == {}
  {
  }

  lemma ContextsGrow(rows: seq<Row>, row: Row)
    ensures Contexts(rows + [row]) == Contexts(rows) + {row.context}
  {
    forall c ensures c in Contexts(rows + [row]) <==> c in Contexts(rows) + {row.context} {
      if c in Contexts(rows) {
        var i :| 0 <= i < |rows| && rows[i].context == c;
        assert (rows + [row])[i].context == c;
      }
      assert (rows + [row])[|rows|] == row;
    }
  }

  method CollectRows(raw: seq<RawRow>, form: Form) returns (r: Result<seq<Row>>)
    ensures r == NormalizeRows(raw, form)
  {
    hide Contexts, Normalize, IsSha256, SortRows;
    var rows: seq<Row> := [];
    var seen: set<string> := {};
    NoContexts();
    for i := 0 to |raw|
      invariant Collect(raw[..i], form) == Ok(rows)
      invariant seen == Contexts(rows)
    {
      assert raw[..i + 1][..i] == raw[..i];
      if raw[i].NoRow? {
        CollectFailsEarly(raw, form, i + 1);
        return Fail("SCHEMA_FAIL");
      }
      var context := EnsureSha256(raw[i].contextKey);
      if context.Fail? {
        CollectFailsEarly(raw, form, i + 1);
        return Fail("SCHEMA_FAIL");
      }
      if context.value in seen {
        CollectFailsEarly(raw, form, i + 1);
        return Fail("NONDETERMINISTIC");
      }
      var ranked := NormalizeRanked(RankedField(raw[i], form));
      if ranked.Fail? {
        CollectFailsEarly(raw, form, i + 1);
        return Fail(ranked.reason);
      }
      ContextsGrow(rows, Row(context.value, ranked.value));
      rows := rows + [Row(context.value, ranked.value)];
      seen := seen + {context.value};
    }
    assert raw[..|raw|] == raw;
    r := Ok(SortRows(rows));
  }

  // ----- tables and bundles -----

  predicate ValidTable(t: Table) {
    && IsSha256(t.id)
    && |t.rows| >= 1
    && forall i :: 0 <= i < |t.rows| ==> ValidRow(t.rows[i])
  }

  predicate ValidRow(r: Row) {
    && IsSha256(r.context)
    && |r.ranked| >= 1
    && forall j :: 0 <= j < |r.ranked| ==> |r.ranked[j].capability| >= 1
  }

  predicate ValidBundle(b: Bundle) {
    IsSha256(b.id) && IsSha256(b.tableId) && ValidTable(b.table)
  }

  /** The table of the given rows with its computed id, if it meets the schema. */
  function TableFrom(hash: Hash, rows: seq<Row>): Result<Table> {
    var t := Table(hash(TableDoc(rows)), rows);
    if ValidTable(t) then Ok(t) else Fail("SCHEMA_FAIL")
  }

  /** The conversion of a payload of either form. */
  function Convert(hash: Hash, p: Payload): Result<Table> {
    if Strip(p.schema) != TABLE_SCHEMA then Fail("SCHEMA_FAIL")
    else if p.tableId.Some? && p.rows.Some? then
      if p.rows.value.None? || |p.rows.value.value| == 0 then Fail("SCHEMA_FAIL") else
      var rows :- NormalizeRows(p.rows.value.value, New);
      TableFrom(hash, rows)
    else if p.policyId.Some? && p.contextRows.Some? then
      var id :- EnsureSha256(p.policyId);
      if hash(LegacyDoc(p.(policyId := None))) != id then Fail("NONDETERMINISTIC")
      else if p.contextRows.value.None? || |p.contextRows.value.value| == 0 then Fail("SCHEMA_FAIL") else
      var rows :- NormalizeRows(p.contextRows.value.value, Legacy);
      TableFrom(hash, rows)
    else Fail("SCHEMA_FAIL")
  }

  /** The bootstrap rows; an absent file counts as no rows. */
  function BootstrapRows(b: Option<Bootstrap>): Result<seq<Row>> {
    if b.None? then Ok([])
    else if Strip(b.value.schema) != BOOTSTRAP_SCHEMA || b.value.rows.None? then Fail("SCHEMA_FAIL")
    else NormalizeRows(b.value.rows.value, New)
  }

  /** A typed row as it reads back from its own text. */
  function AsRawRanked(rs: seq<Ranked>): (r: seq<RawCap>)
    ensures |r| == |rs| && forall i :: 0 <= i < |rs| ==> r[i] == RawCap(rs[i].capability, Some(rs[i].score))
  {
    seq(|rs|, i requires 0 <= i < |rs| => RawCap(rs[i].capability, Some(rs[i].score)))
  }

  /** The table after the rows of `rows` have been written into `m` in order. */
  function Merge(m: map<string, Row>, rows: seq<Row>): Result<map<string, Row>> {
    if |rows| == 0 then Ok(m) else
    var merged :- Merge(m, rows[..|rows| - 1]);
    var row := rows[|rows| - 1];
    var context :- EnsureSha256(Some(row.context));
    var ranked :- Normalize(Some(AsRawRanked(row.ranked)));
    Ok(merged[context := Row(context, ranked)])
  }

  /** Bootstrap rows replace the table's rows of the same context. */
  function ApplyBootstrap(hash: Hash, t: Table, rows: seq<Row>): Result<Table> {
    if |rows| == 0 then Ok(t) else
    var own :- Merge(map[], t.rows);
    var merged :- Merge(own, rows);
    TableFrom(hash, Values(merged, SortedSet(merged.Keys)))
  }

  lemma {:induction false} MergeFailsEarly(m: map<string, Row>, rows: seq<Row>, n: nat)
    requires n <= |rows| && Merge(m, rows[..n]).Fail?
    ensures Merge(m, rows) == Merge(m, rows[..n])
    decreases |rows|
  {
    hide Normalize;
    if n == |rows| {
      assert rows[..n] == rows;
    } else {
      assert rows[..|rows| - 1][..n] == rows[..n];
      MergeFailsEarly(m, rows[..|rows| - 1], n);
    }
  }

  method MergeInto(m: map<string, Row>, rows: seq<Row>) returns (r: Result<map<string, Row>>)
    ensures r == Merge(m, rows)
  {
    hide Normalize, IsSha256;
    var merged := m;
    for i := 0 to |rows|
      invariant Merge(m, rows[..i]) == Ok(merged)
    {
      assert rows[..i + 1][..i] == rows[..i];
      var context := EnsureSha256(Some(rows[i].context));
      if context.Fail? {
        MergeFailsEarly(m, rows, i + 1);
        return Fail(context.reason);
      }
      var ranked := NormalizeRanked(Some(AsRawRanked(rows[i].ranked)));
      if ranked.Fail? {
        MergeFailsEarly(m, rows, i + 1);
        return Fail(ranked.reason);
      }
      merged := merged[context.value := Row(context.value, ranked.value)];
    }
    assert rows[..|rows|] == rows;
    r := Ok(merged);
  }

  method ApplyBootstrapRows(hash: Hash, t: Table, rows: seq<Row>) returns (r: Result<Table>)
    ensures r == ApplyBootstrap(hash, t, rows)
  {
    if |rows| == 0 {
      return Ok(t);
    }
    var own := MergeInto(map[], t.rows);
    if own.Fail? {
      return Fail(own.reason);
    }
    var merged := MergeInto(own.value, rows);
    if merged.Fail? {
      return Fail(merged.reason);
    }
    r := TableFrom(hash, Values(merged.value, SortedSet(merged.value.Keys)));
  }

  function BuildBundle(hash: Hash, t: Table): Result<Bundle> {
    if !IsSha256(t.id) then Fail("SCHEMA_FAIL")
    else if hash(TableDoc(t.rows)) != t.id then Fail("NONDETERMINISTIC")
    else
      var b := Bundle(hash(BundleDoc(t.id, t)), t.id, t);
      if ValidBundle(b) then Ok(b) else Fail("SCHEMA_FAIL")
  }

  /** The independent acceptor: recomputes both ids and the binding between them. */
  function VerifyBundle(hash: Hash, b: Bundle): Result<string> {
    if !ValidBundle(b) then Fail("SCHEMA_FAIL")
    else if hash(BundleDoc(b.tableId, b.table)) != b.id then Fail("NONDETERMINISTIC")
    else if b.table.id != b.tableId then Fail("NONDETERMINISTIC")
    else if hash(TableDoc(b.table.rows)) != b.table.id then Fail("NONDETERMINISTIC")
    else Ok(b.id)
  }

  /** The trainer's whole way from its inputs to a bundle. */
  function Train(hash: Hash, p: Payload, b: Option<Bootstrap>): Result<Bundle> {
    var t :- Convert(hash, p);
    var rows :- BootstrapRows(b);
    var merged :- ApplyBootstrap(hash, t, rows);
    BuildBundle(hash, merged)
  }
}
