/** What the trainer guarantees: normal form, stability under conversion, the
    meaning of the bootstrap merge, and acceptance by the separate verifier. */
module PolicyTableLaws {
  import opened Results
  import opened Ordering
  import opened Text
  import opened PolicyTable

  // ----- the normal form of a ranked list -----

  ghost predicate NamedOnce(rs: seq<Ranked>) {
    && (forall i :: 0 <= i < |rs| ==> rs[i].capability != "" && Strip(rs[i].capability) == rs[i].capability)
    && (forall i, j :: 0 <= i < j < |rs| ==> rs[i].capability != rs[j].capability)
  }

  ghost predicate NormalRanked(rs: seq<Ranked>) {
    |rs| >= 1 && NamedOnce(rs) && Ordered(KeyedRanked(rs))
  }

  lemma {:induction false} KeepNamesOnce(raw: seq<RawCap>)
    requires Keep(raw).Ok?
    ensures NamedOnce(Keep(raw).value)
  {
    if |raw| != 0 {
      KeepNamesOnce(raw[..|raw| - 1]);
      var kept := Keep(raw[..|raw| - 1]).value;
      StripStripped(raw[|raw| - 1].capabilityId);
      forall i | 0 <= i < |kept| ensures kept[i].capability in Capabilities(kept) {
      }
    }
  }

  lemma SortedRankedMembers(rs: seq<Ranked>)
    ensures var r := Items(Sort(KeyedRanked(rs)));
      && |r| == |rs|
      && KeyedRanked(r) == Sort(KeyedRanked(rs))
      && multiset(r) == multiset(rs)
  {
    var ks := KeyedRanked(rs);
    SortMembers(ks);
    SortPermutes(ks);
    forall i | 0 <= i < |rs| ensures KeyedRanked(Items(Sort(ks)))[i] == Sort(ks)[i] {
      var n := SortSource(ks, i);
    }
    assert Items(Sort(ks)) == Apply((k: Keyed<Ranked>) => k.item, Sort(ks));
    assert rs == Apply((k: Keyed<Ranked>) => k.item, ks);
    ApplyPermutes((k: Keyed<Ranked>) => k.item, Sort(ks), ks);
  }

  lemma NamedOncePermutes(a: seq<Ranked>, b: seq<Ranked>)
    requires multiset(a) == multiset(b) && NamedOnce(a)
    ensures NamedOnce(b)
  {
    SameMembers(b, a);
    forall i | 0 <= i < |b| ensures b[i].capability != "" && Strip(b[i].capability) == b[i].capability {
      assert b[i] in a;
    }
    var name := (r: Ranked) => r.capability;
    assert Distinguishes(name, a);
    DistinguishesPermutes(name, a, b);
    assert forall i, j :: 0 <= i < j < |b| ==> name(b[i]) != name(b[j]);
  }

  /** Normalizing yields the normal form: named once, non-blank, in rank order. */
  lemma NormalizeIsNormal(raw: Option<seq<RawCap>>)
    requires Normalize(raw).Ok?
    ensures NormalRanked(Normalize(raw).value)
  {
    var kept := Keep(raw.value).value;
    KeepNamesOnce(raw.value);
    SortedRankedMembers(kept);
    SortOrdered(KeyedRanked(kept));
    NamedOncePermutes(kept, Normalize(raw).value);
  }

  /** For every capability the first entry counts, and only named ones appear. */
  lemma {:induction false} FirstEntryCounts(raw: seq<RawCap>, r: Ranked)
    requires Keep(raw).Ok?
    ensures r in Keep(raw).value <==>
      exists i :: 0 <= i < |raw| && IsFirst(raw, i, r)
  {
    if |raw| != 0 {
      var n := |raw| - 1;
      FirstEntryCounts(raw[..n], r);
      var kept := Keep(raw[..n]).value;
      assert forall i :: 0 <= i < n ==> (IsFirst(raw, i, r) <==> IsFirst(raw[..n], i, r));
      if r.capability != "" {
        KeptNames(raw[..n], r.capability);
      }
      NewEntry(raw, raw[..n], r);
    }
  }

  /** The last entry is kept exactly when it is the first of its capability. */
  lemma NewEntry(raw: seq<RawCap>, before: seq<RawCap>, r: Ranked)
    requires |raw| != 0 && Keep(raw).Ok? && before == raw[..|raw| - 1]
    requires r.capability != "" ==>
      (r.capability in Capabilities(Keep(before).value) <==> exists i :: 0 <= i < |before| && Names(before[i], r.capability))
    ensures r in Keep(raw).value <==> r in Keep(before).value || IsFirst(raw, |raw| - 1, r)
  {
    hide Strip, Capabilities;
    var n := |raw| - 1;
    var kept := Keep(before).value;
    if IsFirst(raw, n, r) {
      assert r.capability !in Capabilities(kept);
      assert Keep(raw).value == kept + [r];
    }
    if Keep(raw).value != kept {
      var fresh' := Ranked(Strip(raw[n].capabilityId), raw[n].score.value);
      assert Keep(raw).value == kept + [fresh'];
      if r == fresh' {
        assert r.capability !in Capabilities(kept);
        assert forall j :: 0 <= j < n ==> before[j] == raw[j] && !Names(before[j], r.capability);
      }
    }
  }

  /** Entry `i` is the first of its capability, and reads `r`. */
  ghost predicate IsFirst(raw: seq<RawCap>, i: nat, r: Ranked)
    requires i < |raw|
  {
    && Names(raw[i], r.capability) && r.capability != ""
    && raw[i].score == Some(r.score)
    && forall j :: 0 <= j < i ==> !Names(raw[j], r.capability)
  }

  ghost predicate Names(raw: RawCap, c: string) {
    raw.RawCap? && Strip(raw.capabilityId) == c
  }

  lemma {:induction false} KeptNames(raw: seq<RawCap>, c: string)
    requires Keep(raw).Ok? && c != ""
    ensures c in Capabilities(Keep(raw).value) <==>
      exists i :: 0 <= i < |raw| && Names(raw[i], c)
  {
    if |raw| != 0 {
      var n := |raw| - 1;
      KeptNames(raw[..n], c);
      var kept := Keep(raw[..n]).value;
      if Keep(raw).value != kept {
        SeenGrows(kept, Keep(raw).value[|kept|]);
      }
    }
  }

  /** Entry `i` is the first to name its capability. */
  ghost predicate FirstNamed(raw: seq<RawCap>, i: nat)
    requires i < |raw|
  {
    && raw[i].RawCap? && Strip(raw[i].capabilityId) != ""
    && forall j :: 0 <= j < i ==> !Names(raw[j], Strip(raw[i].capabilityId))
  }

  /** An entry with an unreadable score is tolerated unless it comes first for its
      capability; anything that is no object is not. */
  lemma {:induction false} KeepSucceedsIff(raw: seq<RawCap>)
    ensures Keep(raw).Ok? <==>
      forall i :: 0 <= i < |raw| ==> raw[i].RawCap? && (FirstNamed(raw, i) ==> raw[i].score.Some?)
  {
    hide Strip, Capabilities;
    if |raw| != 0 {
      var n := |raw| - 1;
      KeepSucceedsIff(raw[..n]);
      assert forall i :: 0 <= i < n ==> (FirstNamed(raw, i) <==> FirstNamed(raw[..n], i));
      if Keep(raw[..n]).Ok? && raw[n].RawCap? && Strip(raw[n].capabilityId) != "" {
        KeptNames(raw[..n], Strip(raw[n].capabilityId));
      }
    }
  }

  lemma KeepsSomething(raw: seq<RawCap>, i: nat)
    requires Keep(raw).Ok? && i < |raw| && raw[i].RawCap? && Strip(raw[i].capabilityId) != ""
    ensures |Keep(raw).value| != 0
  {
    KeptNames(raw, Strip(raw[i].capabilityId));
    assert Names(raw[i], Strip(raw[i].capabilityId));
  }

  lemma KeepsNamed(raw: seq<RawCap>) returns (i: nat)
    requires Keep(raw).Ok? && |Keep(raw).value| != 0
    ensures i < |raw| && raw[i].RawCap? && Strip(raw[i].capabilityId) != ""
  {
    KeepNamesOnce(raw);
    FirstEntryCounts(raw, Keep(raw).value[0]);
    i :| 0 <= i < |raw| && IsFirst(raw, i, Keep(raw).value[0]);
  }

  /** A ranked list is refused exactly when it is no list, holds something that is
      no object, names nothing, or gives a first entry without a readable score. */
  lemma NormalizeSucceedsIff(raw: Option<seq<RawCap>>)
    ensures Normalize(raw).Ok? <==>
      && raw.Some?
      && (forall i :: 0 <= i < |raw.value| ==> raw.value[i].RawCap? && (FirstNamed(raw.value, i) ==> raw.value[i].score.Some?))
      && exists i :: 0 <= i < |raw.value| && raw.value[i].RawCap? && Strip(raw.value[i].capabilityId) != ""
  {
    hide Strip, FirstNamed;
    if raw.Some? {
      KeepSucceedsIff(raw.value);
      if Keep(raw.value).Ok? {
        if |Keep(raw.value).value| != 0 {
          var i := KeepsNamed(raw.value);
        }
        if i :| 0 <= i < |raw.value| && raw.value[i].RawCap? && Strip(raw.value[i].capabilityId) != "" {
          KeepsSomething(raw.value, i);
        }
      }
    }
  }

  /** Higher scores first, equal scores by name. */
  ghost predicate InRankOrder(rs: seq<Ranked>) {
    forall i, j :: 0 <= i < j < |rs| ==>
      rs[i].score > rs[j].score || (rs[i].score == rs[j].score && StringLeq(rs[i].capability, rs[j].capability))
  }

  lemma NormalInRankOrder(rs: seq<Ranked>)
    requires NormalRanked(rs)
    ensures InRankOrder(rs)
  {
    hide Leq, NamedOnce;
    forall i, j | 0 <= i < j < |rs|
      ensures rs[i].score > rs[j].score || (rs[i].score == rs[j].score && StringLeq(rs[i].capability, rs[j].capability))
    {
      assert Leq(KeyedRanked(rs)[i].key, KeyedRanked(rs)[j].key);
      LeqCons(-rs[i].score, Codes(rs[i].capability), -rs[j].score, Codes(rs[j].capability));
    }
  }

  /** What normalizing means: the named capabilities, each once with its first
      score, by descending score and then by name. */
  lemma NormalizeMeaning(raw: Option<seq<RawCap>>, r: Ranked)
    requires Normalize(raw).Ok?
    ensures NormalRanked(Normalize(raw).value) && InRankOrder(Normalize(raw).value)
    ensures r in Normalize(raw).value <==> exists i :: 0 <= i < |raw.value| && IsFirst(raw.value, i, r)
  {
    NormalizeIsNormal(raw);
    NormalInRankOrder(Normalize(raw).value);
    FirstEntryCounts(raw.value, r);
    SortedRankedMembers(Keep(raw.value).value);
    SameMembers(Normalize(raw).value, Keep(raw.value).value);
    SameMembers(Keep(raw.value).value, Normalize(raw).value);
  }

  // ----- normal lists read back as they are -----

  lemma {:induction false} KeepOfNamedOnce(rs: seq<Ranked>)
    requires NamedOnce(rs)
    ensures Keep(AsRawRanked(rs)) == Ok(rs)
  {
    hide Strip;
    if |rs| != 0 {
      var n := |rs| - 1;
      KeepOfNamedOnce(rs[..n]);
      assert AsRawRanked(rs)[..n] == AsRawRanked(rs[..n]);
      assert rs[n].capability !in Capabilities(rs[..n]);
      assert rs == rs[..n] + [rs[n]];
    }
  }

  lemma NormalizeNormal(rs: seq<Ranked>)
    requires NormalRanked(rs)
    ensures Normalize(Some(AsRawRanked(rs))) == Ok(rs)
  {
    KeepOfNamedOnce(rs);
    SortOrderedIsSame(KeyedRanked(rs));
    assert Items(KeyedRanked(rs)) == rs;
  }

  // ----- the normal form of a table -----

  ghost predicate NormalRow(r: Row) {
    IsSha256(r.context) && NormalRanked(r.ranked)
  }

  ghost predicate NormalRows(rows: seq<Row>) {
    && (forall i :: 0 <= i < |rows| ==> NormalRow(rows[i]))
    && (forall i, j :: 0 <= i < j < |rows| ==> rows[i].context != rows[j].context)
    && Ordered(KeyedRows(rows))
  }

  lemma {:induction false} CollectIsNormal(raw: seq<RawRow>, form: Form)
    requires Collect(raw, form).Ok?
    ensures var rows := Collect(raw, form).value;
      && |rows| == |raw|
      && (forall i :: 0 <= i < |rows| ==> NormalRow(rows[i]))
      && (forall i, j :: 0 <= i < j < |rows| ==> rows[i].context != rows[j].context)
  {
    hide Normalize, NormalRanked, IsSha256;
    if |raw| != 0 {
      CollectIsNormal(raw[..|raw| - 1], form);
      var kept := Collect(raw[..|raw| - 1], form).value;
      NormalizeIsNormal(RankedField(raw[|raw| - 1], form));
      forall i | 0 <= i < |kept| ensures kept[i].context in Contexts(kept) {
      }
    }
  }

  lemma SortRowsIsNormal(rows: seq<Row>)
    requires forall i :: 0 <= i < |rows| ==> NormalRow(rows[i])
    requires forall i, j :: 0 <= i < j < |rows| ==> rows[i].context != rows[j].context
    ensures NormalRows(SortRows(rows)) && |SortRows(rows)| == |rows|
  {
    hide NormalRow;
    var ks := KeyedRows(rows);
    var r := SortRows(rows);
    SortMembers(ks);
    SortOrdered(ks);
    forall i | 0 <= i < |r| ensures NormalRow(r[i]) && KeyedRows(r)[i] == Sort(ks)[i] {
      var n := SortSource(ks, i);
    }
    assert KeyedRows(r) == Sort(ks);
    var context := (k: Keyed<Row>) => k.item.context;
    SortPermutes(ks);
    assert Distinguishes(context, ks);
    DistinguishesPermutes(context, ks, Sort(ks));
    forall i, j | 0 <= i < j < |r| ensures r[i].context != r[j].context {
      assert context(Sort(ks)[i]) != context(Sort(ks)[j]);
    }
  }

  lemma NormalizeRowsIsNormal(raw: seq<RawRow>, form: Form)
    requires NormalizeRows(raw, form).Ok?
    ensures NormalRows(NormalizeRows(raw, form).value) && |NormalizeRows(raw, form).value| == |raw|
  {
    hide NormalRow, NormalRows, SortRows;
    CollectIsNormal(raw, form);
    SortRowsIsNormal(Collect(raw, form).value);
  }

  /** A table's rows as they read back. */
  function AsRawRows(rows: seq<Row>): (r: seq<RawRow>)
    ensures |r| == |rows|
    ensures forall i :: 0 <= i < |rows| ==> r[i] == RawRow(Some(rows[i].context), Some(AsRawRanked(rows[i].ranked)), None)
  {
    seq(|rows|, i requires 0 <= i < |rows| => RawRow(Some(rows[i].context), Some(AsRawRanked(rows[i].ranked)), None))
  }

  lemma {:induction false} CollectNormal(rows: seq<Row>)
    requires forall i :: 0 <= i < |rows| ==> NormalRow(rows[i])
    requires forall i, j :: 0 <= i < j < |rows| ==> rows[i].context != rows[j].context
    ensures Collect(AsRawRows(rows), New) == Ok(rows)
  {
    hide Normalize, NormalRanked, IsSha256;
    if |rows| != 0 {
      var n := |rows| - 1;
      CollectNormal(rows[..n]);
      assert AsRawRows(rows)[..n] == AsRawRows(rows[..n]);
      NormalizeNormal(rows[n].ranked);
      assert rows[n].context !in Contexts(rows[..n]);
      assert rows == rows[..n] + [rows[n]];
    }
  }

  lemma NormalizeNormalRows(rows: seq<Row>)
    requires NormalRows(rows)
    ensures NormalizeRows(AsRawRows(rows), New) == Ok(rows)
  {
    CollectNormal(rows);
    SortOrderedIsSame(KeyedRows(rows));
    assert Items(KeyedRows(rows)) == rows;
  }

  // ----- conversion -----

  lemma NormalRowIsValid(r: Row)
    requires NormalRow(r)
    ensures ValidRow(r)
  {
  }

  /** Normal rows always make a table: the schema check never refuses them. */
  lemma NormalTable(hash: Hash, rows: seq<Row>)
    requires forall d :: IsSha256(hash(d))
    requires NormalRows(rows) && |rows| >= 1
    ensures TableFrom(hash, rows) == Ok(Table(hash(TableDoc(rows)), rows))
  {
    hide NormalRow, ValidRow;
    forall i | 0 <= i < |rows| ensures ValidRow(rows[i]) {
      NormalRowIsValid(rows[i]);
    }
  }

  lemma ConvertIsNormal(hash: Hash, p: Payload)
    requires Convert(hash, p).Ok?
    ensures var t := Convert(hash, p).value;
      NormalRows(t.rows) && |t.rows| >= 1 && t.id == hash(TableDoc(t.rows))
  {
    hide NormalRows, NormalizeRows, ValidTable;
    if p.tableId.Some? && p.rows.Some? {
      NormalizeRowsIsNormal(p.rows.value.value, New);
    } else {
      NormalizeRowsIsNormal(p.contextRows.value.value, Legacy);
    }
  }

  /** The payload a table is written as. */
  function AsPayload(t: Table): Payload {
    Payload(TABLE_SCHEMA, Some(t.id), Some(Some(AsRawRows(t.rows))), None, None, "")
  }

  /** Converting a converted table changes nothing. */
  lemma ConvertIdempotent(hash: Hash, p: Payload)
    requires Convert(hash, p).Ok?
    ensures Convert(hash, AsPayload(Convert(hash, p).value)) == Convert(hash, p)
  {
    hide NormalizeRows, ValidTable, NormalRows;
    var t := Convert(hash, p).value;
    ConvertIsNormal(hash, p);
    NormalizeNormalRows(t.rows);
    SchemaIsStripped();
    ConvertedIsValid(hash, p);
  }

  lemma SchemaIsStripped()
    ensures Strip(TABLE_SCHEMA) == TABLE_SCHEMA
  {
    assert IsStripped(TABLE_SCHEMA);
    StripStripped(TABLE_SCHEMA);
  }

  lemma ConvertedIsValid(hash: Hash, p: Payload)
    requires Convert(hash, p).Ok?
    ensures ValidTable(Convert(hash, p).value)
  {
    hide NormalizeRows;
  }

  /** The same row under the legacy field name. */
  ghost predicate SameRow(a: RawRow, b: RawRow) {
    (a.NoRow? && b.NoRow?) || (a.RawRow? && b.RawRow? && a.contextKey == b.contextKey && a.capabilities == b.actions)
  }

  lemma {:induction false} CollectSame(a: seq<RawRow>, b: seq<RawRow>)
    requires |a| == |b| && forall i :: 0 <= i < |a| ==> SameRow(a[i], b[i])
    ensures Collect(a, New) == Collect(b, Legacy)
  {
    hide Normalize, IsSha256;
    if |a| != 0 {
      CollectSame(a[..|a| - 1], b[..|b| - 1]);
      assert SameRow(a[|a| - 1], b[|b| - 1]);
    }
  }

  /** Both forms of the same rows convert alike, successfully or not, provided
      the legacy form carries its own hash. */
  lemma FormsAgree(hash: Hash, p: Payload, q: Payload, a: seq<RawRow>, b: seq<RawRow>)
    requires p.schema == q.schema && p.tableId.Some? && p.rows == Some(Some(a))
    requires (q.tableId.None? || q.rows.None?) && q.contextRows == Some(Some(b))
    requires q.policyId.Some? && IsSha256(q.policyId.value) && hash(LegacyDoc(q.(policyId := None))) == q.policyId.value
    requires |a| == |b| && forall i :: 0 <= i < |a| ==> SameRow(a[i], b[i])
    ensures Convert(hash, p) == Convert(hash, q)
  {
    hide Collect, SortRows, ValidTable, IsSha256;
    CollectSame(a, b);
  }

  // ----- the bootstrap merge -----

  /** The row of `context` in a list of rows, the last one if there are several. */
  ghost function Find(rows: seq<Row>, context: string): Option<Row> {
    if |rows| == 0 then None
    else if rows[|rows| - 1].context == context then Some(rows[|rows| - 1])
    else Find(rows[..|rows| - 1], context)
  }

  ghost predicate AllNormal(rows: seq<Row>) {
    forall i :: 0 <= i < |rows| ==> NormalRow(rows[i])
  }

  /** Writing normal rows into a table: every context reads its last row, or what
      was there before. */
  lemma {:induction false} MergeLooksUp(m: map<string, Row>, rows: seq<Row>)
    requires AllNormal(rows)
    ensures Merge(m, rows).Ok?
    ensures forall c :: c in Merge(m, rows).value <==> c in m || Find(rows, c).Some?
    ensures forall c :: c in Merge(m, rows).value ==>
      Merge(m, rows).value[c] == if Find(rows, c).Some? then Find(rows, c).value else m[c]
  {
    hide Normalize, NormalRanked, IsSha256;
    if |rows| != 0 {
      var n := |rows| - 1;
      assert NormalRow(rows[n]);
      MergeLooksUp(m, rows[..n]);
      NormalizeNormal(rows[n].ranked);
    }
  }

  ghost predicate NormalMap(m: map<string, Row>) {
    forall c :: c in m ==> m[c].context == c && NormalRow(m[c])
  }

  lemma {:induction false} FindIsThere(rows: seq<Row>, c: string)
    ensures Find(rows, c).Some? ==> Find(rows, c).value in rows && Find(rows, c).value.context == c
    ensures Find(rows, c).None? ==> forall i :: 0 <= i < |rows| ==> rows[i].context != c
  {
    if |rows| != 0 {
      FindIsThere(rows[..|rows| - 1], c);
    }
  }

  lemma FindAt(rows: seq<Row>, n: nat)
    requires n < |rows| && forall i, j :: 0 <= i < j < |rows| ==> rows[i].context != rows[j].context
    ensures Find(rows, rows[n].context) == Some(rows[n])
  {
    FindIsThere(rows, rows[n].context);
    var m :| 0 <= m < |rows| && rows[m] == Find(rows, rows[n].context).value;
  }

  lemma MergedInOrder(m: map<string, Row>)
    requires NormalMap(m)
    ensures NormalRows(Values(m, SortedSet(m.Keys)))
  {
    hide NormalRow, Leq;
    var ids := SortedSet(m.Keys);
    var rows := Values(m, ids);
    SortedSetAscending(m.Keys);
    assert forall i :: 0 <= i < |rows| ==> rows[i].context == ids[i];
    forall i, j | 0 <= i < j < |rows| ensures Leq(KeyedRows(rows)[i].key, KeyedRows(rows)[j].key) {
      assert StringLeq(ids[i], ids[j]);
    }
  }

  lemma MergedIsNormal(m: map<string, Row>)
    requires NormalMap(m)
    ensures var rows := Values(m, SortedSet(m.Keys));
      && NormalRows(rows)
      && |rows| == |m.Keys|
      && forall c :: Find(rows, c) == if c in m then Some(m[c]) else None
  {
    hide NormalRow, Find, Ordered;
    var ids := SortedSet(m.Keys);
    var rows := Values(m, ids);
    MergedInOrder(m);
    SortedSetMembers(m.Keys);
    forall c ensures Find(rows, c) == if c in m then Some(m[c]) else None {
      FindIsThere(rows, c);
      if c in m {
        assert c in ids;
        var i :| 0 <= i < |ids| && ids[i] == c;
        FindAt(rows, i);
      }
    }
  }

  lemma MergeKeepsNormal(m: map<string, Row>, rows: seq<Row>)
    requires NormalMap(m) && AllNormal(rows)
    ensures Merge(m, rows).Ok? && NormalMap(Merge(m, rows).value)
  {
    hide NormalRow;
    MergeLooksUp(m, rows);
    var r := Merge(m, rows).value;
    forall c | c in r ensures r[c].context == c && NormalRow(r[c]) {
      FindIsThere(rows, c);
    }
  }

  /** The merged table has the contexts of both, reads the bootstrap row where
      there is one and the table's own row elsewhere, and is in normal form. */
  lemma BootstrapWins(hash: Hash, t: Table, rows: seq<Row>)
    requires forall d :: IsSha256(hash(d))
    requires NormalRows(t.rows) && |t.rows| >= 1 && t.id == hash(TableDoc(t.rows)) && NormalRows(rows)
    ensures ApplyBootstrap(hash, t, rows).Ok?
    ensures var r := ApplyBootstrap(hash, t, rows).value;
      && NormalRows(r.rows) && |r.rows| >= 1 && r.id == hash(TableDoc(r.rows))
      && forall c :: Find(r.rows, c) == if Find(rows, c).Some? then Find(rows, c) else Find(t.rows, c)
  {
    hide NormalRow, Ordered;
    if |rows| != 0 {
      MergeLooksUp(map[], t.rows);
      MergeKeepsNormal(map[], t.rows);
      var own := Merge(map[], t.rows).value;
      MergeLooksUp(own, rows);
      MergeKeepsNormal(own, rows);
      var merged := Merge(own, rows).value;
      MergedIsNormal(merged);
      FindIsThere(rows, rows[0].context);
      assert rows[0].context in merged;
      NormalTable(hash, Values(merged, SortedSet(merged.Keys)));
    }
  }

  lemma RowsByLookup(a: seq<Row>, b: seq<Row>)
    requires NormalRows(a) && NormalRows(b) && forall c :: Find(a, c) == Find(b, c)
    ensures a == b
  {
    hide NormalRow, Find;
    var ka, kb := KeyedRows(a), KeyedRows(b);
    SameRowsSameSet(a, b);
    SameRowsSameSet(b, a);
    DistinctSameSet(a, b);
    forall x, y | x in ka && y in ka && x.key == y.key ensures x == y {
      CodesInjective(x.item.context, y.item.context);
    }
    ApplyPermutes((r: Row) => Keyed(Codes(r.context), r), a, b);
    assert ka == Apply((r: Row) => Keyed(Codes(r.context), r), a);
    assert kb == Apply((r: Row) => Keyed(Codes(r.context), r), b);
    OrderedPermutationUnique(ka, kb);
    assert a == Items(ka) && b == Items(kb);
  }

  lemma SameRowsSameSet(a: seq<Row>, b: seq<Row>)
    requires forall i, j :: 0 <= i < j < |a| ==> a[i].context != a[j].context
    requires forall c :: Find(a, c) == Find(b, c)
    ensures forall r :: r in a ==> r in b
  {
    forall r | r in a ensures r in b {
      FindIsThere(a, r.context);
      FindIsThere(b, r.context);
      var i :| 0 <= i < |a| && a[i] == r;
      var j :| 0 <= j < |a| && a[j] == Find(a, r.context).value;
    }
  }

  lemma DistinctSameSet(a: seq<Row>, b: seq<Row>)
    requires forall i, j :: 0 <= i < j < |a| ==> a[i].context != a[j].context
    requires forall i, j :: 0 <= i < j < |b| ==> b[i].context != b[j].context
    requires forall r :: r in a <==> r in b
    ensures multiset(a) == multiset(b)
  {
    forall r ensures multiset(a)[r] == multiset(b)[r] {
      OnceCounts(a, r);
      OnceCounts(b, r);
    }
  }

  /** Merging the same bootstrap rows again changes nothing. */
  lemma BootstrapIdempotent(hash: Hash, t: Table, rows: seq<Row>)
    requires forall d :: IsSha256(hash(d))
    requires NormalRows(t.rows) && |t.rows| >= 1 && t.id == hash(TableDoc(t.rows)) && NormalRows(rows)
    ensures ApplyBootstrap(hash, t, rows).Ok?
    ensures ApplyBootstrap(hash, ApplyBootstrap(hash, t, rows).value, rows) == ApplyBootstrap(hash, t, rows)
  {
    hide NormalRows, ApplyBootstrap, Find;
    BootstrapWins(hash, t, rows);
    var once := ApplyBootstrap(hash, t, rows).value;
    BootstrapWins(hash, once, rows);
    var twice := ApplyBootstrap(hash, once, rows).value;
    RowsByLookup(once.rows, twice.rows);
  }

  // ----- acceptance -----

  lemma BootstrapRowsNormal(b: Option<Bootstrap>)
    requires BootstrapRows(b).Ok?
    ensures NormalRows(BootstrapRows(b).value)
  {
    if b.Some? {
      NormalizeRowsIsNormal(b.value.rows.value, New);
    }
  }

  lemma NormalTableIsValid(hash: Hash, t: Table)
    requires forall d :: IsSha256(hash(d))
    requires NormalRows(t.rows) && |t.rows| >= 1 && t.id == hash(TableDoc(t.rows))
    ensures ValidTable(t)
  {
    hide NormalRows, ValidTable;
    NormalTable(hash, t.rows);
    ValidFrom(hash, t.rows);
  }

  lemma ValidFrom(hash: Hash, rows: seq<Row>)
    requires TableFrom(hash, rows).Ok?
    ensures ValidTable(Table(hash(TableDoc(rows)), rows))
  {
  }

  /** Once the inputs are read, training cannot fail, and the separate verifier
      accepts the bundle and confirms its id. */
  lemma TrainedBundleIsAccepted(hash: Hash, p: Payload, b: Option<Bootstrap>)
    requires forall d :: IsSha256(hash(d))
    requires Convert(hash, p).Ok? && BootstrapRows(b).Ok?
    ensures Train(hash, p, b).Ok?
    ensures VerifyBundle(hash, Train(hash, p, b).value) == Ok(Train(hash, p, b).value.id)
  {
    hide NormalRows, ValidTable, Convert, BootstrapRows, ApplyBootstrap;
    ConvertIsNormal(hash, p);
    BootstrapRowsNormal(b);
    var t, rows := Convert(hash, p).value, BootstrapRows(b).value;
    BootstrapWins(hash, t, rows);
    NormalTableIsValid(hash, ApplyBootstrap(hash, t, rows).value);
  }

  /** The verifier accepts exactly the bundles that the builder makes of a valid table. */
  lemma AcceptedIffBuilt(hash: Hash, b: Bundle)
    requires forall d :: IsSha256(hash(d))
    ensures VerifyBundle(hash, b).Ok? <==> ValidTable(b.table) && BuildBundle(hash, b.table) == Ok(b)
  {
    hide ValidTable;
  }

  /** The verifier accepts exactly the bundles with three hashes as ids that fit each
      other and their contents, and with at least one row, each of a hashed context
      and a ranked list of named capabilities. */
  lemma VerifierMeaning(hash: Hash, b: Bundle)
    ensures VerifyBundle(hash, b).Ok? <==>
      && IsSha256(b.id) && IsSha256(b.tableId) && b.tableId == b.table.id
      && b.table.id == hash(TableDoc(b.table.rows)) && b.id == hash(BundleDoc(b.tableId, b.table))
      && b.table.rows != []
      && forall row :: row in b.table.rows ==>
        IsSha256(row.context) && row.ranked != [] && forall r :: r in row.ranked ==> r.capability != ""
    ensures VerifyBundle(hash, b).Ok? ==> VerifyBundle(hash, b).value == b.id
  {
    hide IsSha256;
    assert ValidTable(b.table) <==>
      (IsSha256(b.table.id) && b.table.rows != [] && forall row :: row in b.table.rows ==> ValidRow(row));
  }

  /** Two accepted bundles with one id are the same bundle. */
  lemma AcceptedById(hash: Hash, a: Bundle, b: Bundle)
    requires forall x, y :: hash(x) == hash(y) ==> x == y
    requires VerifyBundle(hash, a) == Ok(b.id) && VerifyBundle(hash, b) == Ok(b.id)
    ensures a == b
  {
    hide ValidBundle;
    assert hash(BundleDoc(a.tableId, a.table)) == hash(BundleDoc(b.tableId, b.table));
  }

  // ----- what a trained table says -----

  /** Some raw row has this context, and its ranked list normalizes to that of `row`. */
  ghost predicate Given(raw: seq<RawRow>, form: Form, row: Row) {
    exists i: nat :: GivenAt(raw, form, row, i)
  }

  ghost predicate GivenAt(raw: seq<RawRow>, form: Form, row: Row, i: nat) {
    && i < |raw| && raw[i].RawRow? && raw[i].contextKey == Some(row.context)
    && Normalize(if form == New then raw[i].capabilities else raw[i].actions) == Ok(row.ranked)
  }

  lemma {:induction false} CollectedIsGiven(raw: seq<RawRow>, form: Form, row: Row)
    requires Collect(raw, form).Ok?
    ensures row in Collect(raw, form).value <==> Given(raw, form, row)
  {
    hide Normalize, IsSha256, Contexts;
    if |raw| != 0 {
      var n := |raw| - 1;
      CollectedIsGiven(raw[..n], form, row);
      assert GivenAt(raw, form, row, n) ==> Given(raw, form, row);
      forall i: nat | i < n ensures GivenAt(raw, form, row, i) <==> GivenAt(raw[..n], form, row, i) {
      }
    }
  }

  /** Row `i` is an object with a hash for a context, which no earlier row has, and
      with a ranked list that normalizes. */
  ghost predicate AcceptsRow(raw: seq<RawRow>, form: Form, i: nat)
    requires i < |raw|
  {
    && raw[i].RawRow?
    && raw[i].contextKey.Some? && IsSha256(raw[i].contextKey.value)
    && Normalize(if form == New then raw[i].capabilities else raw[i].actions).Ok?
    && forall j :: 0 <= j < i && raw[j].RawRow? ==> raw[j].contextKey != raw[i].contextKey
  }

  lemma {:induction false} CollectedContexts(raw: seq<RawRow>, form: Form, c: string)
    requires Collect(raw, form).Ok?
    ensures c in Contexts(Collect(raw, form).value) <==>
      exists i :: 0 <= i < |raw| && raw[i].RawRow? && raw[i].contextKey == Some(c)
  {
    hide Normalize, IsSha256;
    if |raw| != 0 {
      var n := |raw| - 1;
      CollectedContexts(raw[..n], form, c);
      var rows := Collect(raw[..n], form).value;
      ContextsGrow(rows, Collect(raw, form).value[|rows|]);
    }
  }

  lemma LastRowAccepted(raw: seq<RawRow>, form: Form)
    requires |raw| != 0 && Collect(raw[..|raw| - 1], form).Ok?
    ensures Collect(raw, form).Ok? <==> AcceptsRow(raw, form, |raw| - 1)
  {
    hide Normalize, IsSha256, Contexts;
    var n := |raw| - 1;
    if raw[n].RawRow? && raw[n].contextKey.Some? {
      var c := raw[n].contextKey.value;
      CollectedContexts(raw[..n], form, c);
      assert (exists j :: 0 <= j < n && raw[j].RawRow? && raw[j].contextKey == Some(c))
        <==> exists j :: 0 <= j < n && raw[..n][j].RawRow? && raw[..n][j].contextKey == Some(c);
    }
  }

  /** The rows of a table or bootstrap file are accepted exactly when each is. */
  lemma {:induction false} CollectSucceedsIff(raw: seq<RawRow>, form: Form)
    ensures Collect(raw, form).Ok? <==> forall i :: 0 <= i < |raw| ==> AcceptsRow(raw, form, i)
  {
    hide Normalize, IsSha256, Contexts;
    if |raw| != 0 {
      var n := |raw| - 1;
      CollectSucceedsIff(raw[..n], form);
      assert forall i :: 0 <= i < n ==> (AcceptsRow(raw, form, i) <==> AcceptsRow(raw[..n], form, i));
      if Collect(raw[..n], form).Ok? {
        LastRowAccepted(raw, form);
      }
    }
  }

  /** A payload converts exactly when it names the schema and has, in the new form,
      acceptable rows; or in the legacy form, its own hash and acceptable rows. */
  lemma ConvertSucceedsIff(hash: Hash, p: Payload)
    requires forall d :: IsSha256(hash(d))
    ensures Convert(hash, p).Ok? <==>
      && Strip(p.schema) == "orch_policy_table_v1"
      && (p.tableId.Some? && p.rows.Some? ==> Acceptable(p.rows.value, New))
      && (p.tableId.None? || p.rows.None? ==>
            && p.policyId == Some(hash(LegacyDoc(p.(policyId := None))))
            && p.contextRows.Some? && Acceptable(p.contextRows.value, Legacy))
  {
    hide NormalizeRows, ValidTable, IsSha256;
    if p.tableId.Some? && p.rows.Some? {
      RowsMakeTable(hash, p.rows.value, New);
    } else if p.policyId.Some? && p.contextRows.Some? {
      RowsMakeTable(hash, p.contextRows.value, Legacy);
    }
  }

  /** A list, not empty, of rows that are all accepted. */
  ghost predicate Acceptable(raw: Option<seq<RawRow>>, form: Form) {
    raw.Some? && |raw.value| != 0 && forall i :: 0 <= i < |raw.value| ==> AcceptsRow(raw.value, form, i)
  }

  lemma RowsMakeTable(hash: Hash, raw: Option<seq<RawRow>>, form: Form)
    requires forall d :: IsSha256(hash(d))
    ensures raw.Some? && |raw.value| != 0 ==>
      && (Acceptable(raw, form) <==> NormalizeRows(raw.value, form).Ok?)
      && (Acceptable(raw, form) ==> TableFrom(hash, NormalizeRows(raw.value, form).value).Ok?)
  {
    if raw.Some? && |raw.value| != 0 {
      CollectSucceedsIff(raw.value, form);
      if Acceptable(raw, form) {
        NormalizeRowsIsNormal(raw.value, form);
        hide NormalizeRows, NormalRows;
        NormalTable(hash, NormalizeRows(raw.value, form).value);
      }
    }
  }

  /** A bootstrap file is accepted when it names its schema and its rows are; an
      absent one always. */
  lemma BootstrapSucceedsIff(b: Option<Bootstrap>)
    ensures BootstrapRows(b).Ok? <==> b.Some? ==>
      && Strip(b.value.schema) == "orch_policy_bootstrap_rows_v1"
      && b.value.rows.Some? && forall i :: 0 <= i < |b.value.rows.value| ==> AcceptsRow(b.value.rows.value, New, i)
  {
    if b.Some? && b.value.rows.Some? {
      CollectSucceedsIff(b.value.rows.value, New);
    }
  }

  lemma SortRowsMembers(rows: seq<Row>)
    ensures forall row :: row in SortRows(rows) <==> row in rows
  {
    var ks := KeyedRows(rows);
    SortMembers(ks);
    forall row | row in SortRows(rows) ensures row in rows {
      var i :| 0 <= i < |SortRows(rows)| && SortRows(rows)[i] == row;
      var n := SortSource(ks, i);
    }
    forall row | row in rows ensures row in SortRows(rows) {
      var i :| 0 <= i < |rows| && rows[i] == row;
      var n := SortTarget(ks, i);
      assert SortRows(rows)[n] == row;
    }
  }

  lemma FindIsMember(rows: seq<Row>, row: Row)
    requires forall i, j :: 0 <= i < j < |rows| ==> rows[i].context != rows[j].context
    ensures Find(rows, row.context) == Some(row) <==> row in rows
  {
    FindIsThere(rows, row.context);
    if row in rows {
      var n :| 0 <= n < |rows| && rows[n] == row;
      FindAt(rows, n);
    }
  }

  lemma NormalizedIsGiven(raw: seq<RawRow>, form: Form, row: Row)
    requires NormalizeRows(raw, form).Ok?
    ensures Find(NormalizeRows(raw, form).value, row.context) == Some(row) <==> Given(raw, form, row)
  {
    hide Normalize, SortRows, Given, Find, NormalRow, Ordered;
    NormalizeRowsIsNormal(raw, form);
    CollectedIsGiven(raw, form, row);
    SortRowsMembers(Collect(raw, form).value);
    FindIsMember(NormalizeRows(raw, form).value, row);
  }

  /** The payload gives this row, in the form that counts. */
  ghost predicate InPayload(p: Payload, row: Row) {
    if p.tableId.Some? && p.rows.Some? then p.rows.value.Some? && Given(p.rows.value.value, New, row)
    else p.contextRows.Some? && p.contextRows.value.Some? && Given(p.contextRows.value.value, Legacy, row)
  }

  /** The bootstrap file gives this row; an absent file gives none. */
  ghost predicate InBootstrap(b: Option<Bootstrap>, row: Row) {
    b.Some? && b.value.rows.Some? && Given(b.value.rows.value, New, row)
  }

  lemma ConvertReads(hash: Hash, p: Payload, row: Row)
    requires Convert(hash, p).Ok?
    ensures Find(Convert(hash, p).value.rows, row.context) == Some(row) <==> InPayload(p, row)
  {
    hide Given, NormalizeRows, ValidTable, IsSha256, Find;
    if p.tableId.Some? && p.rows.Some? {
      NormalizedIsGiven(p.rows.value.value, New, row);
    } else {
      NormalizedIsGiven(p.contextRows.value.value, Legacy, row);
    }
  }

  lemma BootstrapReads(b: Option<Bootstrap>, row: Row)
    requires BootstrapRows(b).Ok?
    ensures Find(BootstrapRows(b).value, row.context) == Some(row) <==> InBootstrap(b, row)
  {
    if b.Some? {
      hide Given, NormalizeRows, Find;
      NormalizedIsGiven(b.value.rows.value, New, row);
    }
  }

  /** The contexts ascend, each once, and every ranked list is in rank order. */
  ghost predicate InOrder(rows: seq<Row>) {
    && (forall i, j :: 0 <= i < j < |rows| ==> rows[i].context != rows[j].context && StringLeq(rows[i].context, rows[j].context))
    && forall i :: 0 <= i < |rows| ==> InRankOrder(rows[i].ranked)
  }

  lemma NormalInOrder(rows: seq<Row>)
    requires NormalRows(rows)
    ensures InOrder(rows)
  {
    hide InRankOrder, NormalRanked, Leq, IsSha256;
    forall i | 0 <= i < |rows| ensures InRankOrder(rows[i].ranked) {
      assert NormalRow(rows[i]);
      NormalInRankOrder(rows[i].ranked);
    }
    forall i, j | 0 <= i < j < |rows| ensures StringLeq(rows[i].context, rows[j].context) {
      assert Leq(KeyedRows(rows)[i].key, KeyedRows(rows)[j].key);
    }
  }

  /** The trained bundle, read off the trainer's inputs: the row of a context is the
      bootstrap file's if that gives one and the payload's otherwise, in order, and
      the bundle carries the hashes of its table and of itself. */
  lemma TrainedMeaning(hash: Hash, p: Payload, b: Option<Bootstrap>, row: Row)
    requires forall d :: IsSha256(hash(d))
    requires Train(hash, p, b).Ok?
    ensures var bundle := Train(hash, p, b).value;
      && (row in bundle.table.rows <==>
            InBootstrap(b, row) || (InPayload(p, row) && forall r: Row :: r.context == row.context ==> !InBootstrap(b, r)))
      && InOrder(bundle.table.rows)
      && bundle.tableId == bundle.table.id == hash(TableDoc(bundle.table.rows))
      && bundle.id == hash(BundleDoc(bundle.tableId, bundle.table))
  {
    hide ApplyBootstrap, Convert, BootstrapRows, ValidTable, NormalRow, Ordered, Find, InBootstrap, InPayload, InOrder, IsSha256;
    var t, rows := Convert(hash, p).value, BootstrapRows(b).value;
    ConvertIsNormal(hash, p);
    BootstrapRowsNormal(b);
    BootstrapWins(hash, t, rows);
    var merged := ApplyBootstrap(hash, t, rows).value;
    NormalInOrder(merged.rows);
    FindIsMember(merged.rows, row);
    ConvertReads(hash, p, row);
    BootstrapReads(b, row);
    forall r: Row | r.context == row.context ensures Find(rows, row.context) == Some(r) <==> InBootstrap(b, r) {
      BootstrapReads(b, r);
    }
    FindContext(rows, row.context);
  }

  lemma FindContext(rows: seq<Row>, c: string)
    ensures Find(rows, c).Some? ==> Find(rows, c).value.context == c
  {
    FindIsThere(rows, c);
  }
}
