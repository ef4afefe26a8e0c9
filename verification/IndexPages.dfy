/** The vision index: the listing of item ids, and the pages that must hold the
    same items in the same order. */
module IndexPages {
  import opened Results
  import opened Q32
  import opened Ordering
  import opened Text

  // ----- hexadecimal ids -----

  function HexValue(c: char): (v: int)
    ensures IsHexDigit(c) ==> 0 <= v < 16
  {
    if '0' <= c <= '9' then c as int - 48 else c as int - 87
  }

  /** `bytes.fromhex`, on an even number of lower-case digits. */
  function FromHex(s: string): (r: seq<int>)
    ensures |r| == |s| / 2
  {
    if |s| < 2 then [] else [16 * HexValue(s[0]) + HexValue(s[1])] + FromHex(s[2..])
  }

  /** The 32 bytes an artifact id names. */
  function IdBytes(id: string): seq<int> {
    if |id| < 7 then [] else FromHex(id[7..])
  }

  ghost predicate AllHex(s: string) {
    |s| % 2 == 0 && forall i :: 0 <= i < |s| ==> IsHexDigit(s[i])
  }

  lemma HexDigitOrder(c: char, d: char)
    requires IsHexDigit(c) && IsHexDigit(d)
    ensures c as int < d as int <==> HexValue(c) < HexValue(d)
    ensures c == d <==> HexValue(c) == HexValue(d)
  {
  }

  lemma CodesCons(s: string)
    requires |s| != 0
    ensures Codes(s) == [s[0] as int] + Codes(s[1..])
  {
  }

  /** Two digits compare like the byte they spell. */
  lemma PairOrder(s: string, t: string)
    requires |s| >= 2 && |t| >= 2
    requires IsHexDigit(s[0]) && IsHexDigit(s[1]) && IsHexDigit(t[0]) && IsHexDigit(t[1])
    ensures var a, b := 16 * HexValue(s[0]) + HexValue(s[1]), 16 * HexValue(t[0]) + HexValue(t[1]);
      Leq(Codes(s), Codes(t)) <==> a < b || (a == b && Leq(Codes(s[2..]), Codes(t[2..])))
  {
    HexDigitOrder(s[0], t[0]);
    HexDigitOrder(s[1], t[1]);
    CodesCons(s);
    CodesCons(t);
    CodesCons(s[1..]);
    CodesCons(t[1..]);
    assert s[1..][1..] == s[2..] && t[1..][1..] == t[2..];
    LeqCons(s[0] as int, Codes(s[1..]), t[0] as int, Codes(t[1..]));
    LeqCons(s[1] as int, Codes(s[2..]), t[1] as int, Codes(t[2..]));
  }

  lemma {:induction false} HexOrder(s: string, t: string)
    requires AllHex(s) && AllHex(t)
    ensures Leq(Codes(s), Codes(t)) <==> Leq(FromHex(s), FromHex(t))
    decreases |s|
  {
    if |s| >= 2 && |t| >= 2 {
      PairOrder(s, t);
      HexOrder(s[2..], t[2..]);
      LeqCons(16 * HexValue(s[0]) + HexValue(s[1]), FromHex(s[2..]), 16 * HexValue(t[0]) + HexValue(t[1]), FromHex(t[2..]));
    }
  }

  lemma SameHead(p: string, s: string, t: string)
    requires |p| != 0
    ensures Leq(Codes(p + s), Codes(p + t)) <==> Leq(Codes(p[1..] + s), Codes(p[1..] + t))
  {
    CodesCons(p + s);
    CodesCons(p + t);
    assert (p + s)[1..] == p[1..] + s && (p + t)[1..] == p[1..] + t;
    LeqCons(p[0] as int, Codes(p[1..] + s), p[0] as int, Codes(p[1..] + t));
  }

  lemma {:induction false} PrefixOrder(p: string, s: string, t: string)
    ensures Leq(Codes(p + s), Codes(p + t)) <==> Leq(Codes(s), Codes(t))
  {
    hide Leq, Codes;
    if |p| == 0 {
      assert p + s == s && p + t == t;
    } else {
      SameHead(p, s, t);
      PrefixOrder(p[1..], s, t);
    }
  }

  /** String order of ids is byte order of their hashes. */
  lemma IdOrder(a: string, b: string)
    requires IsSha256(a) && IsSha256(b)
    ensures StringLeq(a, b) <==> Leq(IdBytes(a), IdBytes(b))
  {
    assert a == SHA_PREFIX + a[7..] && b == SHA_PREFIX + b[7..];
    PrefixOrder(SHA_PREFIX, a[7..], b[7..]);
    HexOrder(a[7..], b[7..]);
  }

  /** Different ids name different bytes. */
  lemma IdBytesInjective(a: string, b: string)
    requires IsSha256(a) && IsSha256(b) && IdBytes(a) == IdBytes(b)
    ensures a == b
  {
    LeqReflexive(IdBytes(a));
    IdOrder(a, b);
    IdOrder(b, a);
    LeqAntisymmetric(Codes(a), Codes(b));
    CodesInjective(a, b);
  }

  /** Byte `k` is spelled by digits 2k and 2k + 1, the higher one first. */
  lemma {:induction false} FromHexAt(s: string, k: nat)
    requires AllHex(s) && 2 * k + 1 < |s|
    ensures |FromHex(s)| == |s| / 2 && FromHex(s)[k] == 16 * HexValue(s[2 * k]) + HexValue(s[2 * k + 1])
    decreases k
  {
    if k != 0 {
      FromHexAt(s[2..], k - 1);
    }
  }

  /** `hex` is the digit's position in this alphabet. */
  const DIGITS := "0123456789abcdef"

  lemma HexValueMeaning(c: char)
    requires IsHexDigit(c)
    ensures 0 <= HexValue(c) < 16 && DIGITS[HexValue(c)] == c
  {
  }

  lemma ByteDigits(s: string, k: nat) returns (high: int, low: int)
    requires AllHex(s) && 2 * k + 1 < |s|
    ensures |FromHex(s)| == |s| / 2 && FromHex(s)[k] == 16 * high + low
    ensures 0 <= high < 16 && DIGITS[high] == s[2 * k]
    ensures 0 <= low < 16 && DIGITS[low] == s[2 * k + 1]
  {
    FromHexAt(s, k);
    HexValueMeaning(s[2 * k]);
    HexValueMeaning(s[2 * k + 1]);
    high, low := HexValue(s[2 * k]), HexValue(s[2 * k + 1]);
  }

  /** The record of an item: both hashes are the 32 bytes its id spells, higher
      digit first, and the key is its embedding key. */
  lemma RecordMeaning(keyOf: KeyOf, id: string, k: nat) returns (high: int, low: int)
    requires IsSha256(id) && k < 32
    ensures var r := RecordOf(keyOf, id);
      && |r.recordHash| == 32 && r.payloadHash == r.recordHash && r.key == keyOf(id)
      && r.recordHash[k] == 16 * high + low
    ensures 0 <= high < 16 && DIGITS[high] == id[7 + 2 * k]
    ensures 0 <= low < 16 && DIGITS[low] == id[8 + 2 * k]
  {
    assert AllHex(id[7..]);
    high, low := ByteDigits(id[7..], k);
  }

  // ----- the listing -----

  /** Each id is non-blank and strictly above the one before. */
  predicate StrictlyIncreasing(ids: seq<string>) {
    && (forall i :: 0 <= i < |ids| ==> Strip(ids[i]) != "")
    && forall i :: 0 < i < |ids| ==> !StringLeq(Strip(ids[i]), Strip(ids[i - 1]))
  }

  // ----- records and pages -----

  datatype Record = Record(recordHash: seq<int>, payloadHash: seq<int>, key: seq<int>)

  datatype Page = Page(bucket: int, index: int, records: seq<Record>)

  /** The embedding key of an item, computed elsewhere from its descriptor. */
  type KeyOf = string -> seq<int>

  function RecordOf(keyOf: KeyOf, id: string): Record {
    Record(IdBytes(id), IdBytes(id), keyOf(id))
  }

  function RecordsOf(keyOf: KeyOf, ids: seq<string>): (r: seq<Record>)
    ensures |r| == |ids| && forall i :: 0 <= i < |ids| ==> r[i] == RecordOf(keyOf, ids[i])
  {
    seq(|ids|, i requires 0 <= i < |ids| => RecordOf(keyOf, ids[i]))
  }

  function KeyedRecords(rs: seq<Record>): (r: seq<Keyed<Record>>)
    ensures |r| == |rs| && forall i :: 0 <= i < |rs| ==> r[i] == Keyed(rs[i].recordHash, rs[i])
  {
    seq(|rs|, i requires 0 <= i < |rs| => Keyed(rs[i].recordHash, rs[i]))
  }

  /** Pages `0 .. n`, each the next `cap` records. */
  function PagesUpTo(rs: seq<Record>, cap: int, n: nat): (ps: seq<Page>)
    requires cap > 0
    ensures |ps| == n
  {
    if n == 0 then [] else
    PagesUpTo(rs, cap, n - 1) + [Page(0, n - 1, rs[Min((n - 1) * cap, |rs|)..Min((n - 1) * cap + cap, |rs|)])]
  }

  /** How many pages `cap` records each make. */
  function PageCount(total: nat, cap: int): nat
    requires cap > 0
  {
    (total + cap - 1) / cap
  }

  /** The parameters of the index. */
  datatype Config = Config(
    recordCap: int, codebookSize: int, bucketVisits: int, scanCap: int, fanout: int, similarity: string)
  {
    predicate Valid() {
      && recordCap > 0
      && codebookSize > 0
      && 0 < bucketVisits <= codebookSize
      && scanCap > 0
      && fanout > 0
      && (Strip(similarity) == "DOT_Q32_SHIFT_END_V1" || Strip(similarity) == "DOT_Q32_SHIFT_EACH_DIM_V1")
    }
  }

  datatype Index = Index(listing: seq<string>, pages: seq<Page>)

  /** The listing, and the pages of bucket 0. */
  function Build(keyOf: KeyOf, ids: seq<string>, cfg: Config): Result<Index> {
    var listing := SortStrings(ids);
    if !StrictlyIncreasing(listing) then Fail("SCHEMA_FAIL")
    else if !cfg.Valid() then Fail("SCHEMA_FAIL")
    else
      var records := Items(Sort(KeyedRecords(RecordsOf(keyOf, listing))));
      Ok(Index(listing, PagesUpTo(records, cfg.recordCap, PageCount(|records|, cfg.recordCap))))
  }

  lemma PageStart(total: nat, cap: int, n: nat)
    requires cap > 0
    ensures n < PageCount(total, cap) <==> n * cap < total
  {
    FloorIsGreatest(total + cap - 1, cap, n + 1);
    assert (n + 1) * cap == n * cap + cap;
  }

  lemma NextPage(rs: seq<Record>, cap: int, n: nat)
    requires cap > 0 && n * cap < |rs|
    ensures PagesUpTo(rs, cap, n + 1) == PagesUpTo(rs, cap, n) + [Page(0, n, rs[n * cap..Min(n * cap + cap, |rs|)])]
    ensures (n + 1) * cap == n * cap + cap && 0 <= n * cap
  {
    assert (n + 1) * cap == n * cap + cap && 0 <= n * cap;
  }

  /** `for page_index, off in enumerate(range(0, len(records), cap))`. */
  method CutPages(records: seq<Record>, cap: int) returns (pages: seq<Page>)
    requires cap > 0
    ensures pages == PagesUpTo(records, cap, PageCount(|records|, cap))
  {
    hide PagesUpTo, PageCount;
    pages := [];
    ghost var n := 0;
    var off := 0;
    assert PagesUpTo(records, cap, 0) == [];
    PageStart(|records|, cap, 0);
    while off < |records|
      invariant off == n * cap && n == |pages| && n <= PageCount(|records|, cap)
      invariant pages == PagesUpTo(records, cap, n)
      decreases |records| - off
    {
      PageStart(|records|, cap, n);
      NextPage(records, cap, n);
      pages := pages + [Page(0, |pages|, records[off..Min(off + cap, |records|)])];
      off := off + cap;
      n := n + 1;
    }
    PageStart(|records|, cap, n);
  }

  method CheckListing(listing: seq<string>) returns (ok: bool)
    ensures ok <==> StrictlyIncreasing(listing)
  {
    hide Strip, StringLeq;
    var prev: Option<string> := None;
    for i := 0 to |listing|
      invariant prev == if i == 0 then None else Some(Strip(listing[i - 1]))
      invariant forall k :: 0 <= k < i ==> Strip(listing[k]) != ""
      invariant forall k :: 0 < k < i ==> !StringLeq(Strip(listing[k]), Strip(listing[k - 1]))
    {
      var aid := Strip(listing[i]);
      if aid == "" || (prev.Some? && StringLeq(aid, prev.value)) {
        return false;
      }
      prev := Some(aid);
    }
    ok := true;
  }

  method Emit(keyOf: KeyOf, ids: seq<string>, cfg: Config) returns (r: Result<Index>)
    ensures r == Build(keyOf, ids, cfg)
  {
    hide Sort, StrictlyIncreasing, RecordOf, PagesUpTo;
    var listing := SortStrings(ids);
    var ok := CheckListing(listing);
    if !ok {
      return Fail("SCHEMA_FAIL");
    }
    var records: seq<Record> := [];
    for i := 0 to |listing|
      invariant records == RecordsOf(keyOf, listing[..i])
    {
      records := records + [RecordOf(keyOf, listing[i])];
    }
    assert listing[..|listing|] == listing;
    if !cfg.Valid() {
      return Fail("SCHEMA_FAIL");
    }
    records := Items(Sort(KeyedRecords(records)));
    var pages := CutPages(records, cfg.recordCap);
    r := Ok(Index(listing, pages));
  }

  // ----- laws -----

  function Flatten(ps: seq<Page>): seq<Record> {
    if |ps| == 0 then [] else Flatten(ps[..|ps| - 1]) + ps[|ps| - 1].records
  }

  /** A page is never empty, and is full unless the records run out in it. */
  lemma FullPage(total: nat, cap: int, i: nat)
    requires cap > 0 && i < PageCount(total, cap)
    ensures 1 <= Min(i * cap + cap, total) - Min(i * cap, total) <= cap
    ensures i < PageCount(total, cap) - 1 ==> Min(i * cap + cap, total) - Min(i * cap, total) == cap
    ensures 0 <= i * cap
  {
    PageStart(total, cap, i);
    PageStart(total, cap, i + 1);
    assert (i + 1) * cap == i * cap + cap;
  }

  lemma {:induction false} PageAt(rs: seq<Record>, cap: int, n: nat, i: nat)
    requires cap > 0 && i < n
    ensures PagesUpTo(rs, cap, n)[i] == Page(0, i, rs[Min(i * cap, |rs|)..Min(i * cap + cap, |rs|)])
  {
    if i < n - 1 {
      PageAt(rs, cap, n - 1, i);
    }
  }

  lemma FlattenAppend(ps: seq<Page>, p: Page)
    ensures Flatten(ps + [p]) == Flatten(ps) + p.records
  {
    assert (ps + [p])[..|ps|] == ps;
  }

  lemma OnePageFurther(cap: int, n: nat)
    requires cap > 0 && n > 0
    ensures 0 <= (n - 1) * cap && n * cap == (n - 1) * cap + cap
  {
  }

  lemma {:induction false} FlattenPages(rs: seq<Record>, cap: int, n: nat)
    requires cap > 0
    ensures Flatten(PagesUpTo(rs, cap, n)) == rs[..Min(n * cap, |rs|)]
  {
    if n != 0 {
      FlattenPages(rs, cap, n - 1);
      OnePageFurther(cap, n);
      hide Flatten;
      var start := (n - 1) * cap;
      var page := Page(0, n - 1, rs[Min(start, |rs|)..Min(start + cap, |rs|)]);
      assert PagesUpTo(rs, cap, n) == PagesUpTo(rs, cap, n - 1) + [page];
      hide PagesUpTo;
      FlattenAppend(PagesUpTo(rs, cap, n - 1), page);
      SliceJoins(rs, start, cap);
    }
  }

  lemma SliceJoins(rs: seq<Record>, start: int, cap: int)
    requires 0 <= start && 0 < cap
    ensures rs[..Min(start, |rs|)] + rs[Min(start, |rs|)..Min(start + cap, |rs|)] == rs[..Min(start + cap, |rs|)]
  {
  }

  lemma AllPages(rs: seq<Record>, cap: int)
    requires cap > 0
    ensures Flatten(PagesUpTo(rs, cap, PageCount(|rs|, cap))) == rs
  {
    var n := PageCount(|rs|, cap);
    PageStart(|rs|, cap, n);
    FlattenPages(rs, cap, n);
  }

  /** Sorting the records by bytes changes nothing: the listing's order already is
      byte order. */
  lemma RecordsAlreadySorted(keyOf: KeyOf, listing: seq<string>)
    requires forall i :: 0 <= i < |listing| ==> IsSha256(listing[i])
    requires Ordered(KeyedStrings(listing))
    ensures Items(Sort(KeyedRecords(RecordsOf(keyOf, listing)))) == RecordsOf(keyOf, listing)
  {
    hide IdBytes, IsSha256;
    var rs := RecordsOf(keyOf, listing);
    forall i, j | 0 <= i < j < |rs| ensures Leq(KeyedRecords(rs)[i].key, KeyedRecords(rs)[j].key) {
      assert Leq(KeyedStrings(listing)[i].key, KeyedStrings(listing)[j].key);
      IdOrder(listing[i], listing[j]);
    }
    SortOrderedIsSame(KeyedRecords(rs));
    assert Items(KeyedRecords(rs)) == rs;
  }

  lemma ListingIsSha(ids: seq<string>)
    requires forall i :: 0 <= i < |ids| ==> IsSha256(ids[i])
    ensures forall i :: 0 <= i < |SortStrings(ids)| ==> IsSha256(SortStrings(ids)[i])
  {
    hide IsSha256;
    SortStringsKept(ids);
    SameMembers(SortStrings(ids), ids);
    forall i | 0 <= i < |SortStrings(ids)| ensures IsSha256(SortStrings(ids)[i]) {
      assert SortStrings(ids)[i] in ids;
    }
  }

  /** The index agrees with its listing: read page by page, bucket 0 holds exactly
      the listed items in the listing's order, and nothing else. */
  lemma IndexAgreesWithListing(keyOf: KeyOf, ids: seq<string>, cfg: Config)
    requires forall i :: 0 <= i < |ids| ==> IsSha256(ids[i])
    requires Build(keyOf, ids, cfg).Ok?
    ensures var x := Build(keyOf, ids, cfg).value;
      && multiset(x.listing) == multiset(ids)
      && Flatten(x.pages) == RecordsOf(keyOf, x.listing)
  {
    hide IsSha256, StrictlyIncreasing, Sort, RecordOf;
    SortStringsKept(ids);
    ListingIsSha(ids);
    RecordsAlreadySorted(keyOf, SortStrings(ids));
    AllPages(RecordsOf(keyOf, SortStrings(ids)), cfg.recordCap);
  }

  /** The canonical record order: read page by page, the record hashes strictly
      increase as bytes, so no two records share one. */
  lemma RecordsStrictlyIncrease(keyOf: KeyOf, ids: seq<string>, cfg: Config, i: nat, j: nat)
    requires forall k :: 0 <= k < |ids| ==> IsSha256(ids[k])
    requires Build(keyOf, ids, cfg).Ok? && i < j < |Flatten(Build(keyOf, ids, cfg).value.pages)|
    ensures var rs := Flatten(Build(keyOf, ids, cfg).value.pages);
      Leq(rs[i].recordHash, rs[j].recordHash) && rs[i].recordHash != rs[j].recordHash
  {
    hide IsSha256, Flatten, IdBytes, Build;
    IndexAgreesWithListing(keyOf, ids, cfg);
    var listing := Build(keyOf, ids, cfg).value.listing;
    ListingIncreases(keyOf, ids, cfg, i, j);
    IdOrder(listing[i], listing[j]);
    if IdBytes(listing[i]) == IdBytes(listing[j]) {
      IdBytesInjective(listing[i], listing[j]);
    }
  }

  lemma ListingIncreases(keyOf: KeyOf, ids: seq<string>, cfg: Config, i: nat, j: nat)
    requires forall k :: 0 <= k < |ids| ==> IsSha256(ids[k])
    requires Build(keyOf, ids, cfg).Ok? && i < j < |Build(keyOf, ids, cfg).value.listing|
    ensures var listing := Build(keyOf, ids, cfg).value.listing;
      IsSha256(listing[i]) && IsSha256(listing[j]) && StringLeq(listing[i], listing[j]) && listing[i] != listing[j]
  {
    hide IsSha256, Sort, Strip;
    SortStringsKept(ids);
    ListingIsSha(ids);
    var listing := SortStrings(ids);
    forall k | 0 <= k < |listing| ensures Strip(listing[k]) == listing[k] {
      Sha256IsStripped(listing[k]);
    }
    assert Leq(KeyedStrings(listing)[i].key, KeyedStrings(listing)[j].key);
    StrictIsDistinct(listing);
  }

  /** Pages are numbered from zero, never empty, and all but the last are full. */
  lemma PagesAreFull(keyOf: KeyOf, ids: seq<string>, cfg: Config, i: nat)
    requires Build(keyOf, ids, cfg).Ok? && i < |Build(keyOf, ids, cfg).value.pages|
    ensures var ps := Build(keyOf, ids, cfg).value.pages;
      && ps[i].bucket == 0 && ps[i].index == i
      && 1 <= |ps[i].records| <= cfg.recordCap
      && (i < |ps| - 1 ==> |ps[i].records| == cfg.recordCap)
      && |ps| == PageCount(|ids|, cfg.recordCap)
  {
    hide StrictlyIncreasing, Sort, RecordOf;
    SortStringsKept(ids);
    var rs := RecordsOf(keyOf, SortStrings(ids));
    SortMembers(KeyedRecords(rs));
    var sorted := Items(Sort(KeyedRecords(rs)));
    var n := PageCount(|sorted|, cfg.recordCap);
    PageAt(sorted, cfg.recordCap, n, i);
    hide PageCount, PagesUpTo;
    FullPage(|sorted|, cfg.recordCap, i);
  }

  /** The build succeeds exactly when the parameters are valid and no id repeats. */
  lemma BuildSucceedsIff(keyOf: KeyOf, ids: seq<string>, cfg: Config)
    requires forall i :: 0 <= i < |ids| ==> IsSha256(ids[i])
    ensures Build(keyOf, ids, cfg).Ok? <==>
      && cfg.recordCap >= 1 && 1 <= cfg.bucketVisits && cfg.bucketVisits <= cfg.codebookSize
      && cfg.scanCap >= 1 && cfg.fanout >= 1
      && Strip(cfg.similarity) in {"DOT_Q32_SHIFT_END_V1", "DOT_Q32_SHIFT_EACH_DIM_V1"}
      && forall i, j :: 0 <= i < j < |ids| ==> ids[i] != ids[j]
  {
    hide IsSha256, Strip, Sort, StringLeq;
    var listing := SortStrings(ids);
    SortStringsKept(ids);
    ListingIsSha(ids);
    forall i | 0 <= i < |listing| ensures Strip(listing[i]) == listing[i] != "" {
      Sha256IsStripped(listing[i]);
      Sha256NotBlank(listing[i]);
    }
    var same := (s: string) => s;
    if Distinguishes(same, ids) {
      DistinguishesPermutes(same, ids, listing);
      assert forall i, j :: 0 <= i < j < |ids| ==> same(ids[i]) != same(ids[j]);
      DistinctIsStrict(listing);
    } else {
      var i, j :| 0 <= i < j < |ids| && same(ids[i]) == same(ids[j]);
      if StrictlyIncreasing(listing) {
        StrictIsDistinct(listing);
        assert Distinguishes(same, listing);
        DistinguishesPermutes(same, listing, ids);
      }
    }
  }

  lemma Sha256NotBlank(s: string)
    requires IsSha256(s)
    ensures s != ""
  {
  }

  lemma DistinctIsStrict(listing: seq<string>)
    requires Ordered(KeyedStrings(listing))
    requires forall i :: 0 <= i < |listing| ==> Strip(listing[i]) == listing[i] != ""
    requires Distinguishes((s: string) => s, listing)
    ensures StrictlyIncreasing(listing)
  {
    hide Strip;
    var same := (s: string) => s;
    forall i | 0 < i < |listing| ensures !StringLeq(listing[i], listing[i - 1]) {
      assert same(listing[i - 1]) != same(listing[i]);
      assert Leq(KeyedStrings(listing)[i - 1].key, KeyedStrings(listing)[i].key);
      if StringLeq(listing[i], listing[i - 1]) {
        LeqAntisymmetric(Codes(listing[i - 1]), Codes(listing[i]));
        CodesInjective(listing[i - 1], listing[i]);
      }
    }
  }

  lemma StrictIsDistinct(listing: seq<string>)
    requires StrictlyIncreasing(listing) && Ordered(KeyedStrings(listing))
    requires forall i :: 0 <= i < |listing| ==> Strip(listing[i]) == listing[i]
    ensures forall i, j :: 0 <= i < j < |listing| ==> listing[i] != listing[j]
  {
    hide Strip;
    forall i, j | 0 <= i < j < |listing| ensures listing[i] != listing[j] {
      assert Leq(KeyedStrings(listing)[i].key, KeyedStrings(listing)[j].key);
      LeqReflexive(Codes(listing[j - 1]));
      assert StringLeq(listing[i], listing[j - 1]) by {
        if i < j - 1 { assert Leq(KeyedStrings(listing)[i].key, KeyedStrings(listing)[j - 1].key); }
      }
    }
  }
}
