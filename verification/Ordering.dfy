/** Python's order on tuples and strings, its stable `sorted`, and `sorted` of
    the keys of a dictionary. A tuple of integers followed by a string is
    represented by one sequence of integers: the numbers, then the code points. */
module Ordering {

  // ----- the lexicographic order -----

  predicate Leq(a: seq<int>, b: seq<int>) {
    |a| == 0 || (|b| != 0 && (a[0] < b[0] || (a[0] == b[0] && Leq(a[1..], b[1..]))))
  }

  lemma {:induction false} LeqReflexive(a: seq<int>)
    ensures Leq(a, a)
  {
    if |a| != 0 {
      LeqReflexive(a[1..]);
    }
  }

  lemma {:induction false} LeqTotal(a: seq<int>, b: seq<int>)
    ensures Leq(a, b) || Leq(b, a)
  {
    if |a| != 0 && |b| != 0 && a[0] == b[0] {
      LeqTotal(a[1..], b[1..]);
    }
  }

  lemma {:induction false} LeqAntisymmetric(a: seq<int>, b: seq<int>)
    requires Leq(a, b) && Leq(b, a)
    ensures a == b
  {
    if |a| != 0 {
      LeqAntisymmetric(a[1..], b[1..]);
      assert a == [a[0]] + a[1..] && b == [b[0]] + b[1..];
    }
  }

  lemma {:induction false} LeqTransitive(a: seq<int>, b: seq<int>, c: seq<int>)
    requires Leq(a, b) && Leq(b, c)
    ensures Leq(a, c)
  {
    if |a| != 0 && a[0] == b[0] && b[0] == c[0] {
      LeqTransitive(a[1..], b[1..], c[1..]);
    }
  }

  /** One level of a tuple comparison. */
  lemma LeqCons(x: int, a: seq<int>, y: int, b: seq<int>)
    ensures Leq([x] + a, [y] + b) <==> x < y || (x == y && Leq(a, b))
  {
    assert ([x] + a)[1..] == a && ([y] + b)[1..] == b;
  }

  /** `a` and `b` agree before position `i`, and there `a` is smaller. */
  predicate SmallerAt(a: seq<int>, b: seq<int>, i: nat) {
    i < |a| && i < |b| && a[..i] == b[..i] && a[i] < b[i]
  }

  /** The order read off the sequences: a prefix comes first, otherwise the first
      difference decides. */
  lemma {:induction false} LeqMeaning(a: seq<int>, b: seq<int>)
    ensures Leq(a, b) <==> a <= b || exists i: nat :: SmallerAt(a, b, i)
  {
    if |a| != 0 && |b| != 0 {
      assert a[..0] == b[..0];
      if a[0] < b[0] {
        assert SmallerAt(a, b, 0);
      } else if a[0] == b[0] {
        LeqMeaning(a[1..], b[1..]);
        assert a == [a[0]] + a[1..] && b == [b[0]] + b[1..];
        if i: nat :| SmallerAt(a[1..], b[1..], i) {
          assert a[..i + 1] == [a[0]] + a[1..][..i] && b[..i + 1] == [b[0]] + b[1..][..i];
          assert SmallerAt(a, b, i + 1);
        }
        if i: nat :| SmallerAt(a, b, i) {
          assert i != 0;
          assert a[1..][..i - 1] == a[..i][1..] && b[1..][..i - 1] == b[..i][1..];
          assert SmallerAt(a[1..], b[1..], i - 1);
        }
      } else {
        forall i: nat | 0 < i < |a| && i < |b| ensures a[..i] != b[..i] {
          assert a[..i][0] != b[..i][0];
        }
      }
    }
  }

  /** Code points of a string: Python compares strings by these. */
  function Codes(s: string): (r: seq<int>)
    ensures |r| == |s| && forall i :: 0 <= i < |s| ==> r[i] == s[i] as int
  {
    seq(|s|, i requires 0 <= i < |s| => s[i] as int)
  }

  lemma CodesInjective(s: string, t: string)
    requires Codes(s) == Codes(t)
    ensures s == t
  {
    assert |s| == |t|;
    forall i | 0 <= i < |s| ensures s[i] == t[i] {
      assert Codes(s)[i] == Codes(t)[i];
    }
  }

  predicate StringLeq(s: string, t: string) {
    Leq(Codes(s), Codes(t))
  }

  // ----- the stable sort -----

  datatype Keyed<+T> = Keyed(key: seq<int>, item: T)

  ghost predicate Ordered<T>(s: seq<Keyed<T>>) {
    forall i, j :: 0 <= i < j < |s| ==> Leq(s[i].key, s[j].key)
  }

  /** Places `x` before the first row whose key is not smaller. */
  function Insert<T>(x: Keyed<T>, s: seq<Keyed<T>>): seq<Keyed<T>> {
    if |s| == 0 || Leq(x.key, s[0].key) then [x] + s else [s[0]] + Insert(x, s[1..])
  }

  /** `sorted(rows, key=...)`. */
  function Sort<T>(s: seq<Keyed<T>>): seq<Keyed<T>> {
    if |s| == 0 then [] else Insert(s[0], Sort(s[1..]))
  }

  function Items<T>(s: seq<Keyed<T>>): (r: seq<T>)
    ensures |r| == |s| && forall i :: 0 <= i < |s| ==> r[i] == s[i].item
  {
    seq(|s|, i requires 0 <= i < |s| => s[i].item)
  }

  /** The rows with key `k`, in their order of appearance. */
  ghost function WithKey<T>(k: seq<int>, s: seq<Keyed<T>>): seq<Keyed<T>> {
    if |s| == 0 then []
    else if s[0].key == k then [s[0]] + WithKey(k, s[1..])
    else WithKey(k, s[1..])
  }

  lemma {:induction false} InsertPermutes<T>(x: Keyed<T>, s: seq<Keyed<T>>)
    ensures multiset(Insert(x, s)) == multiset{x} + multiset(s)
  {
    if |s| != 0 && !Leq(x.key, s[0].key) {
      InsertPermutes(x, s[1..]);
      assert s == [s[0]] + s[1..];
    }
  }

  lemma {:induction false} InsertOrdered<T>(x: Keyed<T>, s: seq<Keyed<T>>)
    requires Ordered(s)
    ensures Ordered(Insert(x, s))
  {
    if |s| == 0 {
    } else if Leq(x.key, s[0].key) {
      forall j | 0 <= j < |s| ensures Leq(x.key, s[j].key) {
        if j != 0 { LeqTransitive(x.key, s[0].key, s[j].key); }
      }
    } else {
      var r := Insert(x, s[1..]);
      InsertOrdered(x, s[1..]);
      InsertPermutes(x, s[1..]);
      LeqTotal(x.key, s[0].key);
      forall j | 0 <= j < |r| ensures Leq(s[0].key, r[j].key) {
        assert r[j] in multiset(r);
        if r[j] != x {
          assert r[j] in s[1..];
        }
      }
    }
  }

  lemma {:induction false} SortPermutes<T>(s: seq<Keyed<T>>)
    ensures multiset(Sort(s)) == multiset(s)
  {
    if |s| != 0 {
      SortPermutes(s[1..]);
      InsertPermutes(s[0], Sort(s[1..]));
      assert s == [s[0]] + s[1..];
    }
  }

  lemma {:induction false} SortOrdered<T>(s: seq<Keyed<T>>)
    ensures Ordered(Sort(s))
  {
    if |s| != 0 {
      SortOrdered(s[1..]);
      InsertOrdered(s[0], Sort(s[1..]));
    }
  }

  lemma SortMembers<T>(s: seq<Keyed<T>>)
    ensures |Sort(s)| == |s|
    ensures forall x :: x in Sort(s) <==> x in s
  {
    SortPermutes(s);
    assert |multiset(s)| == |s| && |multiset(Sort(s))| == |Sort(s)|;
    forall x ensures x in Sort(s) <==> x in s {
      assert x in multiset(Sort(s)) <==> x in multiset(s);
    }
  }

  /** Where a sorted row comes from, and where a row goes. */
  lemma SortSource<T>(s: seq<Keyed<T>>, j: nat) returns (n: nat)
    requires j < |Sort(s)|
    ensures n < |s| && Sort(s)[j] == s[n]
  {
    SortPermutes(s);
    assert Sort(s)[j] in multiset(Sort(s));
    n :| 0 <= n < |s| && s[n] == Sort(s)[j];
  }

  lemma SortTarget<T>(s: seq<Keyed<T>>, n: nat) returns (j: nat)
    requires n < |s|
    ensures j < |Sort(s)| && Sort(s)[j] == s[n]
  {
    SortPermutes(s);
    assert s[n] in multiset(Sort(s));
    j :| 0 <= j < |Sort(s)| && Sort(s)[j] == s[n];
  }

  lemma {:induction false} InsertStable<T>(k: seq<int>, x: Keyed<T>, s: seq<Keyed<T>>)
    ensures WithKey(k, Insert(x, s)) == (if x.key == k then [x] else []) + WithKey(k, s)
  {
    if |s| == 0 || Leq(x.key, s[0].key) {
      assert ([x] + s)[1..] == s;
    } else {
      LeqReflexive(x.key);
      InsertStable(k, x, s[1..]);
      assert ([s[0]] + Insert(x, s[1..]))[1..] == Insert(x, s[1..]);
    }
  }

  /** Rows with equal keys keep their input order. */
  lemma {:induction false} SortStable<T>(k: seq<int>, s: seq<Keyed<T>>)
    ensures WithKey(k, Sort(s)) == WithKey(k, s)
  {
    if |s| != 0 {
      SortStable(k, s[1..]);
      InsertStable(k, s[0], Sort(s[1..]));
    }
  }

  lemma WithKeyHead<T>(s: seq<Keyed<T>>)
    requires |s| != 0
    ensures WithKey(s[0].key, s) == [s[0]] + WithKey(s[0].key, s[1..])
  {
  }

  lemma {:induction false} WithKeyMembers<T>(k: seq<int>, s: seq<Keyed<T>>)
    ensures forall x :: x in WithKey(k, s) <==> x in s && x.key == k
  {
    if |s| != 0 {
      WithKeyMembers(k, s[1..]);
    }
  }

  /** Ordered and stable determine the result: no other sequence is a stable
      sort of the same rows. */
  lemma {:induction false} StableSortUnique<T>(a: seq<Keyed<T>>, b: seq<Keyed<T>>)
    requires Ordered(a) && Ordered(b)
    requires forall k :: WithKey(k, a) == WithKey(k, b)
    ensures a == b
  {
    if |a| == 0 && |b| == 0 {
    } else {
      assert |a| != 0 && |b| != 0 by {
        if |a| == 0 { WithKeyHead(b); }
        if |b| == 0 { WithKeyHead(a); }
      }
      var ka, kb := a[0].key, b[0].key;
      WithKeyMembers(ka, a); WithKeyMembers(ka, b); WithKeyMembers(kb, a); WithKeyMembers(kb, b);
      assert a[0] in WithKey(ka, b) && b[0] in WithKey(kb, a);
      LeqReflexive(ka);
      LeqReflexive(kb);
      LeqAntisymmetric(ka, kb);
      WithKeyHead(a);
      WithKeyHead(b);
      assert a[0] == b[0];
      forall k ensures WithKey(k, a[1..]) == WithKey(k, b[1..]) {
        assert WithKey(k, a) == WithKey(k, b);
        if k == ka {
          assert WithKey(k, a[1..]) == WithKey(k, a)[1..] && WithKey(k, b[1..]) == WithKey(k, b)[1..];
        }
      }
      StableSortUnique(a[1..], b[1..]);
      assert a == [a[0]] + a[1..] && b == [b[0]] + b[1..];
    }
  }

  /** Equal keys only on equal rows. */
  ghost predicate KeyDetermines<T>(s: seq<Keyed<T>>) {
    forall x, y :: x in s && y in s && x.key == y.key ==> x == y
  }

  lemma MultisetTail<T>(s: seq<T>)
    requires |s| != 0
    ensures multiset(s[1..]) == multiset(s) - multiset{s[0]}
  {
    assert s == [s[0]] + s[1..];
  }

  lemma OrderedHead<T>(s: seq<Keyed<T>>, x: Keyed<T>)
    requires Ordered(s) && x in s
    ensures Leq(s[0].key, x.key)
  {
    LeqReflexive(x.key);
  }

  lemma OrderedHeadsEqual<T>(a: seq<Keyed<T>>, b: seq<Keyed<T>>)
    requires Ordered(a) && Ordered(b) && |a| != 0 && |b| != 0
    requires multiset(a) == multiset(b)
    requires KeyDetermines(a)
    ensures a[0] == b[0]
  {
    assert a[0] in multiset(b) && b[0] in multiset(a);
    OrderedHead(a, b[0]);
    OrderedHead(b, a[0]);
    LeqAntisymmetric(a[0].key, b[0].key);
  }

  lemma KeyDeterminesTail<T>(s: seq<Keyed<T>>)
    requires |s| != 0 && KeyDetermines(s)
    ensures KeyDetermines(s[1..])
  {
  }

  lemma {:induction false} OrderedPermutationUnique<T>(a: seq<Keyed<T>>, b: seq<Keyed<T>>)
    requires Ordered(a) && Ordered(b)
    requires multiset(a) == multiset(b)
    requires KeyDetermines(a)
    ensures a == b
  {
    assert |a| == |multiset(a)| == |multiset(b)| == |b|;
    if |a| != 0 {
      OrderedHeadsEqual(a, b);
      KeyDeterminesTail(a);
      MultisetTail(a);
      MultisetTail(b);
      hide KeyDetermines;
      OrderedPermutationUnique(a[1..], b[1..]);
      assert a == [a[0]] + a[1..] && b == [b[0]] + b[1..];
    }
  }

  /** Sorting forgets the input order when equal keys mean equal rows. */
  lemma SortOfPermutation<T>(a: seq<Keyed<T>>, b: seq<Keyed<T>>)
    requires multiset(a) == multiset(b)
    requires KeyDetermines(a)
    ensures Sort(a) == Sort(b)
  {
    var sa, sb := Sort(a), Sort(b);
    assert multiset(sa) == multiset(a) && multiset(sb) == multiset(b) by { SortPermutes(a); SortPermutes(b); }
    assert Ordered(sa) && Ordered(sb) by { SortOrdered(a); SortOrdered(b); }
    assert KeyDetermines(sa) by {
      forall x, y | x in sa && y in sa && x.key == y.key ensures x == y {
        assert x in multiset(a) && y in multiset(a);
      }
    }
    OrderedPermutationUnique(sa, sb);
  }

  function MoveToFront<T>(s: seq<T>, i: nat): (r: seq<T>)
    requires i < |s|
    ensures multiset(r) == multiset(s) && |r| == |s| && r[0] == s[i]
  {
    assert s == s[..i] + ([s[i]] + s[i+1..]);
    [s[i]] + (s[..i] + s[i+1..])
  }

  lemma MoveToFrontAt<T>(s: seq<T>, i: nat, k: nat)
    requires i < |s| && k < |s|
    ensures MoveToFront(s, i)[k] == s[if k == 0 then i else if k <= i then k - 1 else k]
  {
    if 0 < k <= i {
      assert (s[..i] + s[i+1..])[k - 1] == s[k - 1];
    }
  }

  /** A value computed position by position moves along. */
  lemma MoveToFrontMap<T, U>(s: seq<T>, fs: seq<U>, i: nat, f: T -> U)
    requires i < |s| == |fs| && forall k :: 0 <= k < |s| ==> fs[k] == f(s[k])
    ensures forall k :: 0 <= k < |s| ==> MoveToFront(fs, i)[k] == f(MoveToFront(s, i)[k])
  {
    forall k | 0 <= k < |s| ensures MoveToFront(fs, i)[k] == f(MoveToFront(s, i)[k]) {
      MoveToFrontAt(s, i, k);
      MoveToFrontAt(fs, i, k);
    }
  }

  /** Sorting what is in order changes nothing. */
  lemma {:induction false} SortOrderedIsSame<T>(s: seq<Keyed<T>>)
    requires Ordered(s)
    ensures Sort(s) == s
  {
    if |s| != 0 {
      SortOrderedIsSame(s[1..]);
      assert s == [s[0]] + s[1..];
    }
  }

  // ----- permutations and functions -----

  /** `[f(x) for x in s]`. */
  function Apply<A, B>(f: A -> B, s: seq<A>): (r: seq<B>)
    ensures |r| == |s| && forall i :: 0 <= i < |s| ==> r[i] == f(s[i])
  {
    seq(|s|, i requires 0 <= i < |s| => f(s[i]))
  }

  lemma ApplyMoved<A, B>(f: A -> B, s: seq<A>, i: nat)
    requires i < |s|
    ensures multiset(Apply(f, s)) == multiset{f(s[i])} + multiset(Apply(f, MoveToFront(s, i)[1..]))
  {
    var t := MoveToFront(s, i);
    var ft := MoveToFront(Apply(f, s), i);
    assert Apply(f, t) == ft by { MoveToFrontMap(s, Apply(f, s), i, f); }
    hide MoveToFront;
    assert Apply(f, t) == [f(s[i])] + Apply(f, t[1..]);
  }

  lemma TailsPermute<T>(a: seq<T>, b: seq<T>, j: nat)
    requires multiset(a) == multiset(b) && |a| != 0 && j < |b| && b[j] == a[0]
    ensures multiset(a[1..]) == multiset(MoveToFront(b, j)[1..])
  {
    MultisetTail(a);
    MultisetTail(MoveToFront(b, j));
  }

  lemma SameMembers<T>(a: seq<T>, b: seq<T>)
    requires multiset(a) == multiset(b)
    ensures |a| == |b| && forall x :: x in a ==> x in b
  {
    assert |a| == |multiset(a)| == |multiset(b)| == |b|;
    forall x | x in a ensures x in b {
      assert x in multiset(a);
    }
  }

  /** A function applied to a permutation gives a permutation of its values. */
  lemma {:induction false} ApplyPermutes<A, B>(f: A -> B, a: seq<A>, b: seq<A>)
    requires multiset(a) == multiset(b)
    ensures multiset(Apply(f, a)) == multiset(Apply(f, b))
    decreases |a|
  {
    hide MoveToFront;
    SameMembers(a, b);
    if |a| != 0 {
      assert a[0] in b;
      var j :| 0 <= j < |b| && b[j] == a[0];
      TailsPermute(a, b, j);
      ApplyPermutes(f, a[1..], MoveToFront(b, j)[1..]);
      ApplyMoved(f, b, j);
      assert Apply(f, a) == [f(a[0])] + Apply(f, a[1..]);
    }
  }

  lemma TwiceCounts<T>(s: seq<T>, i: nat, j: nat)
    requires i < j < |s| && s[i] == s[j]
    ensures multiset(s)[s[i]] >= 2
  {
    assert s == s[..j] + ([s[j]] + s[j+1..]);
    assert s[i] in s[..j];
  }

  lemma {:induction false} OnceCounts<T>(s: seq<T>, x: T)
    requires forall i, j :: 0 <= i < j < |s| ==> s[i] != s[j]
    ensures multiset(s)[x] == if x in s then 1 else 0
  {
    if |s| != 0 {
      OnceCounts(s[1..], x);
      MultisetTail(s);
      assert s[0] in multiset(s);
      assert x in s <==> x == s[0] || x in s[1..];
      assert s[0] !in s[1..];
    }
  }

  /** `f` tells the positions of `s` apart. */
  ghost predicate Distinguishes<A, B>(f: A -> B, s: seq<A>) {
    forall i, j :: 0 <= i < j < |s| ==> f(s[i]) != f(s[j])
  }

  lemma DistinguishesPermutes<A, B>(f: A -> B, a: seq<A>, b: seq<A>)
    requires multiset(a) == multiset(b) && Distinguishes(f, a)
    ensures Distinguishes(f, b)
  {
    ApplyPermutes(f, a, b);
    forall i, j | 0 <= i < j < |b| ensures f(b[i]) != f(b[j]) {
      OnceCounts(Apply(f, a), f(b[i]));
      if f(b[i]) == f(b[j]) {
        TwiceCounts(Apply(f, b), i, j);
      }
    }
  }

  /** ... and only then: a tie between different rows is broken by position. */
  lemma TieShowsInputOrder<T>(s: seq<Keyed<T>>, i: nat, j: nat)
    requires i < |s| && j < |s| && s[i].key == s[j].key && s[i] != s[j]
    ensures Sort(MoveToFront(s, i)) != Sort(MoveToFront(s, j))
  {
    var k, p, q := s[i].key, MoveToFront(s, i), MoveToFront(s, j);
    SortStable(k, p);
    SortStable(k, q);
    WithKeyHead(p);
    WithKeyHead(q);
    assert WithKey(k, p)[0] == s[i] && WithKey(k, q)[0] == s[j];
  }

  // ----- changing keys -----

  ghost predicate SameOrder<T(!new), U>(f: Keyed<T> -> Keyed<U>) {
    forall x: Keyed<T>, y: Keyed<T> :: Leq(x.key, y.key) <==> Leq(f(x).key, f(y).key)
  }

  lemma {:induction false} InsertMap<T(!new), U>(f: Keyed<T> -> Keyed<U>, x: Keyed<T>, s: seq<Keyed<T>>)
    requires SameOrder(f)
    ensures Insert(f(x), Apply(f, s)) == Apply(f, Insert(x, s))
  {
    if |s| != 0 && !Leq(x.key, s[0].key) {
      InsertMap(f, x, s[1..]);
      assert Apply(f, s)[1..] == Apply(f, s[1..]);
    }
  }

  /** A change of keys that preserves the order commutes with sorting. */
  lemma {:induction false} SortMap<T(!new), U>(f: Keyed<T> -> Keyed<U>, s: seq<Keyed<T>>)
    requires SameOrder(f)
    ensures Sort(Apply(f, s)) == Apply(f, Sort(s))
  {
    if |s| != 0 {
      SortMap(f, s[1..]);
      assert Apply(f, s)[1..] == Apply(f, s[1..]);
      InsertMap(f, s[0], Sort(s[1..]));
    }
  }

  // ----- sorted strings -----

  function KeyedStrings(xs: seq<string>): (r: seq<Keyed<string>>)
    ensures |r| == |xs| && forall i :: 0 <= i < |xs| ==> r[i] == Keyed(Codes(xs[i]), xs[i])
  {
    seq(|xs|, i requires 0 <= i < |xs| => Keyed(Codes(xs[i]), xs[i]))
  }

  /** `sorted(xs)`. */
  function SortStrings(xs: seq<string>): seq<string> {
    Items(Sort(KeyedStrings(xs)))
  }

  lemma SortStringsKept(xs: seq<string>)
    ensures Ordered(KeyedStrings(SortStrings(xs))) && multiset(SortStrings(xs)) == multiset(xs) && |SortStrings(xs)| == |xs|
  {
    var ks := KeyedStrings(xs);
    SortMembers(ks);
    SortOrdered(ks);
    SortPermutes(ks);
    forall i | 0 <= i < |xs| ensures KeyedStrings(SortStrings(xs))[i] == Sort(ks)[i] {
      var n := SortSource(ks, i);
    }
    assert KeyedStrings(SortStrings(xs)) == Sort(ks);
    assert SortStrings(xs) == Apply((k: Keyed<string>) => k.item, Sort(ks));
    assert xs == Apply((k: Keyed<string>) => k.item, ks);
    ApplyPermutes((k: Keyed<string>) => k.item, Sort(ks), ks);
  }

  // ----- sorted(dict.keys()) -----

  predicate IsLeast(m: string, s: set<string>) {
    m in s && forall x :: x in s ==> StringLeq(m, x)
  }

  lemma {:induction false} LeastExists(s: set<string>)
    requires s != {}
    ensures exists m :: IsLeast(m, s)
    decreases |s|
  {
    var x :| x in s;
    LeqReflexive(Codes(x));
    if s == {x} {
      assert IsLeast(x, s);
    } else {
      assert s == (s - {x}) + {x};
      LeastExists(s - {x});
      var m :| IsLeast(m, s - {x});
      LeqTotal(Codes(m), Codes(x));
      if StringLeq(m, x) {
        assert IsLeast(m, s);
      } else {
        forall y | y in s ensures StringLeq(x, y) {
          if y != x { LeqTransitive(Codes(x), Codes(m), Codes(y)); }
        }
        assert IsLeast(x, s);
      }
    }
  }

  lemma LeastUnique(m: string, n: string, s: set<string>)
    requires IsLeast(m, s) && IsLeast(n, s)
    ensures m == n
  {
    LeqAntisymmetric(Codes(m), Codes(n));
    CodesInjective(m, n);
  }

  function Least(s: set<string>): (m: string)
    requires s != {}
    ensures IsLeast(m, s)
  {
    LeastExists(s);
    assert forall m, n :: IsLeast(m, s) && IsLeast(n, s) ==> m == n by {
      forall m, n | IsLeast(m, s) && IsLeast(n, s) ensures m == n { LeastUnique(m, n, s); }
    }
    var m :| IsLeast(m, s);
    m
  }

  ghost predicate Ascending(r: seq<string>) {
    forall i, j :: 0 <= i < j < |r| ==> r[i] != r[j] && StringLeq(r[i], r[j])
  }

  /** The members of `s`, each once; `SortedSetAscending` says in which order. */
  function SortedSet(s: set<string>): (r: seq<string>)
    ensures |r| == |s|
    ensures forall i :: 0 <= i < |r| ==> r[i] in s
    decreases |s|
  {
    if s == {} then [] else
    var m := Least(s);
    [m] + SortedSet(s - {m})
  }

  lemma {:induction false} SortedSetAscending(s: set<string>)
    ensures Ascending(SortedSet(s))
    decreases |s|
  {
    if s != {} {
      var m := Least(s);
      var rest := SortedSet(s - {m});
      SortedSetAscending(s - {m});
      forall i | 0 <= i < |rest| ensures m != rest[i] && StringLeq(m, rest[i]) {
        assert rest[i] in s - {m};
      }
    }
  }

  lemma {:induction false} SortedSetMembers(s: set<string>)
    ensures forall x :: x in s <==> x in SortedSet(s)
    decreases |s|
  {
    if s != {} {
      SortedSetMembers(s - {Least(s)});
    }
  }

  /** `[m[k] for k in ids]`. */
  function Values<V>(m: map<string, V>, ids: seq<string>): (r: seq<V>)
    requires forall i :: 0 <= i < |ids| ==> ids[i] in m
    ensures |r| == |ids| && forall i :: 0 <= i < |ids| ==> r[i] == m[ids[i]]
  {
    seq(|ids|, i requires 0 <= i < |ids| => m[ids[i]])
  }

  lemma SomeMember(s: seq<string>)
    ensures |s| != 0 ==> s[0] in s
  {
  }

  /** An ascending list is determined by its members. */
  lemma {:induction false} AscendingUnique(a: seq<string>, b: seq<string>)
    requires Ascending(a) && Ascending(b)
    requires forall x :: x in a <==> x in b
    ensures a == b
  {
    if |a| == 0 && |b| == 0 {
    } else {
      assert |a| != 0 && |b| != 0 by {
        if |a| == 0 { SomeMember(b); }
        if |b| == 0 { SomeMember(a); }
      }
      LeqReflexive(Codes(a[0]));
      assert a[0] in b && b[0] in a;
      LeqAntisymmetric(Codes(a[0]), Codes(b[0]));
      CodesInjective(a[0], b[0]);
      forall x ensures x in a[1..] <==> x in b[1..] {
        assert x in a[1..] <==> x in a && x != a[0];
        assert x in b[1..] <==> x in b && x != b[0];
      }
      AscendingUnique(a[1..], b[1..]);
      assert a == [a[0]] + a[1..] && b == [b[0]] + b[1..];
    }
  }
}
