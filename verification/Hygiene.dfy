/** The hygiene metric: which symbols a task can reach, by an explicit-stack
    traversal, and the fraction that none can. */
module Hygiene {

  type Graph = map<string, set<string>>

  function Deps(adjacency: Graph, sym: string): set<string> {
    if sym in adjacency then adjacency[sym] else {}
  }

  /** `path` starts at a root and follows edges that end inside `symbols`. */
  ghost predicate IsPath(roots: set<string>, adjacency: Graph, symbols: set<string>, path: seq<string>) {
    && |path| != 0
    && path[0] in roots
    && forall i :: 0 < i < |path| ==> path[i] in Deps(adjacency, path[i - 1]) && path[i] in symbols
  }

  ghost predicate CanReach(roots: set<string>, adjacency: Graph, symbols: set<string>, sym: string) {
    exists path :: IsPath(roots, adjacency, symbols, path) && path[|path| - 1] == sym
  }

  lemma RootReached(roots: set<string>, adjacency: Graph, symbols: set<string>, sym: string)
    requires sym in roots
    ensures CanReach(roots, adjacency, symbols, sym)
  {
    assert IsPath(roots, adjacency, symbols, [sym]);
  }

  lemma DepReached(roots: set<string>, adjacency: Graph, symbols: set<string>, sym: string, dep: string)
    requires CanReach(roots, adjacency, symbols, sym)
    requires dep in Deps(adjacency, sym) && dep in symbols
    ensures CanReach(roots, adjacency, symbols, dep)
  {
    var path :| IsPath(roots, adjacency, symbols, path) && path[|path| - 1] == sym;
    assert IsPath(roots, adjacency, symbols, path + [dep]);
    assert (path + [dep])[|path + [dep]| - 1] == dep;
  }

  /** `closed` holds the roots and every admissible successor of its members. */
  ghost predicate Closed(roots: set<string>, adjacency: Graph, symbols: set<string>, closed: set<string>) {
    && roots <= closed
    && forall s, d :: s in closed && d in Deps(adjacency, s) && d in symbols ==> d in closed
  }

  lemma {:induction false} ClosedHoldsPath(roots: set<string>, adjacency: Graph, symbols: set<string>, closed: set<string>, path: seq<string>)
    requires Closed(roots, adjacency, symbols, closed) && IsPath(roots, adjacency, symbols, path)
    ensures path[|path| - 1] in closed
  {
    var n := |path| - 1;
    if n != 0 {
      assert IsPath(roots, adjacency, symbols, path[..n]);
      ClosedHoldsPath(roots, adjacency, symbols, closed, path[..n]);
    }
  }

  lemma ClosedHoldsReached(roots: set<string>, adjacency: Graph, symbols: set<string>, closed: set<string>, sym: string)
    requires Closed(roots, adjacency, symbols, closed) && CanReach(roots, adjacency, symbols, sym)
    ensures sym in closed
  {
    var path :| IsPath(roots, adjacency, symbols, path) && path[|path| - 1] == sym;
    ClosedHoldsPath(roots, adjacency, symbols, closed, path);
  }

  /** A reached symbol's successors are reached or still on the stack. */
  ghost predicate Pending(adjacency: Graph, symbols: set<string>, reachable: set<string>, stack: seq<string>) {
    forall s, d :: s in reachable && d in Deps(adjacency, s) && d in symbols ==> d in reachable || d in stack
  }

  /** A list with exactly the members of `s`, in some order. */
  method ListOf(s: set<string>) returns (r: seq<string>)
    ensures forall x :: x in r <==> x in s
  {
    r := [];
    var left := s;
    while left != {}
      invariant left <= s
      invariant forall x :: x in r <==> x in s - left
    {
      var x :| x in left;
      r, left := r + [x], left - {x};
    }
  }

  /** The successors of a newly reached symbol, in some order, that are still to
      be visited are pushed. */
  method PushDeps(deps: set<string>, symbols: set<string>, reachable: set<string>, stack: seq<string>) returns (r: seq<string>)
    ensures forall x :: x in r <==> x in stack || (x in deps && x in symbols && x !in reachable)
  {
    r := stack;
    var left := deps;
    while left != {}
      invariant left <= deps
      invariant forall x :: x in r <==> x in stack || (x in deps - left && x in symbols && x !in reachable)
    {
      var dep :| dep in left;
      left := left - {dep};
      if dep in symbols && dep !in reachable {
        r := r + [dep];
      }
    }
  }

  /** Exactly the symbols that can be reached from the roots. The stack may hold
      a symbol several times; each turn either reaches a new symbol or shortens it. */
  method Reachable(roots: set<string>, adjacency: Graph, symbols: set<string>) returns (reachable: set<string>)
    ensures forall s :: s in reachable <==> CanReach(roots, adjacency, symbols, s)
    ensures reachable <= roots + symbols
  {
    hide CanReach;
    reachable := {};
    var stack := ListOf(roots);
    forall s | s in stack ensures CanReach(roots, adjacency, symbols, s) {
      RootReached(roots, adjacency, symbols, s);
    }
    while |stack| != 0
      invariant reachable <= roots + symbols
      invariant forall s :: s in stack ==> s in roots + symbols
      invariant forall s :: s in reachable || s in stack ==> CanReach(roots, adjacency, symbols, s)
      invariant forall s :: s in roots ==> s in reachable || s in stack
      invariant Pending(adjacency, symbols, reachable, stack)
      decreases roots + symbols - reachable, |stack|
    {
      var sym := stack[|stack| - 1];
      ghost var before := stack;
      stack := stack[..|stack| - 1];
      assert forall s :: s in before <==> s in stack || s == sym by {
        assert before == stack + [sym];
      }
      if sym !in reachable {
        forall d | d in Deps(adjacency, sym) && d in symbols ensures CanReach(roots, adjacency, symbols, d) {
          DepReached(roots, adjacency, symbols, sym, d);
        }
        reachable := reachable + {sym};
        stack := PushDeps(Deps(adjacency, sym), symbols, reachable, stack);
      }
    }
    assert Closed(roots, adjacency, symbols, reachable);
    forall s | CanReach(roots, adjacency, symbols, s) ensures s in reachable {
      ClosedHoldsReached(roots, adjacency, symbols, reachable, s);
    }
  }

  const PRIMITIVES: set<string> := {"add", "sub", "mul", "mod", "eq_int", "lt_int", "le_int", "and", "or", "not"}

  /** The task targets and primitives among the symbols. */
  function Roots(symbols: set<string>, targets: set<string>): (r: set<string>)
    ensures r <= symbols
  {
    (targets + PRIMITIVES) * symbols
  }

  /** The unused fraction is the share of the symbols that no target or primitive
      reaches, and lies between zero and one. */
  method UnusedFraction(symbols: set<string>, adjacency: Graph, targets: set<string>) returns (fraction: real)
    ensures symbols == {} ==> fraction == 0.0
    ensures fraction * |symbols| as real == |Unreached(Roots(symbols, targets), adjacency, symbols)| as real
    ensures 0.0 <= fraction <= 1.0
  {
    hide Roots, CanReach;
    var roots := Roots(symbols, targets);
    if symbols == {} {
      assert Unreached(roots, adjacency, symbols) == {};
      return 0.0;
    }
    var reachable := Reachable(roots, adjacency, symbols);
    assert reachable <= symbols;
    assert Unreached(roots, adjacency, symbols) == symbols - reachable;
    assert |symbols - reachable| == |symbols| - |reachable|;
    fraction := 1.0 - (|reachable| as real / |symbols| as real);
    ShareIsFraction(|reachable|, |symbols|, fraction);
  }

  predicate HasEdge(adjacency: Graph, sym: string, dep: string) {
    sym in adjacency && dep in adjacency[sym]
  }

  /** A path from a symbol that is a task target or one of the ten primitives. */
  ghost predicate IsUse(symbols: set<string>, adjacency: Graph, targets: set<string>, path: seq<string>) {
    && |path| != 0
    && path[0] in symbols
    && (path[0] in targets
        || path[0] in {"add", "sub", "mul", "mod", "eq_int", "lt_int", "le_int", "and", "or", "not"})
    && forall i :: 0 < i < |path| ==> HasEdge(adjacency, path[i - 1], path[i]) && path[i] in symbols
  }

  /** The symbols the fraction counts are those at the end of no such path. */
  lemma UnusedMeaning(symbols: set<string>, adjacency: Graph, targets: set<string>, sym: string)
    ensures sym in Unreached(Roots(symbols, targets), adjacency, symbols) <==>
      sym in symbols && forall path :: IsUse(symbols, adjacency, targets, path) ==> path[|path| - 1] != sym
  {
    var roots := Roots(symbols, targets);
    forall path ensures IsUse(symbols, adjacency, targets, path) <==> IsPath(roots, adjacency, symbols, path) {
      assert forall s, d :: HasEdge(adjacency, s, d) <==> d in Deps(adjacency, s);
    }
  }

  ghost function Unreached(roots: set<string>, adjacency: Graph, symbols: set<string>): set<string> {
    set s | s in symbols && !CanReach(roots, adjacency, symbols, s)
  }

  lemma ShareIsFraction(part: nat, whole: nat, fraction: real)
    requires part <= whole && whole > 0
    requires fraction == 1.0 - (part as real / whole as real)
    ensures fraction * whole as real == (whole - part) as real
    ensures 0.0 <= fraction <= 1.0
  {
    var q := part as real / whole as real;
    assert q * whole as real == part as real;
    assert 0.0 <= q <= 1.0;
  }

  // ----- more targets, fewer unused -----

  /** Enlarging the roots or the edges never loses a reachable symbol. */
  lemma ReachMonotone(roots: set<string>, more: set<string>, adjacency: Graph, wider: Graph, symbols: set<string>, sym: string)
    requires roots <= more && forall s :: Deps(adjacency, s) <= Deps(wider, s)
    requires CanReach(roots, adjacency, symbols, sym)
    ensures CanReach(more, wider, symbols, sym)
  {
    var path :| IsPath(roots, adjacency, symbols, path) && path[|path| - 1] == sym;
    assert IsPath(more, wider, symbols, path);
  }
}
