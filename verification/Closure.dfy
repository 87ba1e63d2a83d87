/** The layered transitive closure and the cycle flag of build_closure. */
module Closure {
  import opened CallGraph

  type Pair = (Func, Func)

  /** The closure table holds exactly the pairs at distance 1 to `k`, with their distance. */
  ghost predicate ExactUpTo(edges: seq<Edge>, closure: map<Pair, int>, k: int) {
    && (forall p :: p in closure ==> 1 <= closure[p] <= k && Dist(edges, p.0, p.1, closure[p]))
    && (forall a, d, j: nat :: Dist(edges, a, d, j) && 1 <= j <= k ==> (a, d) in closure)
  }

  /** Two functions at most `n` calls apart, the second of which calls the first. */
  ghost predicate CycleWithin(edges: seq<Edge>, n: int) {
    exists a, z, k: nat :: Dist(edges, a, z, k) && 1 <= k <= n && Calls(edges, z, a)
  }

  // ---- the SQL statements ----

  function DirectPairs(edges: seq<Edge>): map<Pair, int> {
    map e | e in edges && e.caller != e.callee :: (e.caller, e.callee) := 1
  }

  /** Pairs one call beyond the pairs of depth `depth - 1` that are not in the table yet. */
  function NextLayer(edges: seq<Edge>, closure: map<Pair, int>, depth: int): set<Pair> {
    set c, e | c in closure.Keys && e in edges && closure[c] == depth - 1 && c.1 == e.caller
               && c.0 != e.callee && (c.0, e.callee) !in closure
      :: (c.0, e.callee)
  }

  /** The ancestors that one of their descendants calls. */
  function SelfReaching(edges: seq<Edge>, closure: map<Pair, int>): set<Func> {
    set c, e | c in closure.Keys && e in edges && c.1 == e.caller && e.callee == c.0 :: c.0
  }

  // ---- what they compute ----

  lemma DirectPairsExact(edges: seq<Edge>)
    ensures ExactUpTo(edges, DirectPairs(edges), 1)
  {
    var c := DirectPairs(edges);
    forall p | p in c ensures c[p] == 1 && Dist(edges, p.0, p.1, 1) {
      assert Calls(edges, p.0, p.1);
      assert Walk(edges, p.0, p.0, 0);
      WalkStep(edges, p.0, p.0, p.1, 0);
    }
    forall a, d, j: nat | Dist(edges, a, d, j) && 1 <= j <= 1 ensures (a, d) in c {
      var m := DistPredecessor(edges, a, d, 1);
      assert m == a;
      var e :| e in edges && e.caller == a && e.callee == d;
      assert (e.caller, e.callee) in c;
    }
  }

  lemma NextLayerAtDistance(edges: seq<Edge>, closure: map<Pair, int>, k: nat, p: Pair)
    requires k >= 2 && ExactUpTo(edges, closure, k - 1)
    ensures p in NextLayer(edges, closure, k) <==> Dist(edges, p.0, p.1, k)
  {
    if p in NextLayer(edges, closure, k) {
      var c, e :| c in closure.Keys && e in edges && closure[c] == k - 1 && c.1 == e.caller
                  && c.0 != e.callee && (c.0, e.callee) !in closure && p == (c.0, e.callee);
      assert Calls(edges, c.1, e.callee);
      WalkStep(edges, c.0, c.1, e.callee, k - 1);
      var s := ShortestWalk(edges, p.0, p.1, k);
    }
    if Dist(edges, p.0, p.1, k) {
      var m := DistPredecessor(edges, p.0, p.1, k);
      assert (p.0, m) in closure;
      DistUnique(edges, p.0, m, closure[(p.0, m)], k - 1);
      var e :| e in edges && e.caller == m && e.callee == p.1;
      assert p.0 != p.1 by { if p.0 == p.1 { assert Walk(edges, p.0, p.1, 0); } }
      assert (p.0, m) in closure.Keys && p == (p.0, e.callee);
    }
  }

  lemma NextLayerExact(edges: seq<Edge>, closure: map<Pair, int>, k: nat)
    requires k >= 2 && ExactUpTo(edges, closure, k - 1)
    ensures ExactUpTo(edges, closure + map p | p in NextLayer(edges, closure, k) :: k, k)
  {
    forall p: Pair ensures p in NextLayer(edges, closure, k) <==> Dist(edges, p.0, p.1, k) {
      NextLayerAtDistance(edges, closure, k, p);
    }
    var c' := closure + map p | p in NextLayer(edges, closure, k) :: k;
    forall a, d, j: nat | Dist(edges, a, d, j) && 1 <= j <= k ensures (a, d) in c' {
      if j == k { assert (a, d) in NextLayer(edges, closure, k) by { assert Dist(edges, (a, d).0, (a, d).1, k); } }
    }
  }

  /** Stopping at the first layer that inserts nothing loses no pair at any greater depth. */
  lemma ConvergedExact(edges: seq<Edge>, closure: map<Pair, int>, k: nat, n: int)
    requires k >= 2 && ExactUpTo(edges, closure, k - 1) && NextLayer(edges, closure, k) == {} && n >= k - 1
    ensures ExactUpTo(edges, closure, n)
    ensures CycleWithin(edges, n) <==> CycleWithin(edges, k - 1)
  {
    forall a, d, j: nat | Dist(edges, a, d, j) && 1 <= j ensures j <= k - 1 {
      forall x ensures !Dist(edges, a, x, k) {
        NextLayerAtDistance(edges, closure, k, (a, x));
      }
      NothingBeyond(edges, a, k, d, j);
    }
  }

  lemma SelfReachingIsCycle(edges: seq<Edge>, closure: map<Pair, int>, k: int)
    requires ExactUpTo(edges, closure, k)
    ensures SelfReaching(edges, closure) != {} <==> CycleWithin(edges, k)
  {
    if f :| f in SelfReaching(edges, closure) {
      var c, e :| c in closure.Keys && e in edges && c.1 == e.caller && e.callee == c.0;
      assert Dist(edges, c.0, c.1, closure[c]) && Calls(edges, c.1, c.0);
    }
    if CycleWithin(edges, k) {
      var a, z, j: nat :| Dist(edges, a, z, j) && 1 <= j <= k && Calls(edges, z, a);
      var e :| e in edges && e.caller == z && e.callee == a;
      assert (a, z) in closure.Keys && (a, z).1 == e.caller && e.callee == (a, z).0;
      assert a in SelfReaching(edges, closure);
    }
  }

  // ---- cycles as closed call paths ----

  /** A closed call path that passes through at least two functions. */
  ghost predicate ClosedPath(edges: seq<Edge>, p: seq<Func>, a: Func) {
    IsPath(edges, p, a, a) && exists i :: 0 <= i < |p| && p[i] != a
  }

  lemma PathSegment(edges: seq<Edge>, p: seq<Func>, a: Func, d: Func, i: nat, j: nat)
    requires IsPath(edges, p, a, d) && i <= j < |p|
    ensures Walk(edges, p[i], p[j], j - i)
  {
    var q := p[i..j + 1];
    forall k | 0 <= k < |q| - 1 ensures Calls(edges, q[k], q[k + 1]) {
      assert Calls(edges, p[i + k], p[i + k + 1]);
    }
    assert IsPath(edges, q, p[i], p[j]) && |q| == j - i + 1;
    WalkIffPath(edges, p[i], p[j], j - i);
  }

  lemma {:induction false} FirstChange(p: seq<Func>, i: nat) returns (k: nat)
    requires i < |p| && p[i] != p[0]
    ensures k < i && p[k] != p[k + 1]
    decreases i
  {
    if p[i - 1] != p[i] { k := i - 1; } else { k := FirstChange(p, i - 1); }
  }

  /** The cycle condition is about real cycles: it holds within `n` exactly when some closed call
      path of at most n + 1 calls passes through two different functions. */
  lemma CycleIffClosedPath(edges: seq<Edge>, n: int)
    ensures CycleWithin(edges, n) <==> exists p, a :: ClosedPath(edges, p, a) && |p| - 1 <= n + 1
  {
    if CycleWithin(edges, n) {
      var a, z, k: nat :| Dist(edges, a, z, k) && 1 <= k <= n && Calls(edges, z, a);
      WalkIffPath(edges, a, z, k);
      var q :| IsPath(edges, q, a, z) && |q| == k + 1;
      var p := q + [a];
      assert IsPath(edges, p, a, a) && p[k] == z;
      assert a != z by { if a == z { assert Walk(edges, a, z, 0); } }
      assert ClosedPath(edges, p, a);
    }
    if exists p, a :: ClosedPath(edges, p, a) && |p| - 1 <= n + 1 {
      var p, a :| ClosedPath(edges, p, a) && |p| - 1 <= n + 1;
      var i :| 0 <= i < |p| && p[i] != a;
      var c := FirstChange(p, i);
      PathSegment(edges, p, a, a, c + 1, |p| - 1);
      PathSegment(edges, p, a, a, 0, c);
      WalkJoin(edges, p[c + 1], a, p[c], |p| - 2 - c, c);
      var s := ShortestWalk(edges, p[c + 1], p[c], |p| - 2);
      assert Calls(edges, p[c], p[c + 1]);
      assert s > 0;
    }
  }
}
