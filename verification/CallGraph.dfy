/** Call graphs and shortest call distance: the specification of `app/pipeline/callchain_db.py`.

    A path is a sequence of functions in which each calls the next.  Call sites repeat edges; only
    the pairs matter here.
 */
module CallGraph {

  type Func = string

  /** A row of the edges table. */
  datatype Edge = Edge(caller: Func, callee: Func, line: int)

  ghost predicate Calls(edges: seq<Edge>, a: Func, b: Func) {
    exists e :: e in edges && e.caller == a && e.callee == b
  }

  /** `p` is a call path from `a` to `d`; it makes |p| - 1 calls. */
  ghost predicate IsPath(edges: seq<Edge>, p: seq<Func>, a: Func, d: Func) {
    && |p| > 0 && p[0] == a && p[|p| - 1] == d
    && forall i :: 0 <= i < |p| - 1 ==> Calls(edges, p[i], p[i + 1])
  }

  /** `d` can be reached from `a` in exactly `k` calls. */
  ghost predicate Walk(edges: seq<Edge>, a: Func, d: Func, k: nat)
    decreases k
  {
    if k == 0 then a == d else exists m :: Walk(edges, a, m, k - 1) && Calls(edges, m, d)
  }

  /** The shortest call path from `a` to `d` makes `k` calls. */
  ghost predicate Dist(edges: seq<Edge>, a: Func, d: Func, k: nat) {
    Walk(edges, a, d, k) && forall j: nat :: j < k ==> !Walk(edges, a, d, j)
  }

  lemma {:induction false} WalkIffPath(edges: seq<Edge>, a: Func, d: Func, k: nat)
    ensures Walk(edges, a, d, k) <==> exists p :: IsPath(edges, p, a, d) && |p| == k + 1
    decreases k
  {
    if k == 0 {
      if a == d { assert IsPath(edges, [a], a, d); }
    } else {
      if Walk(edges, a, d, k) {
        var m :| Walk(edges, a, m, k - 1) && Calls(edges, m, d);
        WalkIffPath(edges, a, m, k - 1);
        var p :| IsPath(edges, p, a, m) && |p| == k;
        assert IsPath(edges, p + [d], a, d);
      }
      if exists p :: IsPath(edges, p, a, d) && |p| == k + 1 {
        var p :| IsPath(edges, p, a, d) && |p| == k + 1;
        assert IsPath(edges, p[..k], a, p[k - 1]) && Calls(edges, p[k - 1], p[k - 1 + 1]);
        WalkIffPath(edges, a, p[k - 1], k - 1);
      }
    }
  }

  lemma WalkStep(edges: seq<Edge>, a: Func, m: Func, d: Func, k: nat)
    requires Walk(edges, a, m, k) && Calls(edges, m, d)
    ensures Walk(edges, a, d, k + 1)
  {
  }

  lemma {:induction false} WalkJoin(edges: seq<Edge>, a: Func, m: Func, d: Func, j: nat, k: nat)
    requires Walk(edges, a, m, j) && Walk(edges, m, d, k)
    ensures Walk(edges, a, d, j + k)
    decreases k
  {
    if k > 0 {
      var n :| Walk(edges, m, n, k - 1) && Calls(edges, n, d);
      WalkJoin(edges, a, m, n, j, k - 1);
      WalkStep(edges, a, n, d, j + k - 1);
    }
  }

  lemma DistUnique(edges: seq<Edge>, a: Func, d: Func, j: nat, k: nat)
    requires Dist(edges, a, d, j) && Dist(edges, a, d, k)
    ensures j == k
  {
  }

  /** Whatever can be reached has a shortest distance. */
  lemma {:induction false} ShortestWalk(edges: seq<Edge>, a: Func, d: Func, k: nat) returns (s: nat)
    requires Walk(edges, a, d, k)
    ensures s <= k && Dist(edges, a, d, s)
    decreases k
  {
    if j: nat :| j < k && Walk(edges, a, d, j) {
      s := ShortestWalk(edges, a, d, j);
    } else {
      s := k;
    }
  }

  /** The last call of a shortest path starts where a shortest path of one call less ends. */
  lemma DistPredecessor(edges: seq<Edge>, a: Func, d: Func, k: nat) returns (m: Func)
    requires Dist(edges, a, d, k) && k > 0
    ensures Dist(edges, a, m, k - 1) && Calls(edges, m, d)
  {
    m :| Walk(edges, a, m, k - 1) && Calls(edges, m, d);
    var s := ShortestWalk(edges, a, m, k - 1);
    WalkStep(edges, a, m, d, s);
  }

  lemma DistZero(edges: seq<Edge>, a: Func, d: Func)
    ensures Dist(edges, a, d, 0) <==> a == d
  {
  }

  /** If nothing lies at distance `k`, nothing lies further away. */
  lemma {:induction false} NothingBeyond(edges: seq<Edge>, a: Func, k: nat, d: Func, j: nat)
    requires forall x :: !Dist(edges, a, x, k)
    requires Dist(edges, a, d, j)
    ensures j < k
    decreases j
  {
    if j > k {
      var m := DistPredecessor(edges, a, d, j);
      NothingBeyond(edges, a, k, m, j - 1);
    }
  }
}
