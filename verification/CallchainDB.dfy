/** CallchainDB of `app/pipeline/callchain_db.py`: the tables and the methods that build and read
    them.  Each SQL statement is the set or map comprehension it denotes. */
module CallchainDB {
  import opened CallGraph
  import opened Closure
  import opened EntryTrees
  import opened EntryCategories
  import StableSort

  datatype ClosureResult = ClosureResult(pairs: nat, maxDepthReached: int, hasCycles: bool, cycles: seq<seq<Func>>)
  datatype TreesResult = TreesResult(trees: nat, totalNodes: nat, truncatedRoots: seq<Func>)
  datatype CategoryResult = CategoryResult(external: nat, processing: nat, internal_: nat, detail: map<Func, Category>)

  /** The closure depth actually built: the first layer is inserted whatever the limit says. */
  function Layers(maxDepth: int): int {
    if maxDepth < 1 then 1 else maxDepth
  }

  /** The byte order of names. */
  predicate NameAtMost(a: Func, b: Func) {
    a == "" || (b != "" && (a[0] < b[0] || (a[0] == b[0] && NameAtMost(a[1..], b[1..]))))
  }

  /** One name comes before or equals the other if it is a prefix of it, or smaller at the first difference. */
  lemma {:induction false} NameOrder(a: Func, b: Func, k: nat)
    requires k <= |a| && k <= |b| && a[..k] == b[..k]
    ensures k == |a| ==> NameAtMost(a, b)
    ensures k < |a| && k < |b| && a[k] < b[k] ==> NameAtMost(a, b) && !NameAtMost(b, a)
    decreases k
  {
    if k > 0 {
      assert a[0] == a[..k][0] && b[0] == b[..k][0];
      assert a[1..][..k - 1] == a[..k][1..] && b[1..][..k - 1] == b[..k][1..];
      NameOrder(a[1..], b[1..], k - 1);
    }
  }

  predicate RowNotAfter(a: (Func, int), b: (Func, int)) {
    a.1 < b.1 || (a.1 == b.1 && NameAtMost(a.0, b.0))
  }

  lemma {:induction false} NamesTotal(a: Func, b: Func)
    ensures NameAtMost(a, b) || NameAtMost(b, a)
  {
    if a != "" && b != "" && a[0] == b[0] { NamesTotal(a[1..], b[1..]); }
  }

  lemma {:induction false} NamesTransitive(a: Func, b: Func, c: Func)
    requires NameAtMost(a, b) && NameAtMost(b, c)
    ensures NameAtMost(a, c)
  {
    if a != "" && b != "" && c != "" && a[0] == b[0] == c[0] { NamesTransitive(a[1..], b[1..], c[1..]); }
  }

  lemma RowsOrdered()
    ensures StableSort.TotalPreorder(RowNotAfter)
  {
    forall a, b ensures RowNotAfter(a, b) || RowNotAfter(b, a) {
      NamesTotal(a.0, b.0);
    }
    forall a, b, c | RowNotAfter(a, b) && RowNotAfter(b, c) ensures RowNotAfter(a, c) {
      if a.1 == b.1 == c.1 { NamesTransitive(a.0, b.0, c.0); }
    }
  }

  /** The rows of a query, each once. */
  method Listed(rows: set<(Func, int)>) returns (all: seq<(Func, int)>)
    ensures forall r :: r in all <==> r in rows
    ensures forall i, j :: 0 <= i < j < |all| ==> all[i] != all[j]
  {
    all := [];
    var rest := rows;
    while rest != {}
      invariant rest <= rows && forall r :: r in all <==> r in rows - rest
      invariant forall i, j :: 0 <= i < j < |all| ==> all[i] != all[j]
      decreases |rest|
    {
      var r :| r in rest;
      all, rest := all + [r], rest - {r};
    }
  }

  lemma StaysDistinct<T>(a: seq<T>, b: seq<T>)
    requires multiset(a) == multiset(b) && forall i, j :: 0 <= i < j < |a| ==> a[i] != a[j]
    ensures forall i, j :: 0 <= i < j < |b| ==> b[i] != b[j]
  {
    forall x ensures multiset(a)[x] <= 1 {
      CountOnce(a, x);
    }
    forall i, j | 0 <= i < j < |b| ensures b[i] != b[j] {
      if b[i] == b[j] { Twice(b, i, j); }
    }
  }

  lemma Twice<T>(b: seq<T>, i: nat, j: nat)
    requires i < j < |b| && b[i] == b[j]
    ensures multiset(b)[b[j]] >= 2
  {
    assert b == b[..j] + b[j..] && b[j..][0] == b[j];
    assert b[..j][i] == b[j] && b[j] in b[..j] && b[j] in b[j..];
  }

  lemma {:induction false} CountOnce<T>(a: seq<T>, x: T)
    requires forall i, j :: 0 <= i < j < |a| ==> a[i] != a[j]
    ensures multiset(a)[x] <= 1
  {
    if a != [] {
      var front, last := a[..|a| - 1], a[|a| - 1];
      CountOnce(front, x);
      assert a == front + [last];
      assert last !in front;
    }
  }

  /** A query with LIMIT 20 and no order: some of the rows, at least one if there are any. */
  method SelectLimit(rows: set<Func>) returns (sample: seq<Func>)
    ensures forall f :: f in sample ==> f in rows
    ensures |sample| == if |rows| < 20 then |rows| else 20
    ensures forall i, j :: 0 <= i < j < |sample| ==> sample[i] != sample[j]
    ensures |rows| < 20 ==> forall f :: f in rows ==> f in sample
  {
    sample := [];
    var rest := rows;
    while rest != {} && |sample| < 20
      invariant rest <= rows && |sample| <= 20 && |sample| + |rest| == |rows|
      invariant forall f :: f in sample <==> f in rows - rest
      invariant forall i, j :: 0 <= i < j < |sample| ==> sample[i] != sample[j]
      decreases |rest|
    {
      var f :| f in rest;
      assert f !in sample;
      rest := rest - {f};
      sample := sample + [f];
    }
  }

  ghost predicate OnCycle(edges: seq<Edge>, f: Func, n: int) {
    exists z, k: nat :: Dist(edges, f, z, k) && 1 <= k <= n && Calls(edges, z, f)
  }

  /** The recorded cycles name different functions, each really on a cycle within reach. */
  ghost predicate CyclesSound(edges: seq<Edge>, cycles: seq<seq<Func>>, n: int) {
    && (forall i :: 0 <= i < |cycles| ==> |cycles[i]| == 1 && OnCycle(edges, cycles[i][0], n))
    && (forall i, j :: 0 <= i < j < |cycles| ==> cycles[i] != cycles[j])
  }

  lemma CyclesSoundGrows(edges: seq<Edge>, cycles: seq<seq<Func>>, n: int, m: int)
    requires CyclesSound(edges, cycles, n) && n <= m
    ensures CyclesSound(edges, cycles, m)
  {
    forall i | 0 <= i < |cycles| ensures OnCycle(edges, cycles[i][0], m) {
      var z, k: nat :| Dist(edges, cycles[i][0], z, k) && 1 <= k <= n && Calls(edges, z, cycles[i][0]);
    }
  }

  lemma SelfReachingOnCycle(edges: seq<Edge>, closure: map<Pair, int>, n: int, f: Func)
    requires ExactUpTo(edges, closure, n) && f in SelfReaching(edges, closure)
    ensures OnCycle(edges, f, n)
  {
    var c, e :| c in closure.Keys && e in edges && c.1 == e.caller && e.callee == c.0 && f == c.0;
    assert Dist(edges, c.0, c.1, closure[c]) && Calls(edges, c.1, c.0);
  }

  /** The loop that records each sampled function once. */
  method RecordCycles(ghost edges: seq<Edge>, cycles: seq<seq<Func>>, sample: seq<Func>, ghost n: int)
    returns (all: seq<seq<Func>>)
    requires CyclesSound(edges, cycles, n) && forall f :: f in sample ==> OnCycle(edges, f, n)
    ensures CyclesSound(edges, all, n) && (all == [] <==> cycles == [] && sample == [])
    ensures cycles <= all && forall f :: f in sample ==> [f] in all
  {
    all := cycles;
    for i := 0 to |sample|
      invariant CyclesSound(edges, all, n)
      invariant all == [] <==> cycles == [] && i == 0
      invariant cycles <= all && forall j :: 0 <= j < i ==> [sample[j]] in all
    {
      var f := sample[i];
      if !exists k :: 0 <= k < |all| && f in all[k] {
        assert forall k :: 0 <= k < |all| ==> all[k] != [f];
        all := all + [[f]];
      } else {
        var k :| 0 <= k < |all| && f in all[k];
        assert all[k] == [f];
      }
    }
  }

  /** Unless there are 20 or more of them, the recorded cycles name every function on a cycle within reach. */
  ghost predicate Sampled(edges: seq<Edge>, cycles: seq<seq<Func>>, n: int) {
    |cycles| >= 20 || forall f :: OnCycle(edges, f, n) ==> [f] in cycles
  }

  lemma OnCycleSelfReaching(edges: seq<Edge>, closure: map<Pair, int>, n: int, f: Func)
    requires ExactUpTo(edges, closure, n) && OnCycle(edges, f, n)
    ensures f in SelfReaching(edges, closure)
  {
    var z, k: nat :| Dist(edges, f, z, k) && 1 <= k <= n && Calls(edges, z, f);
    var e :| e in edges && e.caller == z && e.callee == f;
    assert (f, z) in closure.Keys && (f, z).1 == e.caller && e.callee == (f, z).0;
  }

  /** Different functions that are all recorded need as many records. */
  lemma {:induction false} ManyRecorded(sample: seq<Func>, all: seq<seq<Func>>)
    requires forall i, j :: 0 <= i < j < |sample| ==> sample[i] != sample[j]
    requires forall f :: f in sample ==> [f] in all
    ensures |all| >= |sample|
    decreases |sample|
  {
    if sample != [] {
      var front, f := sample[..|sample| - 1], sample[|sample| - 1];
      var k :| 0 <= k < |all| && all[k] == [f];
      var others := all[..k] + all[k + 1..];
      forall g | g in front ensures [g] in others {
        assert g in sample;
        var j :| 0 <= j < |all| && all[j] == [g];
        assert g != f;
        assert if j < k then others[j] == [g] else others[j - 1] == [g];
      }
      ManyRecorded(front, others);
    }
  }

  lemma AllSampled(edges: seq<Edge>, closure: map<Pair, int>, sample: seq<Func>, all: seq<seq<Func>>, n: int)
    requires ExactUpTo(edges, closure, n) && forall f :: f in sample ==> [f] in all
    requires forall i, j :: 0 <= i < j < |sample| ==> sample[i] != sample[j]
    requires |sample| >= 20 || forall f :: f in SelfReaching(edges, closure) ==> f in sample
    ensures Sampled(edges, all, n)
  {
    if |sample| >= 20 {
      ManyRecorded(sample, all);
    } else {
      forall f | OnCycle(edges, f, n) ensures [f] in all {
        OnCycleSelfReaching(edges, closure, n, f);
      }
    }
  }

  /** How many functions lie within `bound` calls of the root. */
  ghost function Within(edges: seq<Edge>, root: Func, bound: nat): set<Func> {
    set x | x in Callees(edges) + {root} && exists k: nat :: k <= bound && Dist(edges, root, x, k)
  }

  ghost function TotalWithin(edges: seq<Edge>, roots: seq<Func>, bound: nat): nat {
    if roots == [] then 0
    else TotalWithin(edges, roots[..|roots| - 1], bound) + |Within(edges, roots[|roots| - 1], bound)|
  }

  /** The roots below which some function lies exactly at the depth limit. */
  ghost function Truncated(edges: seq<Edge>, roots: seq<Func>, bound: nat): seq<Func> {
    if roots == [] then []
    else
      var r := roots[|roots| - 1];
      Truncated(edges, roots[..|roots| - 1], bound) + (if exists x :: Dist(edges, r, x, bound) then [r] else [])
  }

  lemma {:induction false} NodesCount(rows: seq<TreeRow>)
    requires EntryTrees.Distinct(rows)
    ensures |Nodes(rows)| == |rows|
    decreases |rows|
  {
    if rows != [] {
      var init, last := rows[..|rows| - 1], rows[|rows| - 1];
      assert rows == init + [last];
      NodesCount(init);
      assert forall r :: r in rows <==> r in init || r == last;
      assert Nodes(rows) == Nodes(init) + {last.node};
      assert last.node !in Nodes(init);
    }
  }

  ghost predicate NearEnough(edges: seq<Edge>, root: Func, x: Func, bound: nat) {
    exists k: nat :: k <= bound && Dist(edges, root, x, k)
  }

  lemma TreeNodes(edges: seq<Edge>, root: Func, bound: nat, rows: seq<TreeRow>, x: Func)
    requires ShortestPathTree(edges, root, bound, rows)
    ensures x in Nodes(rows) <==> NearEnough(edges, root, x, bound)
  {
    if x in Nodes(rows) {
      var r :| r in rows && r.node == x;
      assert Right(edges, root, bound, r);
    }
  }

  lemma TreeSize(edges: seq<Edge>, root: Func, bound: nat, rows: seq<TreeRow>)
    requires ShortestPathTree(edges, root, bound, rows)
    ensures |rows| == |Within(edges, root, bound)|
  {
    NodesCount(rows);
    forall x ensures x in Nodes(rows) <==> x in Within(edges, root, bound) {
      TreeNodes(edges, root, bound, rows, x);
      if k: nat :| k <= bound && Dist(edges, root, x, k) {
        if k > 0 {
          var m := DistPredecessor(edges, root, x, k);
          CalleesBound(edges, m, x);
        }
      }
    }
    assert Nodes(rows) == Within(edges, root, bound);
  }

  type TreeTable = map<(Func, Func), TreeRow>

  /** The trees table holds, for exactly the given roots, every function within `bound` calls, with
      its distance and a call path of that length. */
  ghost predicate TreesExact(edges: seq<Edge>, trees: TreeTable, roots: seq<Func>, bound: nat) {
    && (forall p :: p in trees <==> p.0 in roots && NearEnough(edges, p.0, p.1, bound))
    && (forall p :: p in trees ==> trees[p].node == p.1 && Right(edges, p.0, bound, trees[p]))
  }

  /** The rows of one tree under the primary key (root, node). */
  function RowsByNode(root: Func, rows: seq<TreeRow>): TreeTable
    requires Distinct(rows)
  {
    map r | r in rows :: (root, r.node) := r
  }

  lemma OneTreeExact(edges: seq<Edge>, root: Func, bound: nat, rows: seq<TreeRow>)
    requires ShortestPathTree(edges, root, bound, rows)
    ensures TreesExact(edges, RowsByNode(root, rows), [root], bound)
  {
    var t := RowsByNode(root, rows);
    forall p ensures p in t <==> p.0 in [root] && NearEnough(edges, p.0, p.1, bound) {
      TreeNodes(edges, root, bound, rows, p.1);
      if p.0 == root && p.1 in Nodes(rows) {
        var r :| r in rows && r.node == p.1;
        assert (root, r.node) in t && (root, r.node) == p;
      }
    }
    forall p | p in t ensures t[p].node == p.1 && Right(edges, p.0, bound, t[p]) {
      assert t[p] in rows;
    }
  }

  lemma JoinTrees(edges: seq<Edge>, a: TreeTable, b: TreeTable, roots: seq<Func>, root: Func, bound: nat)
    requires TreesExact(edges, a, roots, bound) && TreesExact(edges, b, [root], bound)
    ensures TreesExact(edges, a + b, roots + [root], bound)
  {
    forall p ensures p in a + b <==> p.0 in roots + [root] && NearEnough(edges, p.0, p.1, bound) {
      assert p in a <==> p.0 in roots && NearEnough(edges, p.0, p.1, bound);
      assert p in b <==> p.0 in [root] && NearEnough(edges, p.0, p.1, bound);
    }
  }

  /** One root's tree goes into the table. */
  method AddTree(
    ghost edges: seq<Edge>, adj: map<Func, seq<Func>>, trees: TreeTable, ghost roots: seq<Func>, root: Func, maxDepth: int)
    returns (trees': TreeTable, size: nat, deep: bool)
    requires Adjacency(edges, adj) && TreesExact(edges, trees, roots, Bound(maxDepth))
    ensures TreesExact(edges, trees', roots + [root], Bound(maxDepth))
    ensures size == |Within(edges, root, Bound(maxDepth))|
    ensures deep <==> exists x :: Dist(edges, root, x, Bound(maxDepth))
  {
    var rows;
    rows, deep := GrowTree(edges, adj, root, maxDepth);
    OneTreeExact(edges, root, Bound(maxDepth), rows);
    TreeSize(edges, root, Bound(maxDepth), rows);
    trees' := trees + RowsByNode(root, rows);
    JoinTrees(edges, trees, RowsByNode(root, rows), roots, root, Bound(maxDepth));
    size := |rows|;
  }

  lemma Accumulate(edges: seq<Edge>, roots: seq<Func>, i: nat, bound: nat)
    requires i < |roots|
    ensures roots[..i + 1] == roots[..i] + [roots[i]]
    ensures TotalWithin(edges, roots[..i + 1], bound) ==
            TotalWithin(edges, roots[..i], bound) + |Within(edges, roots[i], bound)|
    ensures Truncated(edges, roots[..i + 1], bound) ==
            Truncated(edges, roots[..i], bound) + (if exists x :: Dist(edges, roots[i], x, bound) then [roots[i]] else [])
  {
    assert roots[..i + 1][..i] == roots[..i];
  }

  class Database {
    var nodes: set<Func>
    var edges: seq<Edge>
    var closure: map<Pair, int>
    var entryTrees: TreeTable
    var entryCategory: map<Func, Category>
    var hasCycles: bool

    constructor ()
      ensures nodes == {} && edges == [] && closure == map[] && entryTrees == map[] && entryCategory == map[]
      ensures !hasCycles
    {
      nodes, edges, closure, entryTrees, entryCategory, hasCycles := {}, [], map[], map[], map[], false;
    }

    /** build_closure: the table, the deepest layer and the cycle flag, whatever the call graph. */
    method BuildClosure(maxDepth: int) returns (r: ClosureResult)
      modifies this`closure, this`hasCycles
      ensures ExactUpTo(edges, closure, if maxDepth < 1 then 1 else maxDepth)
      ensures |r.cycles| >= 20 || forall f :: OnCycle(edges, f, maxDepth - 1) ==> [f] in r.cycles
      ensures hasCycles == r.hasCycles && (r.hasCycles <==> CycleWithin(edges, maxDepth - 1))
      ensures (r.cycles != [] <==> r.hasCycles) && CyclesSound(edges, r.cycles, maxDepth - 1)
      ensures r.pairs == |closure| && 1 <= r.maxDepthReached <= if maxDepth < 1 then 1 else maxDepth
      ensures forall p :: p in closure ==> closure[p] <= r.maxDepthReached
      ensures r.maxDepthReached > 1 ==> exists p :: p in closure && closure[p] == r.maxDepthReached
      ensures r.maxDepthReached < maxDepth ==> Complete(edges, closure)
    {
      closure := DirectPairs(edges);
      DirectPairsExact(edges);
      var cycles, reached := ExtendLayers(maxDepth);
      hasCycles := cycles != [];
      r := ClosureResult(|closure|, reached, hasCycles, cycles);
    }

    /** The layer loop.  A layer that inserts nothing ends it: nothing lies beyond. */
    method ExtendLayers(maxDepth: int) returns (cycles: seq<seq<Func>>, reached: int)
      requires ExactUpTo(edges, closure, 1)
      modifies this`closure
      ensures ExactUpTo(edges, closure, Layers(maxDepth))
      ensures (cycles != [] <==> CycleWithin(edges, maxDepth - 1)) && CyclesSound(edges, cycles, maxDepth - 1)
      ensures Sampled(edges, cycles, maxDepth - 1)
      ensures 1 <= reached <= Layers(maxDepth) && forall p :: p in closure ==> closure[p] <= reached
      ensures reached > 1 ==> exists p :: p in closure && closure[p] == reached
      ensures reached < maxDepth ==> Complete(edges, closure)
    {
      cycles, reached := [], 1;
      var depth := 2;
      while depth <= maxDepth
        invariant 2 <= depth <= Layers(maxDepth) + 1 && reached == depth - 1
        invariant ExactUpTo(edges, closure, depth - 1)
        invariant (cycles != [] <==> CycleWithin(edges, depth - 2)) && CyclesSound(edges, cycles, depth - 2)
        invariant reached > 1 ==> exists p :: p in closure && closure[p] == reached
        invariant Sampled(edges, cycles, depth - 2)
      {
        cycles := CheckCycles(cycles, depth - 1);
        var inserted := InsertLayer(depth);
        if inserted == 0 {
          StopEarly(edges, closure, cycles, depth, maxDepth);
          ConvergedComplete(edges, closure, depth);
          return;
        }
        reached := depth;
        depth := depth + 1;
      }
    }

    /** One INSERT ... SELECT statement; its row count. */
    method InsertLayer(depth: nat) returns (inserted: nat)
      requires depth >= 2 && ExactUpTo(edges, closure, depth - 1)
      modifies this`closure
      ensures ExactUpTo(edges, closure, depth)
      ensures inserted == 0 ==> closure == old(closure) && NextLayer(edges, closure, depth) == {}
      ensures inserted > 0 ==> exists p :: p in closure && closure[p] == depth
    {
      var layer := NextLayer(edges, closure, depth);
      inserted := |layer|;
      NextLayerExact(edges, closure, depth);
      closure := closure + map p | p in layer :: depth;
      if p :| p in layer {
        assert p in closure && closure[p] == depth;
      }
    }

    method CheckCycles(cycles: seq<seq<Func>>, ghost n: nat) returns (all: seq<seq<Func>>)
      requires ExactUpTo(edges, closure, n) && CyclesSound(edges, cycles, n - 1)
      requires cycles != [] ==> CycleWithin(edges, n - 1)
      ensures (all != [] <==> CycleWithin(edges, n)) && CyclesSound(edges, all, n) && Sampled(edges, all, n)
    {
      var sample := SelectLimit(SelfReaching(edges, closure));
      forall f | f in sample ensures OnCycle(edges, f, n) {
        SelfReachingOnCycle(edges, closure, n, f);
      }
      CyclesSoundGrows(edges, cycles, n - 1, n);
      all := RecordCycles(edges, cycles, sample, n);
      AllSampled(edges, closure, sample, all, n);
      SelfReachingIsCycle(edges, closure, n);
    }

    /** build_entry_trees: with no roots the table keeps its old rows; otherwise it is rebuilt. */
    method BuildEntryTrees(roots: seq<Func>, maxDepth: int) returns (r: TreesResult)
      modifies this`entryTrees
      ensures roots == [] ==> entryTrees == old(entryTrees) && r == TreesResult(0, 0, [])
      ensures var bound := if maxDepth < 0 then 0 else maxDepth;
              && (roots != [] ==> TreesExact(edges, entryTrees, roots, bound))
              && r.trees == |roots| && r.totalNodes == TotalWithin(edges, roots, bound)
              && r.truncatedRoots == Truncated(edges, roots, bound)
    {
      if roots == [] {
        return TreesResult(0, 0, []);
      }
      var adj := BuildAdjacency(edges);
      entryTrees := map[];
      var total, truncated := 0, [];
      for i := 0 to |roots|
        invariant TreesExact(edges, entryTrees, roots[..i], Bound(maxDepth))
        invariant total == TotalWithin(edges, roots[..i], Bound(maxDepth))
        invariant truncated == Truncated(edges, roots[..i], Bound(maxDepth))
      {
        var size, deep;
        entryTrees, size, deep := AddTree(edges, adj, entryTrees, roots[..i], roots[i], maxDepth);
        Accumulate(edges, roots, i, Bound(maxDepth));
        total := total + size;
        if deep {
          truncated := truncated + [roots[i]];
        }
      }
      assert roots[..|roots|] == roots;
      r := TreesResult(|roots|, total, truncated);
    }

    predicate IsReachable(ancestor: Func, descendant: Func) reads this`closure {
      ancestor == descendant || (ancestor, descendant) in closure
    }

    function Ancestors(f: Func, maxDepth: int): set<(Func, int)> reads this`closure {
      set p | p in closure && p.1 == f && closure[p] <= maxDepth :: (p.0, closure[p])
    }

    /** get_ancestors: the rows in the order of depth and then of name, each once. */
    method GetAncestors(f: Func, maxDepth: int) returns (rows: seq<(Func, int)>)
      ensures forall r :: r in rows <==> r in Ancestors(f, maxDepth)
      ensures forall i, j :: 0 <= i < j < |rows| ==> rows[i] != rows[j] && rows[i].1 <= rows[j].1
      ensures forall i, j :: 0 <= i < j < |rows| && rows[i].1 == rows[j].1 ==> NameAtMost(rows[i].0, rows[j].0)
    {
      var all := Listed(Ancestors(f, maxDepth));
      rows := StableSort.Sort(all, RowNotAfter);
      RowsOrdered();
      StableSort.SortSorts(all, RowNotAfter);
      StableSort.SortPermutes(all, RowNotAfter);
      StaysDistinct(all, rows);
      forall r ensures r in rows <==> r in Ancestors(f, maxDepth) {
        assert r in multiset(rows) <==> r in multiset(all);
      }
    }

    /** classify_entry_categories: the result follows the rules, counts them and is stored for known functions. */
    method ClassifyEntryCategories(kept: set<Func>, active: set<Func>, maxDepth: int) returns (r: CategoryResult)
      modifies this`entryCategory
      ensures FollowsRules(closure, kept, active, maxDepth, r.detail)
      ensures forall f :: f in kept ==> r.detail[f] == Categorize(closure, kept, active, maxDepth, f)
      ensures Counted(r) && r.external + r.processing + r.internal_ == |kept|
      ensures entryCategory == old(entryCategory) + map f | f in kept && f in nodes :: r.detail[f]
    {
      var detail := Classify(closure, kept, active, maxDepth);
      CategoriesFollowRules(closure, kept, active, maxDepth, detail);
      CountsPartition(detail);
      r := Count(detail);
      entryCategory := entryCategory + map f | f in detail && f in nodes :: detail[f];
    }
  }

  ghost predicate Counted(r: CategoryResult) {
    && r.external == |set f | f in r.detail && r.detail[f] == External|
    && r.processing == |set f | f in r.detail && r.detail[f] == Processing|
    && r.internal_ == |set f | f in r.detail && r.detail[f] == Internal|
  }

  method Count(detail: map<Func, Category>) returns (r: CategoryResult)
    ensures Counted(r) && r.detail == detail
  {
    r := CategoryResult(
      |set f | f in detail && detail[f] == External|,
      |set f | f in detail && detail[f] == Processing|,
      |set f | f in detail && detail[f] == Internal|,
      detail);
  }

  lemma StopEarly(edges: seq<Edge>, closure: map<Pair, int>, cycles: seq<seq<Func>>, depth: nat, maxDepth: int)
    requires 2 <= depth <= maxDepth && ExactUpTo(edges, closure, depth - 1) && NextLayer(edges, closure, depth) == {}
    requires (cycles != [] <==> CycleWithin(edges, depth - 1)) && CyclesSound(edges, cycles, depth - 1)
    ensures ExactUpTo(edges, closure, maxDepth)
    requires Sampled(edges, cycles, depth - 1)
    ensures (cycles != [] <==> CycleWithin(edges, maxDepth - 1)) && CyclesSound(edges, cycles, maxDepth - 1)
    ensures Sampled(edges, cycles, maxDepth - 1)
  {
    ConvergedExact(edges, closure, depth, maxDepth);
    ConvergedExact(edges, closure, depth, maxDepth - 1);
    CyclesSoundGrows(edges, cycles, depth - 1, maxDepth - 1);
    var n := maxDepth - 1;
    forall f | OnCycle(edges, f, n) ensures OnCycle(edges, f, depth - 1) {
      OnCycleSelfReaching(edges, closure, n, f);
      SelfReachingOnCycle(edges, closure, depth - 1, f);
    }
  }

  /** is_reachable answers reachability within the depth the closure was built to. */
  lemma ReachableExactly(db: Database, n: int, a: Func, d: Func)
    requires n >= 0 && ExactUpTo(db.edges, db.closure, n)
    ensures db.IsReachable(a, d) <==> exists k: nat :: k <= n && Walk(db.edges, a, d, k)
  {
    DistZero(db.edges, a, d);
    if a == d {
      assert Walk(db.edges, a, d, 0);
    } else if (a, d) in db.closure {
      var k: nat := db.closure[(a, d)];
      assert Dist(db.edges, (a, d).0, (a, d).1, k);
      assert k <= n && Walk(db.edges, a, d, k);
    } else if k: nat :| k <= n && Walk(db.edges, a, d, k) {
      var s := ShortestWalk(db.edges, a, d, k);
      assert false;
    }
  }

  /** get_ancestors lists exactly the functions at distance 1 to the smaller of the two limits. */
  lemma AncestorsExactly(db: Database, n: int, f: Func, maxDepth: int, a: Func, k: nat)
    requires ExactUpTo(db.edges, db.closure, n)
    ensures (a, k) in db.Ancestors(f, maxDepth) <==>
              Dist(db.edges, a, f, k) && 1 <= k <= n && k <= maxDepth
  {
    if Dist(db.edges, a, f, k) && 1 <= k <= n && k <= maxDepth {
      DistUnique(db.edges, a, f, k, db.closure[(a, f)]);
      assert (a, f) in db.closure && (a, f).1 == f;
    }
    if (a, k) in db.Ancestors(f, maxDepth) {
      var p :| p in db.closure && p.1 == f && (a, k) == (p.0, db.closure[p]);
      assert Dist(db.edges, p.0, p.1, db.closure[p]);
    }
  }

  /** The two independent algorithms agree: below a root, the tree built to a depth and the closure
      built to the same depth hold the same functions with the same depths. */
  lemma TreesMatchClosure(db: Database, roots: seq<Func>, n: nat, r: Func, x: Func)
    requires n >= 1 && r in roots && x != r
    requires ExactUpTo(db.edges, db.closure, n) && TreesExact(db.edges, db.entryTrees, roots, n)
    ensures (r, x) in db.entryTrees <==> (r, x) in db.closure
    ensures (r, x) in db.closure ==> db.entryTrees[(r, x)].depth == db.closure[(r, x)]
  {
    if (r, x) in db.entryTrees {
      var row := db.entryTrees[(r, x)];
      assert Right(db.edges, (r, x).0, n, row);
      DistZero(db.edges, r, x);
      assert (r, x) in db.closure;
    }
    if (r, x) in db.closure {
      var k := db.closure[(r, x)];
      assert Dist(db.edges, (r, x).0, (r, x).1, k);
      assert NearEnough(db.edges, (r, x).0, (r, x).1, n);
      assert Right(db.edges, (r, x).0, n, db.entryTrees[(r, x)]);
      DistUnique(db.edges, r, x, k, db.entryTrees[(r, x)].depth);
    }
  }
}
