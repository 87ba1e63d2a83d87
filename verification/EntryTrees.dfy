/** The breadth-first trees of build_entry_trees are shortest-path trees. */
module EntryTrees {
  import opened CallGraph

  /** A row of the entry_trees table, for one root. */
  datatype TreeRow = TreeRow(node: Func, path: seq<Func>, depth: nat)

  ghost predicate Right(edges: seq<Edge>, root: Func, bound: nat, r: TreeRow) {
    && r.depth <= bound
    && Dist(edges, root, r.node, r.depth)
    && IsPath(edges, r.path, root, r.node) && |r.path| == r.depth + 1
  }

  function Nodes(rows: seq<TreeRow>): set<Func> {
    set r | r in rows :: r.node
  }

  ghost predicate Distinct(rows: seq<TreeRow>) {
    forall i, j :: 0 <= i < j < |rows| ==> rows[i].node != rows[j].node
  }

  ghost predicate AllRight(edges: seq<Edge>, root: Func, bound: nat, rows: seq<TreeRow>) {
    forall r :: r in rows ==> Right(edges, root, bound, r)
  }

  /** Every function within `bound` calls of the root is listed once, with a shortest path. */
  ghost predicate ShortestPathTree(edges: seq<Edge>, root: Func, bound: nat, rows: seq<TreeRow>) {
    && Distinct(rows)
    && AllRight(edges, root, bound, rows)
    && (forall x, k: nat :: Dist(edges, root, x, k) && k <= bound ==> x in Nodes(rows))
  }

  // ---- the search ----

  /** `rows` are the popped entries followed by the queued ones; the first `popped` of them have
      put all their callees in. */
  ghost predicate Search(edges: seq<Edge>, root: Func, bound: nat, rows: seq<TreeRow>, popped: nat) {
    && popped <= |rows| && |rows| > 0 && rows[0].node == root
    && Distinct(rows) && AllRight(edges, root, bound, rows)
    && (forall i, j :: 0 <= i < j < |rows| ==> rows[i].depth <= rows[j].depth)
    && (popped < |rows| ==> rows[|rows| - 1].depth <= rows[popped].depth + 1)
    && (forall i, c :: 0 <= i < popped && rows[i].depth < bound && Calls(edges, rows[i].node, c) ==> c in Nodes(rows))
  }

  /** While everything still queued is at least `h` deep, everything closer than `h` is listed. */
  lemma {:induction false} Frontier(
    edges: seq<Edge>, root: Func, bound: nat, rows: seq<TreeRow>, popped: nat, h: nat, x: Func, k: nat)
    requires Search(edges, root, bound, rows, popped)
    requires forall i :: popped <= i < |rows| ==> rows[i].depth >= h
    requires Dist(edges, root, x, k) && k <= h && k <= bound
    ensures x in Nodes(rows)
    decreases k
  {
    if k == 0 {
      assert rows[0].node == x;
    } else {
      var m := DistPredecessor(edges, root, x, k);
      Frontier(edges, root, bound, rows, popped, h, m, k - 1);
      var i :| 0 <= i < |rows| && rows[i].node == m;
      assert Right(edges, root, bound, rows[i]);
      DistUnique(edges, root, m, rows[i].depth, k - 1);
    }
  }

  /** A callee not listed yet lies exactly one call beyond the entry being expanded. */
  lemma NewCallee(
    edges: seq<Edge>, root: Func, bound: nat, rows: seq<TreeRow>, popped: nat, c: Func)
    requires Search(edges, root, bound, rows, popped) && popped < |rows| && rows[popped].depth < bound
    requires Calls(edges, rows[popped].node, c) && c !in Nodes(rows)
    ensures var e := rows[popped]; Right(edges, root, bound, TreeRow(c, e.path + [c], e.depth + 1))
  {
    var e := rows[popped];
    assert Right(edges, root, bound, e);
    WalkStep(edges, root, e.node, c, e.depth);
    var s := ShortestWalk(edges, root, c, e.depth + 1);
    if s <= e.depth {
      Frontier(edges, root, bound, rows, popped, e.depth, c, s);
    }
    var p := e.path + [c];
    forall i | 0 <= i < |p| - 1 ensures Calls(edges, p[i], p[i + 1]) {
      if i < |e.path| - 1 { assert Calls(edges, e.path[i], e.path[i + 1]); }
    }
  }

  /** When the queue is empty the search has listed the whole tree. */
  lemma SearchComplete(edges: seq<Edge>, root: Func, bound: nat, rows: seq<TreeRow>)
    requires Search(edges, root, bound, rows, |rows|)
    ensures ShortestPathTree(edges, root, bound, rows)
  {
    forall x, k: nat | Dist(edges, root, x, k) && k <= bound ensures x in Nodes(rows) {
      Frontier(edges, root, bound, rows, |rows|, k, x, k);
    }
  }

  /** The adjacency lists hold exactly the calls. */
  ghost predicate Adjacency(edges: seq<Edge>, adj: map<Func, seq<Func>>) {
    forall a, b :: (a in adj && b in adj[a]) <==> Calls(edges, a, b)
  }

  lemma OneMoreEdge(edges: seq<Edge>, e: Edge, a: Func, b: Func)
    ensures Calls(edges + [e], a, b) <==> Calls(edges, a, b) || (e.caller == a && e.callee == b)
  {
    if Calls(edges, a, b) {
      var f :| f in edges && f.caller == a && f.callee == b;
      assert f in edges + [e];
    }
    assert e in edges + [e];
  }

  method BuildAdjacency(edges: seq<Edge>) returns (adj: map<Func, seq<Func>>)
    ensures Adjacency(edges, adj)
  {
    adj := map[];
    for n := 0 to |edges|
      invariant Adjacency(edges[..n], adj)
    {
      var e := edges[n];
      adj := adj[e.caller := (if e.caller in adj then adj[e.caller] else []) + [e.callee]];
      assert edges[..n + 1] == edges[..n] + [e];
      forall a, b { OneMoreEdge(edges[..n], e, a, b); }
    }
    assert edges[..|edges|] == edges;
  }

  ghost function Callees(edges: seq<Edge>): set<Func> {
    set e | e in edges :: e.callee
  }

  lemma CalleesBound(edges: seq<Edge>, a: Func, c: Func)
    requires Calls(edges, a, c)
    ensures c in Callees(edges)
  {
  }

  ghost predicate InOrder(rows: seq<TreeRow>) {
    forall i, j :: 0 <= i < j < |rows| ==> rows[i].node != rows[j].node && rows[i].depth <= rows[j].depth
  }

  /** What holds while the callees of an entry of depth `d` are being put in after `before`. */
  ghost predicate Expanding(edges: seq<Edge>, root: Func, d: nat, before: seq<TreeRow>, rows: seq<TreeRow>) {
    before <= rows && InOrder(rows) && AllRight(edges, root, d + 1, rows)
  }

  lemma StartExpanding(edges: seq<Edge>, root: Func, bound: nat, rows: seq<TreeRow>, popped: nat)
    requires Search(edges, root, bound, rows, popped) && popped < |rows|
    ensures Expanding(edges, root, rows[popped].depth, rows, rows)
  {
    forall r | r in rows ensures Right(edges, root, rows[popped].depth + 1, r) {
      assert Right(edges, root, bound, r);
    }
  }

  function Child(e: TreeRow, c: Func): TreeRow {
    TreeRow(c, e.path + [c], e.depth + 1)
  }

  lemma NewCallees(edges: seq<Edge>, root: Func, bound: nat, rows: seq<TreeRow>, popped: nat)
    requires Search(edges, root, bound, rows, popped) && popped < |rows| && rows[popped].depth < bound
    ensures forall c :: Calls(edges, rows[popped].node, c) && c !in Nodes(rows) ==>
              Right(edges, root, rows[popped].depth + 1, Child(rows[popped], c))
  {
    forall c | Calls(edges, rows[popped].node, c) && c !in Nodes(rows)
      ensures Right(edges, root, rows[popped].depth + 1, Child(rows[popped], c))
    {
      NewCallee(edges, root, bound, rows, popped, c);
    }
  }

  lemma ExpandOne(edges: seq<Edge>, root: Func, d: nat, before: seq<TreeRow>, rows: seq<TreeRow>, r: TreeRow)
    requires Expanding(edges, root, d, before, rows)
    requires Right(edges, root, d + 1, r) && r.depth == d + 1 && r.node !in Nodes(rows)
    ensures Expanding(edges, root, d, before, rows + [r])
    ensures Nodes(rows + [r]) == Nodes(rows) + {r.node}
  {
    var all := rows + [r];
    assert forall q :: q in all <==> q in rows || q == r;
    forall i, j | 0 <= i < j < |all| ensures all[i].node != all[j].node && all[i].depth <= all[j].depth {
      assert all[i] in rows && Right(edges, root, d + 1, all[i]);
    }
  }

  lemma Expanded(
    edges: seq<Edge>, root: Func, bound: nat, before: seq<TreeRow>, popped: nat, rows: seq<TreeRow>)
    requires Search(edges, root, bound, before, popped) && popped < |before| && before[popped].depth < bound
    requires Expanding(edges, root, before[popped].depth, before, rows)
    requires forall c :: Calls(edges, before[popped].node, c) ==> c in Nodes(rows)
    ensures Search(edges, root, bound, rows, popped + 1)
  {
    var d := before[popped].depth;
    forall r | r in rows ensures Right(edges, root, bound, r) && r.depth <= d + 1 {
      assert Right(edges, root, d + 1, r);
    }
    assert Nodes(before) <= Nodes(rows) by {
      assert forall r :: r in before ==> r in rows;
    }
    forall i, c | 0 <= i < popped + 1 && rows[i].depth < bound && Calls(edges, rows[i].node, c)
      ensures c in Nodes(rows)
    {
      if i < popped {
        assert before[i] == rows[i];
        assert c in Nodes(before);
      }
    }
  }

  lemma PopDeep(edges: seq<Edge>, root: Func, bound: nat, rows: seq<TreeRow>, popped: nat)
    requires Search(edges, root, bound, rows, popped) && popped < |rows| && rows[popped].depth >= bound
    ensures Search(edges, root, bound, rows, popped + 1)
  {
  }

  lemma Snoc<T>(a: seq<T>, b: seq<T>, x: T)
    ensures a + b + [x] == a + (b + [x])
  {
  }

  lemma Unsnoc<T>(a: seq<T>, b: seq<T>)
    requires |b| > 0
    ensures a + b == (a + [b[0]]) + b[1..] && (a + b)[|a|] == b[0]
  {
  }

  /** The inner loop of the search: every callee that was not visited joins the queue. */
  method Expand(
    ghost edges: seq<Edge>, ghost root: Func, ghost bound: nat, adj: map<Func, seq<Func>>, e: TreeRow,
    ghost rows: seq<TreeRow>, ghost before: seq<TreeRow>, ghost popped: nat,
    queue: seq<TreeRow>, visited: set<Func>)
    returns (queue': seq<TreeRow>, visited': set<Func>, ghost all: seq<TreeRow>)
    requires Adjacency(edges, adj)
    requires Search(edges, root, bound, before, popped) && popped < |before| && before[popped] == e && e.depth < bound
    requires before == rows + queue && visited == Nodes(before)
    ensures all == rows + queue' && Search(edges, root, bound, all, popped + 1)
    ensures visited' == Nodes(all) && visited <= visited' <= visited + Callees(edges)
    ensures visited' == visited ==> queue' == queue
  {
    StartExpanding(edges, root, bound, before, popped);
    var callees := if e.node in adj then adj[e.node] else [];
    CalleesListed(edges, adj, e.node, callees);
    NewCallees(edges, root, bound, before, popped);
    queue', visited', all := VisitAll(edges, root, callees, e, rows, before, queue, visited);
    Expanded(edges, root, bound, before, popped, all);
  }

  method VisitAll(
    ghost edges: seq<Edge>, ghost root: Func, callees: seq<Func>, e: TreeRow,
    ghost rows: seq<TreeRow>, ghost before: seq<TreeRow>, queue: seq<TreeRow>, visited: set<Func>)
    returns (queue': seq<TreeRow>, visited': set<Func>, ghost all: seq<TreeRow>)
    requires before == rows + queue && Expanding(edges, root, e.depth, before, before) && visited == Nodes(before)
    requires forall c :: c in callees ==> c in Callees(edges)
    requires forall c :: c in callees && c !in visited ==> Right(edges, root, e.depth + 1, Child(e, c))
    ensures all == rows + queue' && Expanding(edges, root, e.depth, before, all)
    ensures visited' == Nodes(all) && visited <= visited' <= visited + Callees(edges)
    ensures forall c :: c in callees ==> c in visited'
    ensures visited' == visited ==> queue' == queue
  {
    queue', visited', all := queue, visited, before;
    for n := 0 to |callees|
      invariant all == rows + queue' && Expanding(edges, root, e.depth, before, all)
      invariant visited' == Nodes(all)
      invariant visited <= visited' <= visited + Callees(edges)
      invariant forall k :: 0 <= k < n ==> callees[k] in visited'
      invariant visited' == visited ==> queue' == queue
    {
      queue', visited', all := Visit(edges, root, callees[n], e, rows, before, all, queue', visited');
    }
  }

  /** One callee: seen before, or appended with the path that led to it. */
  method Visit(
    ghost edges: seq<Edge>, ghost root: Func, c: Func, e: TreeRow,
    ghost rows: seq<TreeRow>, ghost before: seq<TreeRow>, ghost now: seq<TreeRow>,
    queue: seq<TreeRow>, visited: set<Func>)
    returns (queue': seq<TreeRow>, visited': set<Func>, ghost all: seq<TreeRow>)
    requires now == rows + queue && Expanding(edges, root, e.depth, before, now) && visited == Nodes(now)
    requires c !in visited ==> Right(edges, root, e.depth + 1, Child(e, c))
    ensures all == rows + queue' && Expanding(edges, root, e.depth, before, all)
    ensures visited' == Nodes(all) == visited + {c}
    ensures visited' == visited ==> queue' == queue
  {
    queue', visited', all := queue, visited, now;
    if c !in visited {
      ExpandOne(edges, root, e.depth, before, now, Child(e, c));
      Snoc(rows, queue, Child(e, c));
      visited' := visited + {c};
      queue' := queue + [Child(e, c)];
      all := now + [Child(e, c)];
    }
  }

  lemma CalleesListed(edges: seq<Edge>, adj: map<Func, seq<Func>>, f: Func, callees: seq<Func>)
    requires Adjacency(edges, adj) && callees == if f in adj then adj[f] else []
    ensures forall c :: c in callees <==> Calls(edges, f, c)
    ensures forall c :: c in callees ==> c in Callees(edges)
  {
    forall c | c in callees ensures c in Callees(edges) { CalleesBound(edges, f, c); }
  }

  function Bound(maxDepth: int): nat {
    if maxDepth < 0 then 0 else maxDepth
  }

  /** One tree: a breadth-first search with an explicit queue and its own visited set. */
  method GrowTree(ghost edges: seq<Edge>, adj: map<Func, seq<Func>>, root: Func, maxDepth: int)
    returns (rows: seq<TreeRow>, truncated: bool)
    requires Adjacency(edges, adj)
    ensures ShortestPathTree(edges, root, if maxDepth < 0 then 0 else maxDepth, rows)
    ensures truncated <==> exists x :: Dist(edges, root, x, Bound(maxDepth))
  {
    rows, truncated := Sweep(edges, adj, root, maxDepth);
    SearchComplete(edges, root, Bound(maxDepth), rows);
    TruncatedIffDeep(edges, root, Bound(maxDepth), rows);
  }

  method Sweep(ghost edges: seq<Edge>, adj: map<Func, seq<Func>>, root: Func, maxDepth: int)
    returns (rows: seq<TreeRow>, truncated: bool)
    requires Adjacency(edges, adj)
    ensures Search(edges, root, Bound(maxDepth), rows, |rows|)
    ensures truncated <==> Deep(rows, Bound(maxDepth))
  {
    rows, truncated := [], false;
    var visited := {root};
    var queue := [TreeRow(root, [root], 0)];
    ghost var all := queue;
    StartSearch(edges, root, Bound(maxDepth));
    while queue != []
      invariant all == rows + queue && Search(edges, root, Bound(maxDepth), all, |rows|)
      invariant visited == Nodes(all)
      invariant truncated <==> Deep(rows, Bound(maxDepth))
      invariant visited <= Callees(edges) + {root}
      decreases Callees(edges) + {root} - visited, |queue|
    {
      var e := queue[0];
      var deep;
      queue, visited, deep, all := Pop(edges, adj, root, maxDepth, e, rows, all, queue, visited);
      DeepSnoc(rows, e, Bound(maxDepth));
      rows := rows + [e];
      truncated := truncated || deep;
    }
    assert all == rows;
  }

  /** The body of the search loop: at the depth limit an entry is kept but not expanded. */
  method Pop(
    ghost edges: seq<Edge>, adj: map<Func, seq<Func>>, ghost root: Func, maxDepth: int, e: TreeRow,
    ghost rows: seq<TreeRow>, ghost before: seq<TreeRow>, queue: seq<TreeRow>, visited: set<Func>)
    returns (queue': seq<TreeRow>, visited': set<Func>, deep: bool, ghost all: seq<TreeRow>)
    requires Adjacency(edges, adj) && |queue| > 0 && queue[0] == e
    requires before == rows + queue && Search(edges, root, Bound(maxDepth), before, |rows|)
    requires visited == Nodes(before)
    ensures all == rows + [e] + queue' && Search(edges, root, Bound(maxDepth), all, |rows| + 1)
    ensures visited' == Nodes(all) && visited <= visited' <= visited + Callees(edges)
    ensures visited' == visited ==> |queue'| < |queue|
    ensures deep <==> e.depth == Bound(maxDepth)
  {
    Unsnoc(rows, queue);
    Depth(edges, root, Bound(maxDepth), before, |rows|);
    queue' := queue[1..];
    if e.depth >= maxDepth {
      visited', deep, all := visited, true, before;
      PopDeep(edges, root, Bound(maxDepth), before, |rows|);
    } else {
      deep := false;
      queue', visited', all := Expand(edges, root, Bound(maxDepth), adj, e, rows + [e], before, |rows|, queue', visited);
    }
  }

  lemma Depth(edges: seq<Edge>, root: Func, bound: nat, rows: seq<TreeRow>, i: nat)
    requires AllRight(edges, root, bound, rows) && i < |rows|
    ensures rows[i].depth <= bound
  {
    assert Right(edges, root, bound, rows[i]);
  }

  lemma StartSearch(edges: seq<Edge>, root: Func, bound: nat)
    ensures var rows := [TreeRow(root, [root], 0)];
            Search(edges, root, bound, rows, 0) && Nodes(rows) == {root}
  {
    assert IsPath(edges, [root], root, root);
  }

  /** Some entry sits at the depth limit. */
  predicate Deep(rows: seq<TreeRow>, bound: nat) {
    exists r :: r in rows && r.depth == bound
  }

  lemma DeepSnoc(rows: seq<TreeRow>, e: TreeRow, bound: nat)
    ensures Deep(rows + [e], bound) <==> Deep(rows, bound) || e.depth == bound
  {
    assert forall r :: r in rows + [e] <==> r in rows || r == e;
  }

  lemma TruncatedIffDeep(edges: seq<Edge>, root: Func, bound: nat, rows: seq<TreeRow>)
    requires ShortestPathTree(edges, root, bound, rows)
    ensures Deep(rows, bound) <==> exists x :: Dist(edges, root, x, bound)
  {
    if r :| r in rows && r.depth == bound {
      assert Right(edges, root, bound, r);
    }
    if x :| Dist(edges, root, x, bound) {
      assert x in Nodes(rows);
      var r :| r in rows && r.node == x;
      assert Right(edges, root, bound, r);
      DistUnique(edges, root, x, r.depth, bound);
    }
  }
}
