/** The classification of kept functions in classify_entry_categories. */
module EntryCategories {
  import opened CallGraph
  import opened Closure

  datatype Category = External | Processing | Internal

  /** The depth used when no external entry reaches the function. */
  const NO_ANCESTOR := 999

  predicate HasKeptAncestor(closure: map<Pair, int>, kept: set<Func>, f: Func) {
    exists a :: a in kept && a != f && (a, f) in closure
  }

  /** Active functions, and kept functions that no other kept function reaches. */
  predicate IsExternal(closure: map<Pair, int>, kept: set<Func>, active: set<Func>, f: Func) {
    f in kept && (f in active || !HasKeptAncestor(closure, kept, f))
  }

  /** The external entries that reach `f`. */
  function ExternalAncestors(closure: map<Pair, int>, kept: set<Func>, active: set<Func>, f: Func): set<Func> {
    set a | a in kept && IsExternal(closure, kept, active, a) && (a, f) in closure
  }

  /** Some external entry reaches `f` in at most `maxDepth` calls, as the closure has it. */
  predicate Near(closure: map<Pair, int>, kept: set<Func>, active: set<Func>, maxDepth: int, f: Func) {
    exists a :: a in ExternalAncestors(closure, kept, active, f) && closure[(a, f)] <= maxDepth
  }

  /** The category of each kept function, without reference to any order of visiting them. */
  function Categorize(
    closure: map<Pair, int>, kept: set<Func>, active: set<Func>, maxDepth: int, f: Func): Category
  {
    if IsExternal(closure, kept, active, f) then External
    else if Near(closure, kept, active, maxDepth, f) then Processing
    else if ExternalAncestors(closure, kept, active, f) == {} && NO_ANCESTOR <= maxDepth then Processing
    else Internal
  }

  /** `SELECT MIN(depth)` over the rows of the external ancestors, with the value for no row. */
  method MinDepth(closure: map<Pair, int>, externals: set<Func>, f: Func) returns (m: int)
    ensures var rows := set a | a in externals && (a, f) in closure;
            if rows == {} then m == 999
            else (exists a :: a in rows && closure[(a, f)] == m) && (forall a :: a in rows ==> m <= closure[(a, f)])
  {
    var rows := set a | a in externals && (a, f) in closure;
    if rows == {} {
      return NO_ANCESTOR;
    }
    var first :| first in rows;
    m := closure[(first, f)];
    var rest := rows - {first};
    while rest != {}
      invariant rest <= rows
      invariant exists a :: a in rows && closure[(a, f)] == m
      invariant forall a :: a in rows && a !in rest ==> m <= closure[(a, f)]
      decreases |rest|
    {
      var a :| a in rest;
      rest := rest - {a};
      if closure[(a, f)] < m { m := closure[(a, f)]; }
    }
  }

  /** Pass 1, visiting the kept functions in any order. */
  method FindExternals(closure: map<Pair, int>, kept: set<Func>, active: set<Func>)
    returns (detail: map<Func, Category>, externals: set<Func>)
    ensures externals == set f | f in kept && IsExternal(closure, kept, active, f)
    ensures detail.Keys == externals && forall f :: f in detail ==> detail[f] == External
  {
    detail, externals := map[], {};
    var rest := kept;
    while rest != {}
      invariant rest <= kept
      invariant forall f :: f in externals <==> f in kept && f !in rest && IsExternal(closure, kept, active, f)
      invariant detail.Keys == externals && forall f :: f in detail ==> detail[f] == External
      decreases |rest|
    {
      var f :| f in rest;
      rest := rest - {f};
      var external := f in active || !HasKeptAncestor(closure, kept, f);
      assert external <==> IsExternal(closure, kept, active, f);
      if external {
        detail := detail[f := External];
        externals := externals + {f};
      }
    }
  }

  /** The rules for each kept function, from the closure alone: external if active or without another kept
      ancestor; else processing if an external ancestor lies within the limit, or there is none and the limit
      is at least 999; else internal. */
  ghost predicate FollowsRules(
    closure: map<Pair, int>, kept: set<Func>, active: set<Func>, maxDepth: int, detail: map<Func, Category>)
  {
    && detail.Keys == kept
    && forall f :: f in kept ==>
         && (detail[f] == External <==> f in active || forall a :: a in kept && a != f ==> (a, f) !in closure)
         && (detail[f] == Processing <==>
              && detail[f] != External
              && (|| (exists a :: a in kept && detail[a] == External && (a, f) in closure && closure[(a, f)] <= maxDepth)
                  || (999 <= maxDepth && forall a :: a in kept && detail[a] == External ==> (a, f) !in closure)))
  }

  /** The category of each function by the rules. */
  lemma CategoriesFollowRules(
    closure: map<Pair, int>, kept: set<Func>, active: set<Func>, maxDepth: int, detail: map<Func, Category>)
    requires detail.Keys == kept && forall f :: f in kept ==> detail[f] == Categorize(closure, kept, active, maxDepth, f)
    ensures FollowsRules(closure, kept, active, maxDepth, detail)
  {
    forall a | a in kept ensures detail[a] == External <==> IsExternal(closure, kept, active, a) {
    }
    forall f | f in kept
      ensures Near(closure, kept, active, maxDepth, f) <==>
              exists a :: a in kept && detail[a] == External && (a, f) in closure && closure[(a, f)] <= maxDepth
      ensures ExternalAncestors(closure, kept, active, f) == {} <==>
              forall a :: a in kept && detail[a] == External ==> (a, f) !in closure
    {
      assert forall a :: a in ExternalAncestors(closure, kept, active, f) <==> a in kept && detail[a] == External && (a, f) in closure;
    }
  }

  /** Both passes; the second classifies what is left by its depth below an external entry. */
  method Classify(closure: map<Pair, int>, kept: set<Func>, active: set<Func>, maxDepth: int)
    returns (detail: map<Func, Category>)
    ensures detail.Keys == kept
    ensures forall f :: f in kept ==> detail[f] == Categorize(closure, kept, active, maxDepth, f)
  {
    var externals;
    detail, externals := FindExternals(closure, kept, active);
    var rest := kept;
    while rest != {}
      invariant rest <= kept
      invariant detail.Keys == externals + (kept - rest)
      invariant forall f :: f in detail ==> detail[f] == Categorize(closure, kept, active, maxDepth, f)
      decreases |rest|
    {
      var f :| f in rest;
      rest := rest - {f};
      if f !in detail {
        var m := MinDepth(closure, externals, f);
        DepthDecides(closure, kept, active, maxDepth, f, externals, m);
        detail := detail[f := if m <= maxDepth then Processing else Internal];
      }
    }
  }

  lemma DepthDecides(
    closure: map<Pair, int>, kept: set<Func>, active: set<Func>, maxDepth: int, f: Func, externals: set<Func>, m: int)
    requires externals == set x | x in kept && IsExternal(closure, kept, active, x)
    requires f in kept && f !in externals
    requires var rows := set a | a in externals && (a, f) in closure;
             if rows == {} then m == NO_ANCESTOR
             else (exists a :: a in rows && closure[(a, f)] == m) && (forall a :: a in rows ==> m <= closure[(a, f)])
    ensures Categorize(closure, kept, active, maxDepth, f) == if m <= maxDepth then Processing else Internal
  {
    assert ExternalAncestors(closure, kept, active, f) == set a | a in externals && (a, f) in closure;
  }

  /** The three counts of the result partition the kept set. */
  lemma CountsPartition(detail: map<Func, Category>)
    ensures var count := (c: Category) => |set f | f in detail && detail[f] == c|;
            count(External) + count(Processing) + count(Internal) == |detail.Keys|
  {
    var e := set f | f in detail && detail[f] == External;
    var p := set f | f in detail && detail[f] == Processing;
    var i := set f | f in detail && detail[f] == Internal;
    assert detail.Keys == e + p + i;
    assert e !! p && (e + p) !! i;
  }

  // ---- what the categories mean in the call graph ----

  ghost predicate ReachedWithin(edges: seq<Edge>, a: Func, f: Func, n: int) {
    exists k: nat :: Dist(edges, a, f, k) && 1 <= k <= n
  }

  lemma InClosureIffReached(edges: seq<Edge>, closure: map<Pair, int>, n: int, a: Func, f: Func, m: int)
    requires ExactUpTo(edges, closure, n)
    ensures (a, f) in closure <==> ReachedWithin(edges, a, f, n)
    ensures (a, f) in closure && closure[(a, f)] <= m <==> ReachedWithin(edges, a, f, if m < n then m else n)
  {
    if (a, f) in closure {
      assert Dist(edges, (a, f).0, (a, f).1, closure[(a, f)]);
    }
    if k: nat :| Dist(edges, a, f, k) && 1 <= k <= n {
      DistUnique(edges, a, f, k, closure[(a, f)]);
    }
  }

  /** With the closure built to depth `n`, a function is external exactly when it is active or no
      other kept function calls it, however indirectly, within `n` calls. */
  lemma ExternalByDistance(
    edges: seq<Edge>, closure: map<Pair, int>, n: int, kept: set<Func>, active: set<Func>, f: Func)
    requires ExactUpTo(edges, closure, n) && f in kept
    ensures IsExternal(closure, kept, active, f) <==>
              f in active || forall a :: a in kept && a != f ==> !ReachedWithin(edges, a, f, n)
  {
    forall a | a in kept ensures (a, f) in closure <==> ReachedWithin(edges, a, f, n) {
      InClosureIffReached(edges, closure, n, a, f, n);
    }
  }

  /** What the rules promise for a function that is not external: a processing entry is one that
      some external entry reaches within `maxDepth` calls. */
  ghost predicate AsPromised(
    edges: seq<Edge>, closure: map<Pair, int>, n: int, kept: set<Func>, active: set<Func>, maxDepth: int, f: Func)
  {
    Categorize(closure, kept, active, maxDepth, f) == Processing <==>
      exists a :: a in kept && IsExternal(closure, kept, active, a)
                  && ReachedWithin(edges, a, f, if maxDepth < n then maxDepth else n)
  }

  /** The promise holds for every function exactly when the sentinel depth is out of play: the
      depth limit is below it, or some external entry reaches the function at all. */
  lemma PromiseIffNoSentinel(
    edges: seq<Edge>, closure: map<Pair, int>, n: int, kept: set<Func>, active: set<Func>, maxDepth: int, f: Func)
    requires ExactUpTo(edges, closure, n) && f in kept && !IsExternal(closure, kept, active, f)
    ensures AsPromised(edges, closure, n, kept, active, maxDepth, f) <==>
              maxDepth < 999 || ExternalAncestors(closure, kept, active, f) != {}
  {
    forall a
      ensures (a, f) in closure && closure[(a, f)] <= maxDepth <==>
                ReachedWithin(edges, a, f, if maxDepth < n then maxDepth else n)
    {
      InClosureIffReached(edges, closure, n, a, f, maxDepth);
    }
    assert Near(closure, kept, active, maxDepth, f) <==>
             exists a :: a in kept && IsExternal(closure, kept, active, a)
                         && ReachedWithin(edges, a, f, if maxDepth < n then maxDepth else n);
  }

  /** The graph of two functions that call each other, and its closure. */
  function MutualCalls(a: Func, b: Func): seq<Edge> {
    [Edge(a, b, 1), Edge(b, a, 2)]
  }

  lemma MutualClosure(a: Func, b: Func, n: int)
    requires a != b && n >= 1
    ensures ExactUpTo(MutualCalls(a, b), map[(a, b) := 1, (b, a) := 1], n)
  {
    var edges, closure := MutualCalls(a, b), map[(a, b) := 1, (b, a) := 1];
    assert edges[0] in edges && edges[1] in edges;
    assert DirectPairs(edges) == closure;
    DirectPairsExact(edges);
    assert NextLayer(edges, closure, 2) == {};
    ConvergedExact(edges, closure, 2, n);
  }

  /** Two kept functions that call each other, neither of them active: neither is external, so no
      external entry reaches them, and yet with a limit of 999 or more both count as processing
      entries. Both callers in the repository leave the limit at its default of 2. */
  lemma SentinelExample(a: Func, b: Func, n: int, maxDepth: int)
    requires a != b && n >= 1
    ensures var closure := map[(a, b) := 1, (b, a) := 1];
            && ExactUpTo(MutualCalls(a, b), closure, n)
            && ExternalAncestors(closure, {a, b}, {}, a) == {}
            && (AsPromised(MutualCalls(a, b), closure, n, {a, b}, {}, maxDepth, a) <==> maxDepth < 999)
  {
    var closure := map[(a, b) := 1, (b, a) := 1];
    assert (b, a) in closure && (a, b) in closure;
    assert b in {a, b} && a in {a, b};
    assert HasKeptAncestor(closure, {a, b}, a) && HasKeptAncestor(closure, {a, b}, b);
    assert ExternalAncestors(closure, {a, b}, {}, a) == {};
    MutualClosure(a, b, n);
    PromiseIffNoSentinel(MutualCalls(a, b), closure, n, {a, b}, {}, maxDepth, a);
  }

  ghost predicate Acyclic(edges: seq<Edge>) {
    forall f, k: nat :: Walk(edges, f, f, k) ==> k == 0
  }

  /** Acyclic means that no call path leads back to where it started. */
  lemma AcyclicIffNoClosedPath(edges: seq<Edge>)
    ensures Acyclic(edges) <==> forall p, f :: IsPath(edges, p, f, f) ==> |p| == 1
  {
    if Acyclic(edges) {
      forall p, f | IsPath(edges, p, f, f) ensures |p| == 1 {
        WalkIffPath(edges, f, f, |p| - 1);
        assert Walk(edges, f, f, |p| - 1);
      }
    }
    if forall p, f :: IsPath(edges, p, f, f) ==> |p| == 1 {
      forall f, k: nat | Walk(edges, f, f, k) ensures k == 0 {
        WalkIffPath(edges, f, f, k);
        var p :| IsPath(edges, p, f, f) && |p| == k + 1;
      }
    }
  }

  /** The closure misses no reachable pair. */
  ghost predicate Complete(edges: seq<Edge>, closure: map<Pair, int>) {
    forall a, d, k: nat :: Walk(edges, a, d, k) && a != d ==> (a, d) in closure
  }

  /** An empty layer makes the closure complete. */
  lemma ConvergedComplete(edges: seq<Edge>, closure: map<Pair, int>, k: nat)
    requires k >= 2 && ExactUpTo(edges, closure, k - 1) && NextLayer(edges, closure, k) == {}
    ensures Complete(edges, closure)
  {
    forall a, d, j: nat | Walk(edges, a, d, j) && a != d ensures (a, d) in closure {
      var i := ShortestWalk(edges, a, d, j);
      DistZero(edges, a, d);
      ConvergedExact(edges, closure, k, if i < k then k - 1 else i);
    }
  }

  ghost function KeptAncestors(closure: map<Pair, int>, kept: set<Func>, f: Func): set<Func> {
    set a | a in kept && (a, f) in closure
  }

  /** On an acyclic graph with a complete closure every kept function is external or has an
      external ancestor. */
  lemma {:induction false} EveryoneIsRooted(
    edges: seq<Edge>, closure: map<Pair, int>, n: int, kept: set<Func>, active: set<Func>, f: Func)
    requires ExactUpTo(edges, closure, n) && Acyclic(edges) && Complete(edges, closure) && f in kept
    ensures IsExternal(closure, kept, active, f) || ExternalAncestors(closure, kept, active, f) != {}
    decreases |KeptAncestors(closure, kept, f)|
  {
    if !IsExternal(closure, kept, active, f) {
      var a :| a in kept && a != f && (a, f) in closure;
      assert Dist(edges, (a, f).0, (a, f).1, closure[(a, f)]);
      forall x | x in KeptAncestors(closure, kept, a) ensures x in KeptAncestors(closure, kept, f) {
        Through(edges, closure, n, x, a, f);
      }
      NoSelfPair(edges, closure, n, a);
      assert a in KeptAncestors(closure, kept, f) && a !in KeptAncestors(closure, kept, a);
      assert KeptAncestors(closure, kept, a) < KeptAncestors(closure, kept, f);
      Smaller(KeptAncestors(closure, kept, a), KeptAncestors(closure, kept, f));
      EveryoneIsRooted(edges, closure, n, kept, active, a);
      if IsExternal(closure, kept, active, a) {
        assert a in ExternalAncestors(closure, kept, active, f);
      } else {
        var x :| x in ExternalAncestors(closure, kept, active, a);
        Through(edges, closure, n, x, a, f);
        assert x in ExternalAncestors(closure, kept, active, f);
      }
    }
  }

  lemma NoSelfPair(edges: seq<Edge>, closure: map<Pair, int>, n: int, a: Func)
    requires ExactUpTo(edges, closure, n)
    ensures (a, a) !in closure
  {
    assert Walk(edges, a, a, 0);
  }

  lemma Smaller<T>(a: set<T>, b: set<T>)
    requires a < b
    ensures |a| < |b|
  {
    assert b == a + (b - a);
    assert |b| == |a| + |b - a|;
  }

  lemma Through(edges: seq<Edge>, closure: map<Pair, int>, n: int, x: Func, a: Func, f: Func)
    requires ExactUpTo(edges, closure, n) && Acyclic(edges) && Complete(edges, closure)
    requires (x, a) in closure && (a, f) in closure
    ensures (x, f) in closure
  {
    assert Dist(edges, (x, a).0, (x, a).1, closure[(x, a)]);
    assert Dist(edges, (a, f).0, (a, f).1, closure[(a, f)]);
    WalkJoin(edges, x, a, f, closure[(x, a)], closure[(a, f)]);
  }
}
