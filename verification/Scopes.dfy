/** The regex fallback of the extractor: braces counted line by line, and the stack of open scopes. */
module Scopes {
  import opened Options

  datatype Mode = Code | Slash | Comment | InString | Escape

  function NextMode(m: Mode, c: char): Mode {
    match m
    case Code => if c == '/' then Slash else if c == '"' then InString else Code
    case Slash => if c == '/' then Comment else if c == '"' then InString else Code
    case Comment => Comment
    case InString => if c == '\\' then Escape else if c == '"' then Code else InString
    case Escape => InString
  }

  function ModeAfter(line: string): Mode {
    if line == "" then Code else NextMode(ModeAfter(line[..|line| - 1]), line[|line| - 1])
  }

  /** How often `brace` occurs outside strings and line comments. */
  function Count(line: string, brace: char): nat {
    if line == "" then 0
    else
      var front := line[..|line| - 1];
      Count(front, brace) + (if line[|line| - 1] == brace && ModeAfter(front) in {Code, Slash} then 1 else 0)
  }

  lemma {:induction false} NothingInComment(line: string, n: nat, brace: char)
    requires n <= |line| && ModeAfter(line[..n]) == Comment
    ensures Count(line, brace) == Count(line[..n], brace) && ModeAfter(line) == Comment
    decreases |line|
  {
    if n == |line| {
      assert line[..n] == line;
    } else {
      var front := line[..|line| - 1];
      assert front[..n] == line[..n];
      NothingInComment(front, n, brace);
    }
  }

  lemma Snoc(line: string, i: nat)
    requires i < |line|
    ensures ModeAfter(line[..i + 1]) == NextMode(ModeAfter(line[..i]), line[i])
    ensures forall brace :: Count(line[..i + 1], brace) ==
              Count(line[..i], brace) + (if line[i] == brace && ModeAfter(line[..i]) in {Code, Slash} then 1 else 0)
  {
    assert line[..i + 1][..i] == line[..i];
  }

  // ---- what is counted, token by token ----

  lemma Add(line: string, c: char, brace: char)
    ensures ModeAfter(line + [c]) == NextMode(ModeAfter(line), c)
    ensures Count(line + [c], brace) == Count(line, brace) + (if c == brace && ModeAfter(line) in {Code, Slash} then 1 else 0)
  {
    assert (line + [c])[..|line|] == line;
  }

  /** The inside of a string: no bare quote, and nothing after a backslash but the character it escapes. */
  predicate StringBody(b: string) {
    || b == ""
    || (b[|b| - 1] != '"' && b[|b| - 1] != '\\' && StringBody(b[..|b| - 1]))
    || (|b| >= 2 && b[|b| - 2] == '\\' && StringBody(b[..|b| - 2]))
  }

  lemma {:induction false} InsideString(line: string, b: string, brace: char)
    requires ModeAfter(line) == InString && StringBody(b)
    ensures ModeAfter(line + b) == InString && Count(line + b, brace) == Count(line, brace)
    decreases |b|
  {
    if b == "" {
      assert line + b == line;
    } else {
      var front, last := b[..|b| - 1], b[|b| - 1];
      assert line + b == line + front + [last];
      Add(line + front, last, brace);
      if last != '"' && last != '\\' && StringBody(front) {
        InsideString(line, front, brace);
      } else {
        var rest := b[..|b| - 2];
        assert line + front == line + rest + [b[|b| - 2]];
        Add(line + rest, b[|b| - 2], brace);
        InsideString(line, rest, brace);
      }
    }
  }

  /** A brace counts in code; a whole string counts for nothing, nor does anything behind two slashes. */
  lemma OnlyCodeCounts(line: string, b: string, brace: char)
    requires brace in {'{', '}'} && ModeAfter(line) == Code
    ensures Count(line + [brace], brace) == Count(line, brace) + 1 && ModeAfter(line + [brace]) == Code
    ensures StringBody(b) ==>
      var u := line + ['"'] + b + ['"']; Count(u, brace) == Count(line, brace) && ModeAfter(u) == Code
    ensures Count(line + ['/'] + ['/'] + b, brace) == Count(line, brace)
  {
    Add(line, brace, brace);
    if StringBody(b) {
      var open := line + ['"'];
      Add(line, '"', brace);
      InsideString(open, b, brace);
      Add(open + b, '"', brace);
    }
    var comment := line + ['/'] + ['/'];
    Add(line, '/', brace);
    Add(line + ['/'], '/', brace);
    assert (comment + b)[..|comment|] == comment;
    NothingInComment(comment + b, |comment|, brace);
  }

  /** _count_braces. */
  method CountBraces(line: string) returns (opens: nat, closes: nat)
    ensures opens == Count(line, '{') && closes == Count(line, '}')
  {
    opens, closes := 0, 0;
    var inStr, escape := false, false;
    var i := 0;
    while i < |line|
      invariant i <= |line| && opens == Count(line[..i], '{') && closes == Count(line[..i], '}')
      invariant inStr == (ModeAfter(line[..i]) in {InString, Escape}) && escape == (ModeAfter(line[..i]) == Escape)
      invariant ModeAfter(line[..i]) != Comment
      invariant ModeAfter(line[..i]) == Slash && i < |line| ==> line[i] != '/'
    {
      var ch := line[i];
      Snoc(line, i);
      if escape { escape := false; i := i + 1; continue; }
      if ch == '\\' && inStr { escape := true; i := i + 1; continue; }
      if ch == '"' { inStr := !inStr; i := i + 1; continue; }
      if inStr { i := i + 1; continue; }
      if ch == '/' && i + 1 < |line| && line[i + 1] == '/' {
        Snoc(line, i + 1);
        NothingInComment(line, i + 2, '{');
        NothingInComment(line, i + 2, '}');
        return;
      }
      if ch == '{' { opens := opens + 1; } else if ch == '}' { closes := closes + 1; }
      i := i + 1;
    }
    assert line[..|line|] == line;
  }

  /** A line: its braces, and the name of the scope that its header opens. */
  datatype Line = Line(opens: nat, closes: nat, scope: Option<string>)

  datatype Scope = Scope(name: string, depth: int)

  /** The brace depth after the first `n` lines. */
  function Depth(lines: seq<Line>, n: nat): int
    requires n <= |lines|
  {
    if n == 0 then 0 else Depth(lines, n - 1) + lines[n - 1].opens - lines[n - 1].closes
  }

  /** Line `i` opens a scope that is still open after `n` lines: the depth has stayed above it. */
  ghost predicate Active(lines: seq<Line>, n: nat, i: nat)
    requires i < n <= |lines|
  {
    lines[i].scope.Some? && lines[i].opens > 0 && StaysAbove(lines, i, n)
  }

  /** After line `i`, up to `n` lines, the depth is greater than before it. */
  ghost predicate StaysAbove(lines: seq<Line>, i: nat, n: nat)
    requires i < |lines| && n <= |lines|
  {
    n <= i || (Depth(lines, n) > Depth(lines, i) && StaysAbove(lines, i, n - 1))
  }

  /** The depth after `n` lines is greater than `low`. */
  predicate Above(lines: seq<Line>, n: nat, low: int) {
    n <= |lines| && Depth(lines, n) > low
  }

  predicate AllAbove(lines: seq<Line>, i: nat, n: nat, low: int) {
    forall k: nat :: i < k <= n ==> Above(lines, k, low)
  }

  lemma {:induction false} StaysAboveIff(lines: seq<Line>, i: nat, n: nat)
    requires i < |lines| && n <= |lines|
    ensures StaysAbove(lines, i, n) <==> AllAbove(lines, i, n, Depth(lines, i))
  {
    if n > i {
      StaysAboveIff(lines, i, n - 1);
      assert Above(lines, n, Depth(lines, i)) <==> Depth(lines, n) > Depth(lines, i);
    }
  }

  function ScopeAt(lines: seq<Line>, i: nat): Scope
    requires i < |lines| && lines[i].scope.Some?
  {
    Scope(lines[i].scope.value, Depth(lines, i))
  }

  /** The scopes opened on the first `m` lines that are still open after `n`, outermost first. */
  ghost function ActiveScopes(lines: seq<Line>, n: nat, m: nat): seq<Scope>
    requires m <= n <= |lines|
  {
    if m == 0 then []
    else if Active(lines, n, m - 1) then ActiveScopes(lines, n, m - 1) + [ScopeAt(lines, m - 1)]
    else ActiveScopes(lines, n, m - 1)
  }

  /** Line `i` opened the scope with a brace, and the depth has stayed above it since. */
  ghost predicate OpenedOn(lines: seq<Line>, n: nat, i: nat, s: Scope)
    requires i < n <= |lines|
  {
    && lines[i].opens > 0 && lines[i].scope == Some(s.name) && s.depth == Depth(lines, i)
    && AllAbove(lines, i, n, s.depth)
  }

  /** The stack holds exactly the scopes that some line opened and no later one closed. */
  lemma {:induction false} ActiveScopesAre(lines: seq<Line>, n: nat, m: nat, s: Scope)
    requires m <= n <= |lines|
    ensures s in ActiveScopes(lines, n, m) <==> exists i: nat :: i < m && OpenedOn(lines, n, i, s)
    decreases m
  {
    if m > 0 {
      ActiveScopesAre(lines, n, m - 1, s);
      StaysAboveIff(lines, m - 1, n);
      if lines[m - 1].scope == Some(s.name) && s.depth == Depth(lines, m - 1) {
        assert OpenedOn(lines, n, m - 1, s) <==> Active(lines, n, m - 1);
      }
    }
  }

  /** The scopes below a depth. */
  function Below(stack: seq<Scope>, depth: int): seq<Scope> {
    if stack == [] then []
    else
      var front, last := stack[..|stack| - 1], stack[|stack| - 1];
      if last.depth < depth then Below(front, depth) + [last] else Below(front, depth)
  }

  predicate Ascending(stack: seq<Scope>) {
    forall i, j :: 0 <= i < j < |stack| ==> stack[i].depth < stack[j].depth
  }

  predicate Under(stack: seq<Scope>, depth: int) {
    forall i :: 0 <= i < |stack| ==> stack[i].depth < depth
  }

  lemma {:induction false} AllBelow(stack: seq<Scope>, depth: int)
    requires Under(stack, depth)
    ensures Below(stack, depth) == stack
  {
    if stack != [] { AllBelow(stack[..|stack| - 1], depth); }
  }

  lemma BelowSnoc(stack: seq<Scope>, s: Scope, depth: int)
    ensures Below(stack + [s], depth) == if s.depth < depth then Below(stack, depth) + [s] else Below(stack, depth)
  {
    assert (stack + [s])[..|stack|] == stack;
  }

  /** One more line keeps the scopes that its depth does not close. */
  lemma {:induction false} OneMoreLine(lines: seq<Line>, n: nat, m: nat)
    requires m <= n < |lines|
    ensures ActiveScopes(lines, n + 1, m) == Below(ActiveScopes(lines, n, m), Depth(lines, n + 1))
    decreases m
  {
    if m > 0 {
      OneMoreLine(lines, n, m - 1);
      var i := m - 1;
      assert Active(lines, n + 1, i) <==> Active(lines, n, i) && Depth(lines, n + 1) > Depth(lines, i);
      if Active(lines, n, i) { BelowSnoc(ActiveScopes(lines, n, i), ScopeAt(lines, i), Depth(lines, n + 1)); }
    }
  }

  /** The stack before the pops: the scopes so far, and the one that line `n` opens. */
  lemma PushedIs(lines: seq<Line>, n: nat, stack: seq<Scope>)
    requires n < |lines| && stack == ActiveScopes(lines, n, n)
    ensures var pushed := if lines[n].scope.Some? && lines[n].opens > 0 then stack + [ScopeAt(lines, n)] else stack;
            Below(pushed, Depth(lines, n + 1)) == ActiveScopes(lines, n + 1, n + 1)
  {
    OneMoreLine(lines, n, n);
    assert StaysAbove(lines, n, n + 1) <==> Depth(lines, n + 1) > Depth(lines, n) && StaysAbove(lines, n, n);
    if lines[n].scope.Some? && lines[n].opens > 0 {
      BelowSnoc(stack, ScopeAt(lines, n), Depth(lines, n + 1));
    }
  }

  /** The pops: everything that the new depth closes. */
  method Pop(stack0: seq<Scope>, depth: int) returns (stack: seq<Scope>)
    requires Ascending(stack0)
    ensures stack == Below(stack0, depth) && Ascending(stack) && Under(stack, depth)
  {
    stack := stack0;
    while stack != [] && depth <= stack[|stack| - 1].depth
      invariant Ascending(stack) && Below(stack, depth) == Below(stack0, depth)
    {
      stack := stack[..|stack| - 1];
    }
    TopDecides(stack, depth);
    AllBelow(stack, depth);
  }

  lemma TopDecides(stack: seq<Scope>, depth: int)
    requires Ascending(stack) && (stack != [] ==> stack[|stack| - 1].depth < depth)
    ensures Under(stack, depth)
  {
  }

  /** The scope stack of _extract_functions_regex, after each line. */
  method TrackScopes(lines: seq<Line>) returns (scopes: seq<seq<Scope>>)
    ensures |scopes| == |lines|
    ensures forall i :: 0 <= i < |lines| ==> scopes[i] == ActiveScopes(lines, i + 1, i + 1)
  {
    scopes := [];
    var stack: seq<Scope> := [];
    var depth := 0;
    for n := 0 to |lines|
      invariant |scopes| == n && stack == ActiveScopes(lines, n, n) && depth == Depth(lines, n)
      invariant Ascending(stack) && Under(stack, depth)
      invariant forall i :: 0 <= i < n ==> scopes[i] == ActiveScopes(lines, i + 1, i + 1)
    {
      var l := lines[n];
      PushedIs(lines, n, stack);
      var pushed := if l.scope.Some? && l.opens > 0 then stack + [Scope(l.scope.value, depth)] else stack;
      depth := depth + l.opens - l.closes;
      stack := Pop(pushed, depth);
      scopes := scopes + [stack];
    }
  }
}
